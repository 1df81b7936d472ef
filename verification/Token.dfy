/** Access tokens: unpadded base64url, the three parts of a token, and decoding it again. */
module Token {
  import opened Options
  import opened Text

  type Byte = x: int | 0 <= x < 256

  // ----- base64url -----

  /** The URL-safe alphabet of section 5 of RFC 4648. */
  function Symbol(v: int): char
    requires 0 <= v < 64
  {
    if v < 26 then ('A' as int + v) as char
    else if v < 52 then ('a' as int + (v - 26)) as char
    else if v < 62 then ('0' as int + (v - 52)) as char
    else if v == 62 then '-' else '_'
  }

  /** What the decoder reads; it also takes the two symbols of the standard alphabet. */
  function Value(c: char): Option<int> {
    if 'A' <= c <= 'Z' then Some(c as int - 'A' as int)
    else if 'a' <= c <= 'z' then Some(c as int - 'a' as int + 26)
    else if '0' <= c <= '9' then Some(c as int - '0' as int + 52)
    else if c == '-' || c == '+' then Some(62)
    else if c == '_' || c == '/' then Some(63)
    else None
  }

  /** With padding. */
  function Padded(data: seq<Byte>): string {
    if data == [] then ""
    else if |data| == 1 then [Symbol(data[0] / 4), Symbol(data[0] % 4 * 16), '=', '=']
    else if |data| == 2 then
      [Symbol(data[0] / 4), Symbol(data[0] % 4 * 16 + data[1] / 16), Symbol(data[1] % 16 * 4), '=']
    else
      [Symbol(data[0] / 4), Symbol(data[0] % 4 * 16 + data[1] / 16),
       Symbol(data[1] % 16 * 4 + data[2] / 64), Symbol(data[2] % 64)] + Padded(data[3..])
  }

  function WithoutPadding(s: string): string {
    if s != [] && s[|s| - 1] == '=' then WithoutPadding(s[..|s| - 1]) else s
  }

  /** `_b64` */
  function Encode(data: seq<Byte>): string { WithoutPadding(Padded(data)) }

  /** `quad` symbols of the current group were read, `left` is what they left over. */
  datatype Scan = Scan(quad: nat, left: nat, pads: nat)

  ghost predicate Fits(st: Scan) {
    st.quad < 4 && st.left < (match st.quad case 0 => 1 case 1 => 64 case 2 => 16 case _ => 4)
  }

  /** The byte that a symbol completes. */
  function Emitted(st: Scan, v: int): seq<Byte>
    requires Fits(st) && 0 <= v < 64
  {
    match st.quad
    case 0 => []
    case 1 => [st.left * 4 + v / 16]
    case 2 => [st.left * 16 + v / 4]
    case _ => [st.left * 64 + v]
  }

  function Next(st: Scan, v: int): (r: Scan)
    requires Fits(st) && 0 <= v < 64
    ensures Fits(r)
  {
    match st.quad
    case 0 => Scan(1, v, 0)
    case 1 => Scan(2, v % 16, 0)
    case 2 => Scan(3, v % 4, 0)
    case _ => Scan(0, 0, 0)
  }

  function Then(first: seq<Byte>, rest: Option<seq<Byte>>): Option<seq<Byte>> {
    match rest case None => None case Some(s) => Some(first + s)
  }

  /** The lenient decoder: foreign characters are skipped, and a group's full padding ends it. */
  function Decoded(s: string, st: Scan): Option<seq<Byte>>
    requires Fits(st)
  {
    if s == [] then (if st.quad == 0 then Some([]) else None)
    else if s[0] == '=' then
      if st.quad < 2 then Decoded(s[1..], st)
      else if st.quad + st.pads + 1 >= 4 then Some([])
      else Decoded(s[1..], st.(pads := st.pads + 1))
    else match Value(s[0])
         case None => Decoded(s[1..], st)
         case Some(v) => Then(Emitted(st, v), Decoded(s[1..], Next(st, v)))
  }

  method DecodeBase64(s: string) returns (r: Option<seq<Byte>>)
    ensures r == Decoded(s, Scan(0, 0, 0))
  {
    var out: seq<Byte> := [];
    var st := Scan(0, 0, 0);
    ThenNothing(Decoded(s, st));
    assert s[0..] == s;
    for i := 0 to |s|
      invariant Fits(st)
      invariant Decoded(s, Scan(0, 0, 0)) == Then(out, Decoded(s[i..], st))
    {
      assert s[i..][1..] == s[i + 1..];
      if s[i] == '=' {
        if st.quad >= 2 {
          if st.quad + st.pads + 1 >= 4 {
            assert out + [] == out;
            return Some(out);
          }
          st := st.(pads := st.pads + 1);
        }
      } else if Value(s[i]).Some? {
        var v := Value(s[i]).value;
        ThenThen(out, Emitted(st, v), Decoded(s[i + 1..], Next(st, v)));
        out, st := out + Emitted(st, v), Next(st, v);
      }
    }
    assert out + [] == out;
    r := if st.quad == 0 then Some(out) else None;
  }

  lemma ThenThen(a: seq<Byte>, b: seq<Byte>, r: Option<seq<Byte>>)
    ensures Then(a, Then(b, r)) == Then(a + b, r)
  {
    if r.Some? { assert a + (b + r.value) == (a + b) + r.value; }
  }

  lemma ThenNothing(r: Option<seq<Byte>>)
    ensures Then([], r) == r
  {
    if r.Some? { assert [] + r.value == r.value; }
  }

  function Pads(n: nat): string { if n == 0 then "" else "=" + Pads(n - 1) }

  /** `_unb64`: Python's `-n % 4` is what is missing to a multiple of four. A character
      outside ASCII is a ValueError. */
  function Decode(s: string): Option<seq<Byte>> {
    if exists i :: 0 <= i < |s| && s[i] > '\U{7f}' then None
    else Decoded(s + Pads((4 - |s| % 4) % 4), Scan(0, 0, 0))
  }

  lemma SymbolValue(v: int)
    requires 0 <= v < 64
    ensures Value(Symbol(v)) == Some(v) && Symbol(v) != '=' && Symbol(v) != '.' && Symbol(v) <= '\U{7f}'
  {
  }

  lemma DecodeSymbol(s: string, st: Scan, v: int)
    requires Fits(st) && 0 <= v < 64 && s != [] && s[0] == Symbol(v)
    ensures Decoded(s, st) == Then(Emitted(st, v), Decoded(s[1..], Next(st, v)))
  {
    SymbolValue(v);
  }

  /** The bytes of four symbols. */
  function Joined(v0: int, v1: int, v2: int, v3: int): seq<Byte>
    requires 0 <= v0 < 64 && 0 <= v1 < 64 && 0 <= v2 < 64 && 0 <= v3 < 64
  {
    [v0 * 4 + v1 / 16, v1 % 16 * 16 + v2 / 4, v2 % 4 * 64 + v3]
  }

  lemma Groups(v0: int, v1: int, v2: int, v3: int)
    requires 0 <= v0 < 64 && 0 <= v1 < 64 && 0 <= v2 < 64 && 0 <= v3 < 64
    ensures Fits(Scan(1, v0, 0)) && Next(Scan(0, 0, 0), v0) == Scan(1, v0, 0) && Emitted(Scan(0, 0, 0), v0) == []
    ensures Fits(Scan(2, v1 % 16, 0)) && Next(Scan(1, v0, 0), v1) == Scan(2, v1 % 16, 0)
    ensures Fits(Scan(3, v2 % 4, 0)) && Next(Scan(2, v1 % 16, 0), v2) == Scan(3, v2 % 4, 0)
    ensures Next(Scan(3, v2 % 4, 0), v3) == Scan(0, 0, 0)
    ensures Emitted(Scan(1, v0, 0), v1) + (Emitted(Scan(2, v1 % 16, 0), v2) + Emitted(Scan(3, v2 % 4, 0), v3)) ==
            Joined(v0, v1, v2, v3)
  {
  }

  lemma {:induction false} DecodeFour(s: string, v0: int, v1: int, v2: int, v3: int)
    requires 0 <= v0 < 64 && 0 <= v1 < 64 && 0 <= v2 < 64 && 0 <= v3 < 64 && |s| >= 4
    requires s[0] == Symbol(v0) && s[1] == Symbol(v1) && s[2] == Symbol(v2) && s[3] == Symbol(v3)
    ensures Decoded(s, Scan(0, 0, 0)) == Then(Joined(v0, v1, v2, v3), Decoded(s[4..], Scan(0, 0, 0)))
  {
    hide Decoded, Symbol;
    Groups(v0, v1, v2, v3);
    hide Fits, Next, Emitted, Joined;
    var st1, st2, st3 := Scan(1, v0, 0), Scan(2, v1 % 16, 0), Scan(3, v2 % 4, 0);
    var end := Decoded(s[4..], Scan(0, 0, 0));
    assert s[1..][1..] == s[2..] && s[2..][1..] == s[3..] && s[3..][1..] == s[4..];
    DecodeSymbol(s, Scan(0, 0, 0), v0);
    DecodeSymbol(s[1..], st1, v1);
    DecodeSymbol(s[2..], st2, v2);
    DecodeSymbol(s[3..], st3, v3);
    var a, b, c := Emitted(st1, v1), Emitted(st2, v2), Emitted(st3, v3);
    ThenThen(b, c, end);
    ThenThen(a, b + c, end);
    ThenNothing(Then(a + (b + c), end));
  }

  lemma RegroupLast(b: Byte, c: Byte)
    ensures 0 <= b % 16 * 4 + c / 64 < 64 && 0 <= c % 64 < 64
    ensures (b % 16 * 4 + c / 64) % 4 * 64 + c % 64 == c && (b % 16 * 4 + c / 64) / 4 == b % 16
  {
  }

  lemma RegroupFirst(a: Byte, b: Byte)
    ensures 0 <= a / 4 < 64 && 0 <= a % 4 * 16 + b / 16 < 64
    ensures a / 4 * 4 + (a % 4 * 16 + b / 16) / 16 == a && (a % 4 * 16 + b / 16) % 16 == b / 16
  {
  }

  lemma Regroup(a: Byte, b: Byte, c: Byte)
    ensures 0 <= a / 4 < 64 && 0 <= a % 4 * 16 + b / 16 < 64 && 0 <= b % 16 * 4 + c / 64 < 64 && 0 <= c % 64 < 64
    ensures Joined(a / 4, a % 4 * 16 + b / 16, b % 16 * 4 + c / 64, c % 64) == [a, b, c]
  {
    RegroupFirst(a, b);
    RegroupLast(b, c);
  }

  lemma DecodeEnd(s: string, st: Scan)
    requires Fits(st) && st.quad + st.pads == 3 && st.quad >= 2 && s != [] && s[0] == '='
    ensures Decoded(s, st) == Some([])
  {
  }

  /** A group cut short by padding: one byte, or two. */
  lemma {:induction false} DecodeOne(s: string, v0: int, v1: int)
    requires 0 <= v0 < 64 && 0 <= v1 < 64 && s == [Symbol(v0), Symbol(v1), '=', '=']
    ensures Decoded(s, Scan(0, 0, 0)) == Some([v0 * 4 + v1 / 16])
  {
    DecodeSymbol(s, Scan(0, 0, 0), v0);
    DecodeSymbol(s[1..], Scan(1, v0, 0), v1);
    var st := Scan(2, v1 % 16, 0);
    assert s[1..][1..] == s[2..] && s[2..][1..] == s[3..];
    DecodeEnd(s[3..], Scan(2, v1 % 16, 1));
    assert Decoded(s[2..], st) == Decoded(s[3..], Scan(2, v1 % 16, 1));
    hide Decoded, Symbol;
    assert Emitted(Scan(1, v0, 0), v1) + [] == [v0 * 4 + v1 / 16];
    ThenNothing(Some([v0 * 4 + v1 / 16]));
  }

  lemma {:induction false} DecodeTwo(s: string, v0: int, v1: int, v2: int)
    requires 0 <= v0 < 64 && 0 <= v1 < 64 && 0 <= v2 < 64 && s == [Symbol(v0), Symbol(v1), Symbol(v2), '=']
    ensures Decoded(s, Scan(0, 0, 0)) == Some([v0 * 4 + v1 / 16, v1 % 16 * 16 + v2 / 4])
  {
    hide Decoded, Symbol;
    DecodeSymbol(s, Scan(0, 0, 0), v0);
    DecodeSymbol(s[1..], Scan(1, v0, 0), v1);
    DecodeSymbol(s[2..], Scan(2, v1 % 16, 0), v2);
    assert s[1..][1..] == s[2..] && s[2..][1..] == s[3..];
    DecodeEnd(s[3..], Scan(3, v2 % 4, 0));
    var a, b := Emitted(Scan(1, v0, 0), v1), Emitted(Scan(2, v1 % 16, 0), v2);
    assert b + [] == b && a + b == [v0 * 4 + v1 / 16, v1 % 16 * 16 + v2 / 4];
    ThenNothing(Some(a + b));
  }

  lemma RegroupTwo(a: Byte, b: Byte)
    ensures 0 <= a / 4 < 64 && 0 <= a % 4 * 16 + b / 16 < 64 && 0 <= b % 16 * 4 < 64
    ensures a / 4 * 4 + (a % 4 * 16 + b / 16) / 16 == a
    ensures (a % 4 * 16 + b / 16) % 16 * 16 + b % 16 * 4 / 4 == b
  {
  }

  lemma EmptyDecodes()
    ensures Decoded(Padded([]), Scan(0, 0, 0)) == Some([])
  {
  }

  lemma {:induction false} DecodePadded(data: seq<Byte>)
    ensures Decoded(Padded(data), Scan(0, 0, 0)) == Some(data)
  {
    hide Decoded, Symbol;
    if |data| == 1 {
      RegroupTwo(data[0], 0);
      DecodeOne(Padded(data), data[0] / 4, data[0] % 4 * 16);
      assert data == [data[0]];
    } else if |data| == 2 {
      RegroupTwo(data[0], data[1]);
      DecodeTwo(Padded(data), data[0] / 4, data[0] % 4 * 16 + data[1] / 16, data[1] % 16 * 4);
      assert data == [data[0], data[1]];
    } else if |data| == 0 {
      EmptyDecodes();
    } else {
      DecodePadded(data[3..]);
      DecodeHead(data);
    }
  }

  lemma {:induction false} DecodeHead(data: seq<Byte>)
    requires |data| > 2 && Decoded(Padded(data[3..]), Scan(0, 0, 0)) == Some(data[3..])
    ensures Decoded(Padded(data), Scan(0, 0, 0)) == Some(data)
  {
    hide Decoded, Symbol;
    var a, b, c := data[0], data[1], data[2];
    Regroup(a, b, c);
    DecodeFour(Padded(data), a / 4, a % 4 * 16 + b / 16, b % 16 * 4 + c / 64, c % 64);
    assert Padded(data)[4..] == Padded(data[3..]);
    hide Padded;
    assert data == [a, b, c] + data[3..];
  }

  // ----- Padding off and on -----

  ghost predicate IsSymbols(s: string) { forall i :: 0 <= i < |s| ==> IsSymbol(s[i]) }

  predicate IsSymbol(c: char) { Value(c).Some? && c != '.' && c <= '\U{7f}' }

  lemma {:induction false} OneSplits(data: seq<Byte>)
    requires |data| == 1
    ensures Padded(data) == Padded(data)[..2] + Pads(2) && IsSymbols(Padded(data)[..2])
  {
    RegroupTwo(data[0], 0);
    SymbolValue(data[0] / 4);
    SymbolValue(data[0] % 4 * 16);
    PadsAre();
    hide Symbol, Value, Pads;
  }

  lemma {:induction false} TwoSplits(data: seq<Byte>)
    requires |data| == 2
    ensures Padded(data) == Padded(data)[..3] + Pads(1) && IsSymbols(Padded(data)[..3])
  {
    RegroupTwo(data[0], data[1]);
    SymbolValue(data[0] / 4);
    SymbolValue(data[0] % 4 * 16 + data[1] / 16);
    SymbolValue(data[1] % 16 * 4);
    PadsAre();
    hide Symbol, Value, Pads;
  }

  lemma NoneSplits()
    ensures Padded([]) == "" + Pads(0) && IsSymbols("")
  {
  }

  /** The symbols of the encoding without its padding. */
  lemma {:induction false} PaddedSplits(data: seq<Byte>) returns (t: string, n: nat)
    ensures Padded(data) == t + Pads(n) && n <= 2 && IsSymbols(t) && (|t| + n) % 4 == 0
  {
    hide Padded, Symbol, Pads, IsSymbols;
    if |data| == 0 {
      t, n := "", 0;
      NoneSplits();
      assert data == [];
    } else if |data| == 1 {
      OneSplits(data);
      SizeOfPadded(data);
      t, n := Padded(data)[..2], 2;
    } else if |data| == 2 {
      TwoSplits(data);
      SizeOfPadded(data);
      t, n := Padded(data)[..3], 1;
    } else {
      t, n := PaddedSplits(data[3..]);
      t := GroupSplits(data, t, n);
    }
  }

  lemma SizeOfPadded(data: seq<Byte>)
    requires 0 < |data| < 3
    ensures |Padded(data)| == 4
  {
  }

  lemma PadsAre()
    ensures Pads(0) == "" && Pads(1) == "=" && Pads(2) == "=="
  {
  }

  lemma {:induction false} GroupSplits(data: seq<Byte>, t: string, n: nat) returns (r: string)
    requires |data| > 2 && Padded(data[3..]) == t + Pads(n) && IsSymbols(t)
    ensures Padded(data) == r + Pads(n) && IsSymbols(r) && |r| == |t| + 4
  {
    var a, b, c := data[0], data[1], data[2];
    Regroup(a, b, c);
    SymbolValue(a / 4);
    SymbolValue(a % 4 * 16 + b / 16);
    SymbolValue(b % 16 * 4 + c / 64);
    SymbolValue(c % 64);
    var four := Padded(data)[..4];
    hide Symbol, Value, Pads;
    r := four + t;
    assert Padded(data) == four + Padded(data[3..]);
    assert IsSymbols(four);
    hide Padded;
    assert four + (t + Pads(n)) == r + Pads(n);
    assert forall i :: 0 <= i < |r| ==> r[i] == if i < 4 then four[i] else t[i - 4];
  }

  lemma {:induction false} PadsEnd(n: nat)
    ensures n > 0 ==> Pads(n) == Pads(n - 1) + "="
  {
    if n > 1 { PadsEnd(n - 1); }
  }

  lemma OnePadOff(s: string)
    ensures WithoutPadding(s + "=") == WithoutPadding(s)
  {
    assert (s + "=")[..|s|] == s;
  }

  lemma NoPadOff(t: string)
    requires IsSymbols(t)
    ensures WithoutPadding(t) == t
  {
    assert t != [] ==> IsSymbol(t[|t| - 1]);
  }

  lemma {:induction false} PaddingComesOff(t: string, n: nat)
    requires IsSymbols(t)
    ensures WithoutPadding(t + Pads(n)) == t
  {
    if n == 0 {
      NoPadOff(t);
      assert t + Pads(0) == t;
    } else {
      PadsEnd(n);
      PaddingComesOff(t, n - 1);
      OnePadOff(t + Pads(n - 1));
      hide WithoutPadding, Pads, IsSymbols;
      assert t + Pads(n) == t + Pads(n - 1) + "=";
    }
  }

  lemma Missing(k: nat, n: nat)
    requires n <= 2 && (k + n) % 4 == 0
    ensures n == (4 - k % 4) % 4
  {
  }

  lemma {:induction false} EncodeRepads(data: seq<Byte>)
    ensures IsSymbols(Encode(data)) && Encode(data) + Pads((4 - |Encode(data)| % 4) % 4) == Padded(data)
  {
    var t, n := PaddedSplits(data);
    PaddingComesOff(t, n);
    hide Padded, Pads, Symbol, WithoutPadding, IsSymbols;
    Missing(|t|, n);
  }

  /** Decoding undoes encoding on all byte strings, and the encoding has no dot in it. */
  lemma {:induction false} DecodeUndoesEncode(data: seq<Byte>)
    ensures Decode(Encode(data)) == Some(data) && IsSymbols(Encode(data))
  {
    EncodeRepads(data);
    DecodePadded(data);
    hide Padded, Pads, Decoded, Encode, Value;
    assert forall i :: 0 <= i < |Encode(data)| ==> IsSymbol(Encode(data)[i]);
  }

  // ----- Tokens -----

  /** What the payload carries; a missing field is `None`. */
  datatype Claims = Claims(sub: Option<string>, role: Option<string>, iat: Option<int>, exp: Option<int>)

  /** Serialisation, parsing and signing with the secret key, and the header and lifetime in use. */
  datatype Codec = Codec(dumps: Claims -> seq<Byte>, loads: seq<Byte> -> Option<Claims>, sign: string -> seq<Byte>,
      header: seq<Byte>, ttl: int)

  datatype Error = MalformedToken | MalformedSignature | BadSignature | BadPayload | Expired

  datatype Outcome = Accepted(claims: Claims) | Rejected(error: Error)

  /** The claims of a token made at `now`; a lifetime of none or zero is the configured one. */
  function ClaimsAt(c: Codec, user: string, role: string, ttl: Option<int>, now: int): Claims {
    var life := if ttl.None? || ttl.value == 0 then c.ttl else ttl.value;
    Claims(Some(user), Some(role), Some(now), Some(now + life))
  }

  function CreateAccessToken(c: Codec, user: string, role: string, ttl: Option<int>, now: int): string {
    var input := Encode(c.header) + "." + Encode(c.dumps(ClaimsAt(c, user, role, ttl, now)));
    input + "." + Encode(c.sign(input))
  }

  function DecodeAccessToken(c: Codec, token: string, now: int): Outcome {
    var parts := Split(token, '.');
    if |parts| != 3 then Rejected(MalformedToken)
    else match Decode(parts[2])
         case None => Rejected(MalformedSignature)
         case Some(sig) =>
           if sig != c.sign(parts[0] + "." + parts[1]) then Rejected(BadSignature)
           else match Decode(parts[1])
                case None => Rejected(BadPayload)
                case Some(data) => Checked(c.loads(data), now)
  }

  function Checked(claims: Option<Claims>, now: int): Outcome {
    match claims
    case None => Rejected(BadPayload)
    case Some(cl) => if (if cl.exp.Some? then cl.exp.value else 0) < now then Rejected(Expired) else Accepted(cl)
  }

  lemma {:induction false} TokenParts(a: seq<Byte>, b: seq<Byte>, s: seq<Byte>)
    ensures Split(Encode(a) + "." + Encode(b) + "." + Encode(s), '.') == [Encode(a), Encode(b), Encode(s)]
  {
    DecodeUndoesEncode(a);
    DecodeUndoesEncode(b);
    DecodeUndoesEncode(s);
    var x, y, z := Encode(a), Encode(b), Encode(s);
    hide Encode, Decode, Value, Split;
    forall i | 0 <= i < |x| ensures x[i] != '.' { assert IsSymbol(x[i]); }
    forall i | 0 <= i < |y| ensures y[i] != '.' { assert IsSymbol(y[i]); }
    forall i | 0 <= i < |z| ensures z[i] != '.' { assert IsSymbol(z[i]); }
    SplitFirst(x, y + "." + z, '.');
    SplitFirst(y, z, '.');
    SplitFree(z, '.');
    assert x + "." + y + "." + z == x + "." + (y + "." + z);
  }

  /** Decoding a token that was created gives its claims back up to and including the second
      it expires, whatever the payload, the key and the header; after that it is expired. */
  lemma {:induction false} DecodeUndoesCreate(c: Codec, user: string, role: string, ttl: Option<int>, made: int,
                                              now: int)
    requires forall claims :: c.loads(c.dumps(claims)) == Some(claims)
    ensures var expiry := made + if ttl.None? || ttl.value == 0 then c.ttl else ttl.value;
            DecodeAccessToken(c, CreateAccessToken(c, user, role, ttl, made), now) ==
            if now <= expiry then Accepted(Claims(Some(user), Some(role), Some(made), Some(expiry)))
                else Rejected(Expired)
  {
    var data := c.dumps(ClaimsAt(c, user, role, ttl, made));
    var input := Encode(c.header) + "." + Encode(data);
    TokenParts(c.header, data, c.sign(input));
    DecodeUndoesEncode(data);
    DecodeUndoesEncode(c.sign(input));
    hide Encode, Decode, Split;
  }

  lemma JoinedThree(parts: seq<string>)
    requires |parts| == 3
    ensures Join(parts, '.') == parts[0] + "." + parts[1] + "." + parts[2]
  {
    assert Join(parts[1..], '.') == parts[1] + "." + Join(parts[1..][1..], '.');
    assert Join(parts[1..][1..], '.') == parts[2];
    assert parts[0] + "." + (parts[1] + "." + parts[2]) == parts[0] + "." + parts[1] + "." + parts[2];
  }

  /** Only what the key signed is accepted: the signature of everything before the last dot
      is what follows it, decoded, and the claims are those of the signed text, not expired. */
  lemma {:induction false} AcceptedWasSigned(c: Codec, token: string, now: int)
                                             returns (header: string, payload: string, sig: string)
    requires DecodeAccessToken(c, token, now).Accepted?
    ensures token == header + "." + payload + "." + sig
    ensures Decode(sig) == Some(c.sign(header + "." + payload))
    ensures var claims := DecodeAccessToken(c, token, now).claims;
            && Decode(payload).Some? && c.loads(Decode(payload).value) == Some(claims)
            && now <= if claims.exp.Some? then claims.exp.value else 0
  {
    var parts := Split(token, '.');
    SplitJoins(token, '.');
    JoinedThree(parts);
    hide Split, Decode, Join;
    header, payload, sig := parts[0], parts[1], parts[2];
  }
}
