/** Encodings and tokens, said symbol by symbol. */
module TokenForms {
  import opened Options
  import opened Text
  import opened Token

  // ----- The alphabet -----

  type Sextet = x: int | 0 <= x < 64

  /** `c` stands for `v` in the URL-safe alphabet. */
  ghost predicate IsSymbolOf(c: char, v: int) {
    || ('A' <= c <= 'Z' && v == c as int - 'A' as int)
    || ('a' <= c <= 'z' && v == c as int - 'a' as int + 26)
    || ('0' <= c <= '9' && v == c as int - '0' as int + 52)
    || (c == '-' && v == 62)
    || (c == '_' && v == 63)
  }

  /** The text is that of these values, symbol by symbol. */
  ghost predicate Writes(s: string, values: seq<int>) {
    |s| == |values| && forall i :: 0 <= i < |s| ==> IsSymbolOf(s[i], values[i])
  }

  /** What is neither in the alphabet nor `+`, `/` or padding. */
  ghost predicate IsForeign(c: char) {
    !('A' <= c <= 'Z' || 'a' <= c <= 'z' || '0' <= c <= '9' || c in {'-', '_', '+', '/', '='})
  }

  lemma {:induction false} AlphabetWritten(v: Sextet)
    ensures IsSymbolOf(Symbol(v), v)
  {
  }

  lemma {:induction false} SymbolOf(c: char, v: int)
    requires IsSymbolOf(c, v)
    ensures 0 <= v < 64 && Symbol(v) == c && Value(c) == Some(v) && c != '='
  {
    AlphabetWritten(v);
  }

  // ----- Encoding -----

  lemma {:induction false} SplitsOff(data: seq<Byte>, four: string, rest: seq<Byte>)
    requires |data| >= 3 && data[3..] == rest && four == Padded(data)[..4]
    ensures Encode(data) == four + Encode(rest)
  {
    var a, b, c := data[0], data[1], data[2];
    EncodeRepads(rest);
    Regroup(a, b, c);
    SymbolValue(a / 4);
    SymbolValue(a % 4 * 16 + b / 16);
    SymbolValue(b % 16 * 4 + c / 64);
    SymbolValue(c % 64);
    var e, n := Encode(rest), (4 - |Encode(rest)| % 4) % 4;
    assert Padded(data) == four + Padded(rest);
    hide Pads, Symbol, Value;
    assert IsSymbols(four);
    assert IsSymbols(four + e);
    hide Padded, WithoutPadding, IsSymbols;
    assert four + (e + Pads(n)) == (four + e) + Pads(n);
    PaddingComesOff(four + e, n);
  }

  /** Three bytes are four symbols of six bits each, the first byte in the highest bits. */
  lemma {:induction false} ThreeBytes(a: Byte, b: Byte, c: Byte, rest: seq<Byte>)
                                      returns (four: string, v0: int, v1: int, v2: int, v3: int)
    ensures Writes(four, [v0, v1, v2, v3]) && v0 * 262144 + v1 * 4096 + v2 * 64 + v3 == a * 65536 + b * 256 + c
    ensures Encode([a, b, c] + rest) == four + Encode(rest)
  {
    Regroup(a, b, c);
    var data := [a, b, c] + rest;
    v0, v1, v2, v3 := a / 4, a % 4 * 16 + b / 16, b % 16 * 4 + c / 64, c % 64;
    four := Padded(data)[..4];
    assert four == [Symbol(v0), Symbol(v1), Symbol(v2), Symbol(v3)];
    hide Padded, Symbol, Encode;
    SplitsOff(data, four, rest);
    AlphabetWritten(v0);
    AlphabetWritten(v1);
    AlphabetWritten(v2);
    AlphabetWritten(v3);
    hide IsSymbolOf;
  }

  /** One byte at the end is two symbols, two bytes are three; the bits left over are zero. */
  lemma {:induction false} LastBytes(a: Byte, b: Byte) returns (u0: int, u1: int, v0: int, v1: int, v2: int)
    ensures Encode([]) == ""
    ensures u0 * 64 + u1 == a * 16 && Writes(Encode([a]), [u0, u1])
    ensures v0 * 4096 + v1 * 64 + v2 == (a * 256 + b) * 4 && Writes(Encode([a, b]), [v0, v1, v2])
  {
    u0, u1 := a / 4, a % 4 * 16;
    v0, v1, v2 := a / 4, a % 4 * 16 + b / 16, b % 16 * 4;
    OneByte(a);
    TwoBytes(a, b);
    hide Symbol, Encode;
    AlphabetWritten(u0);
    AlphabetWritten(u1);
    AlphabetWritten(v0);
    AlphabetWritten(v1);
    AlphabetWritten(v2);
    EncodeNothing();
    hide IsSymbolOf;
  }

  lemma EncodeNothing()
    ensures Encode([]) == ""
  {
  }

  lemma {:induction false} OneByte(a: Byte)
    ensures Encode([a]) == [Symbol(a / 4), Symbol(a % 4 * 16)]
  {
    OneSplits([a]);
    var t := Padded([a])[..2];
    assert t == [Symbol(a / 4), Symbol(a % 4 * 16)];
    hide Padded, Pads, IsSymbols, Symbol, WithoutPadding;
    PaddingComesOff(t, 2);
  }

  lemma {:induction false} TwoBytes(a: Byte, b: Byte)
    ensures Encode([a, b]) == [Symbol(a / 4), Symbol(a % 4 * 16 + b / 16), Symbol(b % 16 * 4)]
  {
    TwoSplits([a, b]);
    var t := Padded([a, b])[..3];
    assert t == [Symbol(a / 4), Symbol(a % 4 * 16 + b / 16), Symbol(b % 16 * 4)];
    hide Padded, Pads, IsSymbols, Symbol, WithoutPadding;
    PaddingComesOff(t, 1);
  }

  // ----- Decoding -----

  /** The bytes read from a whole text. */
  ghost function Whole(s: string): Option<seq<Byte>> { Decoded(s, Scan(0, 0, 0)) }

  lemma FourBytes(v0: Sextet, v1: Sextet, v2: Sextet, v3: Sextet)
    ensures (v0 * 4 + v1 / 16) * 65536 + (v1 % 16 * 16 + v2 / 4) * 256 + (v2 % 4 * 64 + v3) ==
            v0 * 262144 + v1 * 4096 + v2 * 64 + v3
  {
  }

  /** Four symbols are three bytes, and what follows is read as if it stood alone. */
  lemma {:induction false} FourSymbols(four: string, v0: int, v1: int, v2: int, v3: int, rest: string)
                                       returns (a: Byte, b: Byte, c: Byte)
    requires Writes(four, [v0, v1, v2, v3])
    ensures a * 65536 + b * 256 + c == v0 * 262144 + v1 * 4096 + v2 * 64 + v3
    ensures Whole(four + rest) == match Whole(rest) case None => None case Some(x) => Some([a, b, c] + x)
  {
    SymbolOf(four[0], v0);
    SymbolOf(four[1], v1);
    SymbolOf(four[2], v2);
    SymbolOf(four[3], v3);
    a, b, c := v0 * 4 + v1 / 16, v1 % 16 * 16 + v2 / 4, v2 % 4 * 64 + v3;
    FourBytes(v0, v1, v2, v3);
    hide Decoded, Symbol, Value, IsSymbolOf;
    var s := four + rest;
    assert s[4..] == rest;
    DecodeFour(s, v0, v1, v2, v3);
  }

  /** A group that padding cuts short is one byte or two, without the bits left over, and ends
      the text. */
  lemma {:induction false} ShortGroups(s: string, v0: int, v1: int, v2: int, rest: string) returns (a: Byte, b: Byte)
    requires Writes(s, [v0, v1, v2])
    ensures a == (v0 * 64 + v1) / 16 && Whole(s[..2] + "==" + rest) == Some([a])
    ensures a * 256 + b == (v0 * 4096 + v1 * 64 + v2) / 4 && Whole(s + "=" + rest) == Some([a, b])
    ensures Whole("") == Some([]) && Whole(s[..1]) == Whole(s[..2]) == Whole(s) == Whole(s[..2] + "=") == None
  {
    SymbolOf(s[0], v0);
    SymbolOf(s[1], v1);
    SymbolOf(s[2], v2);
    a, b := v0 * 4 + v1 / 16, v1 % 16 * 16 + v2 / 4;
    ShortBytes(v0, v1, v2);
    CutAfterTwo(s[..2], v0, v1, rest);
    CutAfterThree(s, v0, v1, v2, rest);
    Unfinished(s, v0, v1, v2);
    hide Decoded, IsSymbolOf;
    assert s[..2] + "==" + rest == s[..2] + ("==" + rest);
    assert s + "=" + rest == s + ("=" + rest);
  }

  lemma ShortBytes(v0: Sextet, v1: Sextet, v2: Sextet)
    ensures v0 * 4 + v1 / 16 == (v0 * 64 + v1) / 16
    ensures (v0 * 4 + v1 / 16) * 256 + (v1 % 16 * 16 + v2 / 4) == (v0 * 4096 + v1 * 64 + v2) / 4
  {
  }

  lemma {:induction false} FirstTwo(s: string, v0: int, v1: int)
    requires |s| >= 2 && IsSymbolOf(s[0], v0) && IsSymbolOf(s[1], v1)
    ensures Whole(s) == Then([v0 * 4 + v1 / 16], Decoded(s[2..], Scan(2, v1 % 16, 0)))
  {
    SymbolOf(s[0], v0);
    SymbolOf(s[1], v1);
    hide Symbol, Value, IsSymbolOf, Decoded;
    assert s[1..][1..] == s[2..];
    DecodeSymbol(s, Scan(0, 0, 0), v0);
    DecodeSymbol(s[1..], Scan(1, v0, 0), v1);
    ThenThen([], [v0 * 4 + v1 / 16], Decoded(s[2..], Scan(2, v1 % 16, 0)));
    assert [] + [v0 * 4 + v1 / 16] == [v0 * 4 + v1 / 16];
  }

  lemma {:induction false} Third(s: string, v1: int, v2: int)
    requires s != "" && 0 <= v1 < 64 && IsSymbolOf(s[0], v2)
    ensures Decoded(s, Scan(2, v1 % 16, 0)) == Then([v1 % 16 * 16 + v2 / 4], Decoded(s[1..], Scan(3, v2 % 4, 0)))
  {
    SymbolOf(s[0], v2);
    hide Symbol, Value, IsSymbolOf, Decoded;
    DecodeSymbol(s, Scan(2, v1 % 16, 0), v2);
  }

  lemma {:induction false} CutAfterTwo(s: string, v0: int, v1: int, rest: string)
    requires Writes(s, [v0, v1])
    ensures Whole(s + ("==" + rest)) == Some([v0 * 4 + v1 / 16])
  {
    var t := s + ("==" + rest);
    FirstTwo(t, v0, v1);
    assert t[2..] == "==" + rest;
    var p := "==" + rest;
    assert p[1..] == "=" + rest;
    OnePad(p, Scan(2, v1 % 16, 0));
    DecodeEnd("=" + rest, Scan(2, v1 % 16, 1));
    hide Decoded;
    assert [v0 * 4 + v1 / 16] + [] == [v0 * 4 + v1 / 16];
  }

  lemma OnePad(s: string, st: Scan)
    requires Fits(st) && st.quad == 2 && st.pads == 0 && s != "" && s[0] == '='
    ensures Decoded(s, st) == Decoded(s[1..], Scan(2, st.left, 1))
  {
  }

  lemma {:induction false} CutAfterThree(s: string, v0: int, v1: int, v2: int, rest: string)
    requires Writes(s, [v0, v1, v2])
    ensures Whole(s + ("=" + rest)) == Some([v0 * 4 + v1 / 16, v1 % 16 * 16 + v2 / 4])
  {
    var t := s + ("=" + rest);
    FirstTwo(t, v0, v1);
    Third(t[2..], v1, v2);
    assert t[2..][1..] == "=" + rest;
    DecodeEnd("=" + rest, Scan(3, v2 % 4, 0));
    hide Decoded, IsSymbolOf;
    var x, y: Byte := v0 * 4 + v1 / 16, v1 % 16 * 16 + v2 / 4;
    assert [y] + [] == [y] && [x] + [y] == [x, y];
  }

  lemma {:induction false} Unfinished(s: string, v0: int, v1: int, v2: int)
    requires Writes(s, [v0, v1, v2])
    ensures Whole("") == Some([]) && Whole(s[..1]) == Whole(s[..2]) == Whole(s) == Whole(s[..2] + "=") == None
  {
    FirstTwo(s[..2], v0, v1);
    assert s[..2][2..] == "";
    FirstTwo(s, v0, v1);
    Third(s[2..], v1, v2);
    assert s[2..][1..] == "";
    var p := s[..2] + "=";
    FirstTwo(p, v0, v1);
    assert p[2..] == "=" && "="[1..] == "";
    OnePad("=", Scan(2, v1 % 16, 0));
    SymbolOf(s[0], v0);
    assert s[..1][1..] == "";
    hide IsSymbolOf, Symbol;
    DecodeSymbol(s[..1], Scan(0, 0, 0), v0);
  }

  /** Foreign characters are skipped wherever they stand. */
  lemma {:induction false} ForeignSkipped(s: string, c: char, t: string, st: Scan)
    requires Fits(st) && IsForeign(c)
    ensures Decoded(s + [c] + t, st) == Decoded(s + t, st)
  {
    var x, y := s + [c] + t, s + t;
    if s == "" {
      assert x[1..] == t && y == t;
    } else {
      assert x[1..] == s[1..] + [c] + t && y[1..] == s[1..] + t && x[0] == y[0] == s[0];
      if s[0] == '=' {
        ForeignSkipped(s[1..], c, t, st);
        ForeignSkipped(s[1..], c, t, st.(pads := st.pads + 1));
      } else if Value(s[0]).Some? {
        ForeignSkipped(s[1..], c, t, Next(st, Value(s[0]).value));
      } else {
        ForeignSkipped(s[1..], c, t, st);
      }
    }
  }

  /** The two symbols of the standard alphabet stand for those of the URL-safe one. */
  lemma {:induction false} StandardSymbols(s: string, t: string, st: Scan)
    requires Fits(st)
    ensures Decoded(s + "+" + t, st) == Decoded(s + "-" + t, st) && Decoded(s + "/" + t, st) == Decoded(s + "_" + t, st)
  {
    SameValue(s, '+', '-', t, st);
    SameValue(s, '/', '_', t, st);
  }

  lemma {:induction false} SameValue(s: string, c: char, d: char, t: string, st: Scan)
    requires Fits(st) && Value(c) == Value(d) && c != '=' && d != '='
    ensures Decoded(s + [c] + t, st) == Decoded(s + [d] + t, st)
  {
    var x, y := s + [c] + t, s + [d] + t;
    if s == "" {
      assert x[1..] == t && y[1..] == t;
    } else {
      assert x[1..] == s[1..] + [c] + t && y[1..] == s[1..] + [d] + t && x[0] == y[0] == s[0];
      if s[0] == '=' {
        SameValue(s[1..], c, d, t, st);
        SameValue(s[1..], c, d, t, st.(pads := st.pads + 1));
      } else if Value(s[0]).Some? {
        SameValue(s[1..], c, d, t, Next(st, Value(s[0]).value));
      } else {
        SameValue(s[1..], c, d, t, st);
      }
    }
  }

  /** Padding that does not complete a group is skipped: before the second symbol of a group
      always, after it when a symbol follows. */
  lemma {:induction false} EarlyPadding(s: string, v0: int, v1: int, t: string)
    requires Writes(s, [v0, v1])
    ensures Whole("=" + t) == Whole(t) && Whole(s[..1] + "=" + t) == Whole(s[..1] + t)
    ensures t != "" && (exists v2 :: IsSymbolOf(t[0], v2)) ==> Whole(s + "=" + t) == Whole(s + t)
  {
    assert ("=" + t)[1..] == t;
    SymbolOf(s[0], v0);
    var x, y := s[..1] + "=" + t, s[..1] + t;
    DecodeSymbol(x, Scan(0, 0, 0), v0);
    DecodeSymbol(y, Scan(0, 0, 0), v0);
    assert x[1..] == "=" + t && y[1..] == t;
    assert Decoded("=" + t, Scan(1, v0, 0)) == Decoded(t, Scan(1, v0, 0));
    if t != "" && exists v2 :: IsSymbolOf(t[0], v2) {
      var v2 :| IsSymbolOf(t[0], v2);
      PadBetween(s, v0, v1, v2, t);
    }
  }

  lemma {:induction false} PadBetween(s: string, v0: int, v1: int, v2: int, t: string)
    requires Writes(s, [v0, v1]) && t != "" && IsSymbolOf(t[0], v2)
    ensures Whole(s + "=" + t) == Whole(s + t)
  {
    var x, y := s + "=" + t, s + t;
    FirstTwo(x, v0, v1);
    FirstTwo(y, v0, v1);
    assert x[2..] == "=" + t && y[2..] == t && ("=" + t)[1..] == t;
    SymbolOf(t[0], v2);
    OnePad("=" + t, Scan(2, v1 % 16, 0));
    hide IsSymbolOf, Symbol, Decoded;
    DecodeSymbol(t, Scan(2, v1 % 16, 0), v2);
    DecodeSymbol(t, Scan(2, v1 % 16, 1), v2);
  }

  /** A text is padded to whole groups before it is read, and refused outside ASCII. */
  lemma {:induction false} DecodeWritten(s: string)
    ensures if exists i :: 0 <= i < |s| && s[i] as int > 127 then Decode(s) == None
            else Decode(s) == Whole(s + (if |s| % 4 == 1 then "===" else if |s| % 4 == 2 then "==" else
                                         if |s| % 4 == 3 then "=" else ""))
  {
    PadsAre();
    assert Pads(3) == "===";
    hide Decoded;
  }

  // ----- Tokens -----

  ghost function Dots(s: string): nat { if s == "" then 0 else (if s[0] == '.' then 1 else 0) + Dots(s[1..]) }

  lemma {:induction false} PartsAreDots(s: string)
    ensures |Split(s, '.')| == Dots(s) + 1
  {
    if s != "" { PartsAreDots(s[1..]); }
  }

  /** A token is malformed exactly when it does not have two dots. */
  lemma {:induction false} MalformedExactly(c: Codec, token: string, now: int)
    ensures DecodeAccessToken(c, token, now) == Rejected(MalformedToken) <==> Dots(token) != 2
  {
    PartsAreDots(token);
    hide Split, Decode, Dots;
  }

  /** The verdict on every token with two dots. */
  lemma {:induction false} Verdicts(c: Codec, header: string, payload: string, sig: string, now: int)
    requires forall i :: 0 <= i < |header| ==> header[i] != '.'
    requires forall i :: 0 <= i < |payload| ==> payload[i] != '.'
    requires forall i :: 0 <= i < |sig| ==> sig[i] != '.'
    ensures var v := DecodeAccessToken(c, header + "." + payload + "." + sig, now);
            var signed := c.sign(header + "." + payload);
            && (v == Rejected(MalformedSignature) <==> Decode(sig) == None)
            && (v == Rejected(BadSignature) <==> Decode(sig).Some? && Decode(sig).value != signed)
            && (Decode(sig) == Some(signed) ==>
                  if Decode(payload) == None || c.loads(Decode(payload).value) == None then v == Rejected(BadPayload)
                  else var claims := c.loads(Decode(payload).value).value;
                    if (claims.exp == None && 0 < now) || (claims.exp.Some? && claims.exp.value < now)
                    then v == Rejected(Expired) else v == Accepted(claims))
  {
    SplitFirst(header, payload + "." + sig, '.');
    SplitFirst(payload, sig, '.');
    SplitFree(sig, '.');
    assert header + "." + payload + "." + sig == header + "." + (payload + "." + sig);
    hide Split, Decode;
  }

  /** What a token is made of. */
  lemma {:induction false} TokenWritten(c: Codec, user: string, role: string, ttl: Option<int>, now: int)
    returns (signed: string)
    ensures var life := if ttl.Some? && ttl.value != 0 then ttl.value else c.ttl;
            && signed == Encode(c.header) + "." +
                         Encode(c.dumps(Claims(Some(user), Some(role), Some(now), Some(now + life))))
            && CreateAccessToken(c, user, role, ttl, now) == signed + "." + Encode(c.sign(signed))
  {
    hide Encode;
    signed := Encode(c.header) + "." + Encode(c.dumps(ClaimsAt(c, user, role, ttl, now)));
  }
}
