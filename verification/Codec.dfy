/** Unpadded base64url (section 5 of RFC 4648, padding omitted as section 3.2 allows): profile cursors
  (apps/api/ratereplay_api/import_routes.py) and deletion receipt secrets
  (apps/api/ratereplay_api/deletion_routes.py and apps/web/src/PrivacyControls.tsx). */
module Codec {
  import opened Results

  type Byte = b: int | 0 <= b < 256
  type Bits = v: int | 0 <= v < 64

  // ----- the alphabets -----

  /** The symbol of six bits, in the URL-safe or in the standard alphabet. */
  function Symbol(v: Bits, url: bool): char {
    if v < 26 then 'A' + v as char
    else if v < 52 then 'a' + (v - 26) as char
    else if v < 62 then '0' + (v - 52) as char
    else if v == 62 then (if url then '-' else '+')
    else (if url then '_' else '/')
  }

  /** The decoder maps the URL-safe symbols to the standard ones, so it reads both alphabets. */
  function Value(c: char): Option<Bits> {
    if 'A' <= c <= 'Z' then Some(c as int - 'A' as int)
    else if 'a' <= c <= 'z' then Some(c as int - 'a' as int + 26)
    else if '0' <= c <= '9' then Some(c as int - '0' as int + 52)
    else if c == '-' || c == '+' then Some(62)
    else if c == '_' || c == '/' then Some(63)
    else None
  }

  predicate IsUrlSymbol(c: char) {
    Value(c).Some? && c != '+' && c != '/'
  }

  lemma {:induction false} SymbolIsRead(v: Bits, url: bool)
    ensures Value(Symbol(v, url)) == Some(v) && Symbol(v, url) != '='
    ensures IsUrlSymbol(Symbol(v, true))
  {
  }

  /** A symbol of the URL-safe alphabet is the one its bits are written with. */
  lemma {:induction false} ReadIsSymbol(c: char)
    requires Value(c).Some?
    ensures Symbol(Value(c).value, true) == c <==> IsUrlSymbol(c)
  {
  }

  // the symbols as table 2 of RFC 4648 lists them
  const UPPER := "ABCDEFGHIJKLMNOPQRSTUVWXYZ"
  const LOWER := "abcdefghijklmnopqrstuvwxyz"
  const DIGITS := "0123456789"

  /** The URL-safe alphabet is the letters, the digits, minus and underscore; the standard one ends with
      plus and slash. */
  lemma {:induction false} AlphabetIsListed(v: Bits, url: bool)
    ensures |UPPER| == |LOWER| == 26 && |DIGITS| == 10
    ensures Symbol(v, url) == (UPPER + LOWER + DIGITS + if url then "-_" else "+/")[v]
  {
    hide Symbol;
    UpperAt();
    LowerAt();
    DigitsAt();
    SymbolCases(v, url);
  }

  lemma {:induction false} SymbolCases(v: Bits, url: bool)
    ensures v < 26 ==> Symbol(v, url) == 'A' + v as char
    ensures 26 <= v < 52 ==> Symbol(v, url) == 'a' + (v - 26) as char
    ensures 52 <= v < 62 ==> Symbol(v, url) == '0' + (v - 52) as char
    ensures v >= 62 ==> Symbol(v, url) == (if url then "-_" else "+/")[v - 62]
  {
  }

  lemma {:induction false} UpperAt()
    ensures |UPPER| == 26 && forall v :: 0 <= v < 26 ==> UPPER[v] == 'A' + v as char
  {
  }

  lemma {:induction false} LowerAt()
    ensures |LOWER| == 26 && forall v :: 0 <= v < 26 ==> LOWER[v] == 'a' + v as char
  {
  }

  lemma {:induction false} DigitsAt()
    ensures |DIGITS| == 10 && forall v :: 0 <= v < 10 ==> DIGITS[v] == '0' + v as char
  {
  }

  // ----- encoding -----

  function Quad(a: Byte, b: Byte, c: Byte, url: bool): (q: string)
    ensures |q| == 4
  {
    [Symbol(a / 4, url), Symbol((a % 4) * 16 + b / 16, url), Symbol((b % 16) * 4 + c / 64, url), Symbol(c % 64, url)]
  }

  /** Base64 with padding. */
  function Padded(bytes: seq<Byte>, url: bool): string {
    if bytes == [] then ""
    else if |bytes| == 1 then Quad(bytes[0], 0, 0, url)[..2] + "=="
    else if |bytes| == 2 then Quad(bytes[0], bytes[1], 0, url)[..3] + "="
    else Quad(bytes[0], bytes[1], bytes[2], url) + Padded(bytes[3..], url)
  }

  /** `rstrip("=")`. */
  function Strip(s: string): string {
    if s != [] && s[|s| - 1] == '=' then Strip(s[..|s| - 1]) else s
  }

  function Encode(bytes: seq<Byte>): string {
    Strip(Padded(bytes, true))
  }

  /** Four symbols write the number that three bytes are, most significant first. */
  lemma {:induction false} QuadIsNumber(a: Byte, b: Byte, c: Byte, url: bool)
    ensures exists v: Bits, w: Bits, x: Bits, y: Bits ::
      && Quad(a, b, c, url) == [Symbol(v, url), Symbol(w, url), Symbol(x, url), Symbol(y, url)]
      && 65_536 * a + 256 * b + c == 262_144 * v + 4_096 * w + 64 * x + y
  {
    hide Symbol;
    var v: Bits, w: Bits, x: Bits, y: Bits := a / 4, (a % 4) * 16 + b / 16, (b % 16) * 4 + c / 64, c % 64;
    assert Quad(a, b, c, url) == [Symbol(v, url), Symbol(w, url), Symbol(x, url), Symbol(y, url)];
    assert a == 4 * (a / 4) + a % 4 && b == 16 * (b / 16) + b % 16 && c == 64 * (c / 64) + c % 64;
  }

  // ----- decoding -----

  function Joined(a: Bits, b: Bits, c: Bits, d: Bits): (bytes: seq<Byte>)
    ensures |bytes| == 3
  {
    [a * 4 + b / 16, (b % 16) * 16 + c / 4, (c % 4) * 64 + d]
  }

  /** One group of four symbols; only the last group may be padded. */
  function Group(t: string, final: bool): Option<seq<Byte>>
    requires |t| == 4
  {
    var a, b, c, d := Value(t[0]), Value(t[1]), Value(t[2]), Value(t[3]);
    if a.None? || b.None? then None
    else if final && t[2] == '=' && t[3] == '=' then Some(Joined(a.value, b.value, 0, 0)[..1])
    else if c.None? then None
    else if final && t[3] == '=' then Some(Joined(a.value, b.value, c.value, 0)[..2])
    else if d.None? then None
    else Some(Joined(a.value, b.value, c.value, d.value))
  }

  /** `b64decode(…, altchars=b"-_", validate=True)`. */
  function DecodePadded(t: string): Option<seq<Byte>> {
    if t == "" then Some([])
    else if |t| < 4 then None
    else
      var head := Group(t[..4], |t| == 4);
      var tail := DecodePadded(t[4..]);
      if head.Some? && tail.Some? then Some(head.value + tail.value) else None
  }

  /** The padding that completes a group: minus the length, modulo 4. */
  function Padding(length: nat): string {
    if length % 4 == 0 then "" else if length % 4 == 3 then "=" else if length % 4 == 2 then "==" else "==="
  }

  function Decode(s: string): Option<seq<Byte>> {
    DecodePadded(s + Padding(|s|))
  }

  // ----- round trip -----

  lemma {:induction false} SplitAndJoin(a: Byte, b: Byte, c: Byte)
    ensures Joined(a / 4, (a % 4) * 16 + b / 16, (b % 16) * 4 + c / 64, c % 64) == [a, b, c]
  {
    var x, y := (a % 4) * 16 + b / 16, (b % 16) * 4 + c / 64;
    assert x / 16 == a % 4 && x % 16 == b / 16 && y / 4 == b % 16 && y % 4 == c / 64;
  }

  lemma {:induction false} QuadIsRead(a: Byte, b: Byte, c: Byte, url: bool)
    ensures forall i :: 0 <= i < 4 ==> Value(Quad(a, b, c, url)[i]).Some? && Quad(a, b, c, url)[i] != '='
    ensures var q := Quad(a, b, c, url);
            Joined(Value(q[0]).value, Value(q[1]).value, Value(q[2]).value, Value(q[3]).value) == [a, b, c]
  {
    hide Value, Symbol, Joined;
    SplitAndJoin(a, b, c);
    SymbolIsRead(a / 4, url);
    SymbolIsRead((a % 4) * 16 + b / 16, url);
    SymbolIsRead((b % 16) * 4 + c / 64, url);
    SymbolIsRead(c % 64, url);
  }

  lemma {:induction false} OneGroup(t: string)
    requires |t| == 4
    ensures DecodePadded(t) == Group(t, true)
  {
    hide Group;
    assert t[..4] == t && t[4..] == "";
    assert DecodePadded("") == Some([]);
    if Group(t, true).Some? {
      assert Group(t, true).value + [] == Group(t, true).value;
    }
  }

  lemma {:induction false} OneByteIsRead(a: Byte, url: bool)
    ensures DecodePadded(Quad(a, 0, 0, url)[..2] + "==") == Some([a])
  {
    hide Value, Quad, DecodePadded, Joined;
    var t := Quad(a, 0, 0, url)[..2] + "==";
    ZeroRest(a, 0, url);
    OneGroup(t);
  }

  lemma {:induction false} TwoBytesAreRead(a: Byte, b: Byte, url: bool)
    ensures DecodePadded(Quad(a, b, 0, url)[..3] + "=") == Some([a, b])
  {
    hide Value, Quad, DecodePadded, Joined;
    var t := Quad(a, b, 0, url)[..3] + "=";
    ZeroRest(a, b, url);
    EqualsIsNoSymbol();
    OneGroup(t);
  }

  lemma {:induction false} GroupIsRead(a: Byte, b: Byte, c: Byte, url: bool, rest: string)
    ensures DecodePadded(Quad(a, b, c, url) + rest)
         == if DecodePadded(rest).Some? then Some([a, b, c] + DecodePadded(rest).value) else None
  {
    hide Value, Quad, Joined;
    var t := Quad(a, b, c, url) + rest;
    QuadIsRead(a, b, c, url);
    assert t[..4] == Quad(a, b, c, url) && t[4..] == rest;
  }

  lemma {:induction false} PaddedIsRead(bytes: seq<Byte>, url: bool)
    ensures DecodePadded(Padded(bytes, url)) == Some(bytes)
    ensures |Padded(bytes, url)| % 4 == 0
  {
    hide Quad, DecodePadded;
    if bytes == [] {
      assert DecodePadded("") == Some([]) by {
        NothingIsRead();
      }
    } else if |bytes| == 1 {
      OneByteIsRead(bytes[0], url);
      assert bytes == [bytes[0]];
    } else if |bytes| == 2 {
      TwoBytesAreRead(bytes[0], bytes[1], url);
      assert bytes == [bytes[0], bytes[1]];
    } else {
      GroupIsRead(bytes[0], bytes[1], bytes[2], url, Padded(bytes[3..], url));
      PaddedIsRead(bytes[3..], url);
      assert bytes == [bytes[0], bytes[1], bytes[2]] + bytes[3..];
    }
  }

  lemma {:induction false} NothingIsRead()
    ensures DecodePadded("") == Some([])
  {
  }

  lemma {:induction false} EqualsIsNoSymbol()
    ensures Value('=').None?
  {
  }

  lemma {:induction false} ZeroRest(a: Byte, b: Byte, url: bool)
    ensures var q := Quad(a, b, 0, url);
            Value(q[0]).Some? && Value(q[1]).Some? && Value(q[2]).Some?
            && Joined(Value(q[0]).value, Value(q[1]).value, Value(q[2]).value, 0)[..2] == [a, b]
            && Joined(Value(q[0]).value, Value(q[1]).value, 0, 0)[..1] == [a]
  {
    hide Value, Symbol;
    SymbolIsRead(a / 4, url);
    SymbolIsRead((a % 4) * 16 + b / 16, url);
    SymbolIsRead((b % 16) * 4, url);
  }

  lemma {:induction false} StripAppend(g: string, t: string)
    requires g != [] && g[|g| - 1] != '='
    ensures Strip(g + t) == g + Strip(t)
  {
    if t == [] {
      assert g + t == g;
    } else if t[|t| - 1] == '=' {
      assert (g + t)[..|g + t| - 1] == g + t[..|t| - 1];
      StripAppend(g, t[..|t| - 1]);
    }
  }

  lemma {:induction false} EncodeShort(bytes: seq<Byte>)
    requires 1 <= |bytes| <= 2
    ensures Encode(bytes) == if |bytes| == 1 then Quad(bytes[0], 0, 0, true)[..2]
      else Quad(bytes[0], bytes[1], 0, true)[..3]
  {
    hide Value, Quad, IsUrlSymbol;
    assert "=="[..1] == "=" && "="[..0] == "";
    assert Strip("=") == "" && Strip("==") == "";
    if |bytes| == 1 {
      QuadIsUrl(bytes[0], 0, 0);
      StripAppend(Quad(bytes[0], 0, 0, true)[..2], "==");
    } else {
      QuadIsUrl(bytes[0], bytes[1], 0);
      StripAppend(Quad(bytes[0], bytes[1], 0, true)[..3], "=");
    }
  }

  lemma {:induction false} EncodeLong(bytes: seq<Byte>)
    requires |bytes| >= 3
    ensures Encode(bytes) == Quad(bytes[0], bytes[1], bytes[2], true) + Encode(bytes[3..])
  {
    hide Value, Quad, IsUrlSymbol;
    QuadIsUrl(bytes[0], bytes[1], bytes[2]);
    StripAppend(Quad(bytes[0], bytes[1], bytes[2], true), Padded(bytes[3..], true));
  }

  /** Stripping the padding and completing it again changes nothing. */
  lemma {:induction false} StripIsUndone(bytes: seq<Byte>)
    ensures Encode(bytes) + Padding(|Encode(bytes)|) == Padded(bytes, true)
    ensures |Encode(bytes)| == (4 * |bytes| + 2) / 3
    ensures forall i :: 0 <= i < |Encode(bytes)| ==> IsUrlSymbol(Encode(bytes)[i])
  {
    hide Value, Quad, IsUrlSymbol, Encode;
    if bytes == [] {
      EncodeNothing();
    } else if |bytes| <= 2 {
      EncodeShort(bytes);
      QuadIsUrl(bytes[0], if |bytes| == 2 then bytes[1] else 0, 0);
    } else {
      var g, rest := Quad(bytes[0], bytes[1], bytes[2], true), Encode(bytes[3..]);
      QuadIsUrl(bytes[0], bytes[1], bytes[2]);
      EncodeLong(bytes);
      StripIsUndone(bytes[3..]);
      assert |g + rest| % 4 == |rest| % 4;
      assert Padded(bytes, true) == g + (rest + Padding(|rest|)) == (g + rest) + Padding(|rest|);
    }
  }

  lemma {:induction false} EncodeNothing()
    ensures Encode([]) == ""
  {
  }

  lemma {:induction false} QuadIsUrl(a: Byte, b: Byte, c: Byte)
    ensures var q := Quad(a, b, c, true); |q| == 4 && forall i :: 0 <= i < 4 ==> IsUrlSymbol(q[i]) && q[i] != '='
  {
    hide Value, Symbol, IsUrlSymbol;
    SymbolIsRead(a / 4, true);
    SymbolIsRead((a % 4) * 16 + b / 16, true);
    SymbolIsRead((b % 16) * 4 + c / 64, true);
    SymbolIsRead(c % 64, true);
  }

  /** Encode, strip, complete and decode is the identity on every byte string. */
  lemma {:induction false} RoundTrip(bytes: seq<Byte>)
    ensures Decode(Encode(bytes)) == Some(bytes)
  {
    hide DecodePadded, Padded, Encode;
    StripIsUndone(bytes);
    PaddedIsRead(bytes, true);
  }

  // ----- which strings are encodings -----

  predicate Readable(s: string) {
    forall i :: 0 <= i < |s| ==> Value(s[i]).Some?
  }

  predicate UrlSafe(s: string) {
    forall i :: 0 <= i < |s| ==> IsUrlSymbol(s[i])
  }

  /** The bits of the last symbol that no byte uses are zero. */
  predicate TrailingZero(s: string) {
    Readable(s) && (|s| % 4 == 2 ==> Value(s[|s| - 1]).value % 16 == 0)
      && (|s| % 4 == 3 ==> Value(s[|s| - 1]).value % 4 == 0)
  }

  lemma {:induction false} ReadableGroup(t: string)
    requires |t| == 4 && Readable(t)
    ensures Group(t, true) == Group(t, false)
         == Some(Joined(Value(t[0]).value, Value(t[1]).value, Value(t[2]).value, Value(t[3]).value))
  {
    hide Value, Joined;
    EqualsIsNoSymbol();
    assert t[2] != '=' && t[3] != '=';
  }

  lemma {:induction false} DecodeLong(s: string)
    requires |s| >= 4 && Readable(s[..4])
    ensures Decode(s) == if Decode(s[4..]).Some? then Some(Group(s[..4], false).value + Decode(s[4..]).value) else None
    ensures Group(s[..4], false).Some?
  {
    hide Value, Group;
    var t, rest := s + Padding(|s|), s[4..];
    ReadableGroup(s[..4]);
    assert |rest| % 4 == |s| % 4;
    assert t[..4] == s[..4] && t[4..] == rest + Padding(|rest|);
  }

  /** What a readable string of two or three symbols decodes to. */
  lemma {:induction false} DecodeShort(s: string)
    requires 1 <= |s| <= 3 && Readable(s)
    ensures |s| == 1 ==> Decode(s).None?
    ensures |s| == 2 ==> Decode(s) == Some(Joined(Value(s[0]).value, Value(s[1]).value, 0, 0)[..1])
    ensures |s| == 3 ==> Decode(s) == Some(Joined(Value(s[0]).value, Value(s[1]).value, Value(s[2]).value, 0)[..2])
  {
    hide Value, Joined, DecodePadded;
    EqualsIsNoSymbol();
    OneGroup(s + Padding(|s|));
  }

  lemma {:induction false} ReadableDecodes(s: string)
    requires Readable(s) && |s| % 4 != 1
    ensures Decode(s).Some? && |Decode(s).value| == (3 * |s|) / 4
  {
    hide Value, Joined, Decode;
    if s == "" {
      DecodeNothing();
    } else if |s| < 4 {
      DecodeShort(s);
    } else {
      ReadableGroup(s[..4]);
      DecodeLong(s);
      ReadableDecodes(s[4..]);
    }
  }

  lemma {:induction false} DecodeNothing()
    ensures Decode("") == Some([])
  {
  }

  lemma {:induction false} JoinAndSplit(a: Bits, b: Bits, c: Bits, d: Bits)
    ensures var j := Joined(a, b, c, d);
            && j[0] / 4 == a && (j[0] % 4) * 16 + j[1] / 16 == b
            && (j[1] % 16) * 4 + j[2] / 64 == c && j[2] % 64 == d
  {
    var x, y, z := a * 4 + b / 16, (b % 16) * 16 + c / 4, (c % 4) * 64 + d;
    assert x / 4 == a && x % 4 == b / 16 && y / 16 == b % 16 && y % 16 == c / 4 && z / 64 == c % 4 && z % 64 == d;
  }

  lemma {:induction false} SymbolsDiffer(v: Bits, w: Bits)
    ensures Symbol(v, true) == Symbol(w, true) <==> v == w
  {
    hide Symbol, Value;
    SymbolIsRead(v, true);
    SymbolIsRead(w, true);
  }

  lemma {:induction false} GroupIsRewritten(t: string)
    requires |t| == 4 && UrlSafe(t) && Readable(t)
    ensures var bytes := Joined(Value(t[0]).value, Value(t[1]).value, Value(t[2]).value, Value(t[3]).value);
            Quad(bytes[0], bytes[1], bytes[2], true) == t
  {
    hide Value, Symbol, Joined, IsUrlSymbol;
    JoinAndSplit(Value(t[0]).value, Value(t[1]).value, Value(t[2]).value, Value(t[3]).value);
    ReadIsSymbol(t[0]);
    ReadIsSymbol(t[1]);
    ReadIsSymbol(t[2]);
    ReadIsSymbol(t[3]);
  }

  lemma {:induction false} TwoAreRewritten(s: string)
    requires |s| == 2 && UrlSafe(s) && Readable(s)
    ensures Quad(Joined(Value(s[0]).value, Value(s[1]).value, 0, 0)[0], 0, 0, true)[..2] == s <==>
      Value(s[1]).value % 16 == 0
  {
    hide Value, Symbol, Joined, IsUrlSymbol;
    var b := Value(s[1]).value;
    JoinAndSplit(Value(s[0]).value, b, 0, 0);
    var first := Joined(Value(s[0]).value, b, 0, 0)[0];
    assert (first % 4) * 16 == b - b % 16 by {
      assert Joined(Value(s[0]).value, b, 0, 0)[1] / 16 == b % 16 by {
        SecondByte(Value(s[0]).value, b);
      }
    }
    ReadIsSymbol(s[0]);
    ReadIsSymbol(s[1]);
    SymbolsDiffer(b - b % 16, b);
  }

  lemma {:induction false} SecondByte(a: Bits, b: Bits)
    ensures Joined(a, b, 0, 0)[1] / 16 == b % 16
  {
  }

  lemma {:induction false} ThreeAreRewritten(s: string)
    requires |s| == 3 && UrlSafe(s) && Readable(s)
    ensures var j := Joined(Value(s[0]).value, Value(s[1]).value, Value(s[2]).value, 0);
            Quad(j[0], j[1], 0, true)[..3] == s <==> Value(s[2]).value % 4 == 0
  {
    hide Value, Symbol, Joined, IsUrlSymbol;
    var a, b, c := Value(s[0]).value, Value(s[1]).value, Value(s[2]).value;
    JoinAndSplit(a, b, c, 0);
    ThirdByte(a, b, c);
    ReadIsSymbol(s[0]);
    ReadIsSymbol(s[1]);
    ReadIsSymbol(s[2]);
    SymbolsDiffer(c - c % 4, c);
  }

  lemma {:induction false} ThirdByte(a: Bits, b: Bits, c: Bits)
    ensures (Joined(a, b, c, 0)[1] % 16) * 4 == c - c % 4
  {
  }

  lemma {:induction false} UrlSafeIsReadable(s: string)
    requires UrlSafe(s)
    ensures Readable(s)
  {
  }

  lemma {:induction false} UrlSafeReencodes(s: string)
    requires UrlSafe(s) && Readable(s) && |s| % 4 != 1 && Decode(s).Some?
    ensures Encode(Decode(s).value) == s <==> TrailingZero(s)
  {
    hide Value, Joined, Decode, Encode, IsUrlSymbol, Quad;
    if s == "" {
      DecodeNothing();
      EncodeNothing();
    } else if |s| < 4 {
      DecodeShort(s);
      EncodeShort(Decode(s).value);
      if |s| == 2 {
        TwoAreRewritten(s);
      } else {
        ThreeAreRewritten(s);
      }
    } else {
      ReadableGroup(s[..4]);
      DecodeLong(s);
      UrlSafeReencodes(s[4..]);
      GroupIsRewritten(s[..4]);
      var bytes := Decode(s).value;
      assert bytes[3..] == Decode(s[4..]).value;
      EncodeLong(bytes);
      assert s == s[..4] + s[4..];
      assert Encode(bytes)[4..] == Encode(bytes[3..]) && Encode(bytes)[..4] == s[..4];
    }
  }

  /** A string that decodes is the encoding of what it decodes to exactly when it uses only the URL-safe
      alphabet and leaves the unused bits of its last symbol zero. */
  lemma {:induction false} ReencodesExactly(s: string)
    requires Decode(s).Some?
    ensures Encode(Decode(s).value) == s <==> UrlSafe(s) && TrailingZero(s)
  {
    hide Decode, Encode, TrailingZero, Value, IsUrlSymbol;
    StripIsUndone(Decode(s).value);
    if UrlSafe(s) {
      UrlSafeIsReadable(s);
      if |s| % 4 == 1 {
        OddReadable(s);
      } else {
        UrlSafeReencodes(s);
      }
    }
  }

  /** One symbol too many is never decoded. */
  lemma {:induction false} OddReadable(s: string)
    requires Readable(s) && |s| % 4 == 1
    ensures Decode(s).None?
  {
    hide Value, Decode, Joined;
    if |s| < 4 {
      DecodeShort(s);
    } else {
      DecodeLong(s);
      OddReadable(s[4..]);
    }
  }

  /** Decoding is not one-to-one: the last symbol of "QQ" and of "QR" hold the same two bits. */
  lemma {:induction false} TwoStringsOneByte()
    ensures Decode("QQ") == Decode("QR") == Some([65])
  {
    DecodeShort("QQ");
    DecodeShort("QR");
    assert Value('Q') == Some(16) && Value('R') == Some(17);
    assert Joined(16, 16, 0, 0)[..1] == [65] && Joined(16, 17, 0, 0)[..1] == [65];
  }

  // ----- receipt secrets -----

  const SECRET_LENGTH := 32
  const SECRET_SYMBOLS := 43

  /** `isReceiptSecret`, in the browser. */
  predicate IsReceiptSecret(s: string) {
    |s| == SECRET_SYMBOLS && UrlSafe(s)
  }

  /** `_receipt_secret`, on the server. */
  function ReceiptSecret(value: Option<string>): Option<seq<Byte>> {
    if value.None? || |value.value| != SECRET_SYMBOLS then None else
    var decoded := DecodePadded(value.value + "=");
    if decoded.Some? && |decoded.value| == SECRET_LENGTH then decoded else None
  }

  function Replaced(s: string): (r: string)
    ensures |r| == |s|
  {
    seq(|s|, i requires 0 <= i < |s| => if s[i] == '+' then '-' else if s[i] == '/' then '_' else s[i])
  }

  /** `randomReceiptSecret`: standard base64, then the two symbols replaced, then the padding removed. */
  function BrowserSecret(bytes: seq<Byte>): string {
    Strip(Replaced(Padded(bytes, false)))
  }

  lemma {:induction false} SymbolIsReplaced(v: Bits)
    ensures Replaced([Symbol(v, false)]) == [Symbol(v, true)]
  {
  }

  lemma {:induction false} ReplacedAppend(a: string, b: string)
    ensures Replaced(a + b) == Replaced(a) + Replaced(b)
  {
  }

  lemma {:induction false} QuadIsReplaced(a: Byte, b: Byte, c: Byte, k: nat)
    requires k <= 4
    ensures Replaced(Quad(a, b, c, false)[..k]) == Quad(a, b, c, true)[..k]
  {
    hide Symbol;
    SymbolIsReplaced(a / 4);
    SymbolIsReplaced((a % 4) * 16 + b / 16);
    SymbolIsReplaced((b % 16) * 4 + c / 64);
    SymbolIsReplaced(c % 64);
    var q, r := Quad(a, b, c, false), Quad(a, b, c, true);
    forall i | 0 <= i < 4
      ensures Replaced(q)[i] == r[i]
    {
      assert Replaced([q[i]])[0] == r[i];
    }
  }

  lemma {:induction false} ReplacedIsUrl(bytes: seq<Byte>)
    ensures Replaced(Padded(bytes, false)) == Padded(bytes, true)
  {
    hide Quad, Replaced;
    if bytes == [] {
      ReplacedNothing();
    } else if |bytes| == 1 {
      QuadIsReplaced(bytes[0], 0, 0, 2);
      ReplacedAppend(Quad(bytes[0], 0, 0, false)[..2], "==");
      ReplacedNothing();
    } else if |bytes| == 2 {
      QuadIsReplaced(bytes[0], bytes[1], 0, 3);
      ReplacedAppend(Quad(bytes[0], bytes[1], 0, false)[..3], "=");
      ReplacedNothing();
    } else {
      var q := Quad(bytes[0], bytes[1], bytes[2], false);
      QuadIsReplaced(bytes[0], bytes[1], bytes[2], 4);
      assert q[..4] == q && Quad(bytes[0], bytes[1], bytes[2], true)[..4] == Quad(bytes[0], bytes[1], bytes[2], true);
      ReplacedAppend(q, Padded(bytes[3..], false));
      ReplacedIsUrl(bytes[3..]);
    }
  }

  lemma {:induction false} ReplacedNothing()
    ensures Replaced("") == "" && Replaced("=") == "=" && Replaced("==") == "=="
  {
  }

  /** The padding symbols at the end of a text. */
  function Pads(t: string): nat {
    if t == "" || t[|t| - 1] != '=' then 0 else if |t| >= 2 && t[|t| - 2] == '=' then 2 else 1
  }

  lemma {:induction false} GroupShape(t: string, final: bool)
    requires |t| == 4 && Group(t, final).Some?
    ensures !final ==> |Group(t, final).value| == 3 && Readable(t)
    ensures final ==> |Group(t, final).value| == 3 - Pads(t) && Readable(t[..4 - Pads(t)])
  {
    hide Value, Joined;
    EqualsIsNoSymbol();
  }

  lemma {:induction false} PadsOfTail(t: string)
    requires |t| >= 6
    ensures Pads(t) == Pads(t[4..])
  {
    assert t[4..][|t| - 5] == t[|t| - 1] && t[4..][|t| - 6] == t[|t| - 2];
  }

  /** Three bytes for every group, less the padding. */
  lemma {:induction false} DecodedLength(t: string)
    requires DecodePadded(t).Some?
    ensures |t| % 4 == 0 && Pads(t) <= |t| && |DecodePadded(t).value| == (|t| / 4) * 3 - Pads(t)
  {
    hide Value, Group;
    if t != "" {
      GroupShape(t[..4], |t| == 4);
      if |t| == 4 {
        assert t[..4] == t && t[4..] == "";
      } else {
        hide Pads;
        DecodedLength(t[4..]);
        PadsOfTail(t);
      }
    }
  }

  /** Every symbol before the padding is readable. */
  lemma {:induction false} DecodedIsReadable(t: string)
    requires DecodePadded(t).Some? && Pads(t) <= |t|
    ensures Readable(t[..|t| - Pads(t)])
  {
    hide Value, Group;
    if t != "" {
      GroupShape(t[..4], |t| == 4);
      if |t| == 4 {
        assert t[..4] == t;
      } else {
        hide Pads;
        DecodedLength(t[4..]);
        PadsOfTail(t);
        DecodedIsReadable(t[4..]);
        assert t[..|t| - Pads(t)] == t[..4] + t[4..][..|t[4..]| - Pads(t)];
      }
    }
  }

  /** The server accepts exactly the strings of 43 symbols it can read, in either alphabet. */
  lemma {:induction false} ReceiptAcceptedExactly(s: string)
    ensures ReceiptSecret(Some(s)).Some? <==> |s| == SECRET_SYMBOLS && Readable(s)
  {
    hide DecodePadded, Value;
    if |s| == SECRET_SYMBOLS {
      var t := s + "=";
      assert t[..SECRET_SYMBOLS] == s;
      if Readable(s) {
        ReadableDecodes(s);
      } else if DecodePadded(t).Some? {
        DecodedLength(t);
        DecodedIsReadable(t);
      }
    }
  }

  /** What the browser recognises is what the server accepts in the URL-safe alphabet. */
  lemma {:induction false} RecognisedExactly(s: string)
    ensures IsReceiptSecret(s) <==> ReceiptSecret(Some(s)).Some? && UrlSafe(s)
  {
    hide ReceiptSecret, Value;
    ReceiptAcceptedExactly(s);
    if UrlSafe(s) {
      UrlSafeIsReadable(s);
    }
  }

  /** Every secret of 32 bytes leaves the browser as 43 symbols that the browser recognises and the
      server decodes to the same bytes. */
  lemma {:induction false} SecretArrives(bytes: seq<Byte>)
    requires |bytes| == SECRET_LENGTH
    ensures IsReceiptSecret(BrowserSecret(bytes)) && ReceiptSecret(Some(BrowserSecret(bytes))) == Some(bytes)
  {
    hide Replaced, DecodePadded, Padded, IsUrlSymbol;
    ReplacedIsUrl(bytes);
    StripIsUndone(bytes);
    RoundTrip(bytes);
  }

  // ----- profile cursors -----

  const PROFILE_ID_LENGTH := 32

  /** What a cursor carries: the creation time and the id of the last profile of a page. */
  datatype CursorKey = CursorKey(createdAt: int, profileId: string)

  /** `_encode_profile_cursor`: the payload and its signature. Writing the payload as JSON is a parameter. */
  function EncodeCursor(mac: seq<Byte> -> seq<Byte>, write: CursorKey -> seq<Byte>, key: CursorKey): string {
    Encode(write(key) + mac(write(key)))
  }

  /** The payload of a cursor: the last 32 bytes must sign the others. */
  function SignedPayload(mac: seq<Byte> -> seq<Byte>, cursor: string): Option<seq<Byte>> {
    var decoded := Decode(cursor);
    if decoded.None? then None else
    var cut := if |decoded.value| >= SECRET_LENGTH then |decoded.value| - SECRET_LENGTH else 0;
    var payload, signature := decoded.value[..cut], decoded.value[cut..];
    if signature == mac(payload) then Some(payload) else None
  }

  /** `_decode_profile_cursor`: a signed payload that reads as a time and an id of 32 characters. Reading the
      JSON, with the time and the id it holds, is a parameter. */
  function DecodeCursor(mac: seq<Byte> -> seq<Byte>, read: seq<Byte> -> Option<CursorKey>, cursor: string)
    : Option<CursorKey>
  {
    var payload := SignedPayload(mac, cursor);
    if payload.None? then None else
    var key := read(payload.value);
    if key.Some? && |key.value.profileId| == PROFILE_ID_LENGTH then key else None
  }

  lemma {:induction false} SignedExactly(mac: seq<Byte> -> seq<Byte>, cursor: string, payload: seq<Byte>)
    requires forall p :: |mac(p)| == SECRET_LENGTH
    ensures SignedPayload(mac, cursor) == Some(payload) <==> Decode(cursor) == Some(payload + mac(payload))
  {
    hide Decode;
    var both := payload + mac(payload);
    if Decode(cursor).Some? {
      var d := Decode(cursor).value;
      var cut := if |d| >= SECRET_LENGTH then |d| - SECRET_LENGTH else 0;
      assert d == d[..cut] + d[cut..];
    }
    assert both[..|both| - SECRET_LENGTH] == payload && both[|both| - SECRET_LENGTH..] == mac(payload);
  }

  /** A cursor is accepted exactly when it decodes to a payload followed by its signature and the payload
      reads as a key with a 32-character id, and then that key comes back. */
  lemma {:induction false} CursorIsExact(
      mac: seq<Byte> -> seq<Byte>, read: seq<Byte> -> Option<CursorKey>, cursor: string, key: CursorKey)
    requires forall p :: |mac(p)| == SECRET_LENGTH
    ensures DecodeCursor(mac, read, cursor) == Some(key) <==>
            && |key.profileId| == PROFILE_ID_LENGTH
            && exists payload :: read(payload) == Some(key) && Decode(cursor) == Some(payload + mac(payload))
  {
    hide Decode;
    var found := SignedPayload(mac, cursor);
    if found.Some? {
      SignedExactly(mac, cursor, found.value);
    }
    if payload :| read(payload) == Some(key) && Decode(cursor) == Some(payload + mac(payload)) {
      SignedExactly(mac, cursor, payload);
    }
  }

  /** A cursor the server wrote for a profile is read as written. */
  lemma {:induction false} CursorRoundTrip(
      mac: seq<Byte> -> seq<Byte>, write: CursorKey -> seq<Byte>, read: seq<Byte> -> Option<CursorKey>, key: CursorKey)
    requires (forall p :: |mac(p)| == SECRET_LENGTH) && read(write(key)) == Some(key)
    requires |key.profileId| == PROFILE_ID_LENGTH
    ensures DecodeCursor(mac, read, EncodeCursor(mac, write, key)) == Some(key)
  {
    hide Decode, Encode;
    RoundTrip(write(key) + mac(write(key)));
    SignedExactly(mac, EncodeCursor(mac, write, key), write(key));
  }
}
