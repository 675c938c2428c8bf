/**
  The packing of captured credentials: text to UTF-8, base64 (section 4 of RFC 4648), the URL alphabet
  (section 5) and no padding (section 3.2); and the way back.

  Texts are sequences of UTF-16 code units, as in the extension's language; UTF-8 is that of section 3 of
  RFC 3629. The detour over percent-escapes is taken as one step each way, from text to bytes and back.
*/
module Bundle {

  import opened Wrappers

  type Text = seq<int>
  type Bytes = seq<int>

  predicate IsUnit(u: int) { 0 <= u < 0x1_0000 }
  predicate IsHigh(u: int) { 0xD800 <= u < 0xDC00 }
  predicate IsLow(u: int) { 0xDC00 <= u < 0xE000 }
  predicate IsByte(b: int) { 0 <= b < 256 }

  /** Unicode scalar values: code points that are not surrogates. */
  predicate IsScalar(c: int) {
    0 <= c < 0xD800 || 0xE000 <= c < 0x11_0000
  }

  ghost predicate AreUnits(t: Text) { forall i :: 0 <= i < |t| ==> IsUnit(t[i]) }
  ghost predicate AreScalars(s: seq<int>) { forall i :: 0 <= i < |s| ==> IsScalar(s[i]) }
  ghost predicate AreBytes(b: Bytes) { forall i :: 0 <= i < |b| ==> IsByte(b[i]) }

  /******* UTF-16 *******/

  /** A surrogate that is not part of a pair has no scalar value. */
  function Scalars(t: Text): Option<seq<int>> {
    if t == [] then Some([])
    else if IsHigh(t[0]) && |t| > 1 && IsLow(t[1]) then
      match Scalars(t[2..])
      case None => None
      case Some(rest) => Some([0x1_0000 + (t[0] - 0xD800) * 0x400 + (t[1] - 0xDC00)] + rest)
    else if IsHigh(t[0]) || IsLow(t[0]) then None
    else
      match Scalars(t[1..])
      case None => None
      case Some(rest) => Some([t[0]] + rest)
  }

  function UnitsOf(c: int): Text {
    if c < 0x1_0000 then [c] else [0xD800 + (c - 0x1_0000) / 0x400, 0xDC00 + (c - 0x1_0000) % 0x400]
  }

  function Units(s: seq<int>): Text {
    if s == [] then [] else UnitsOf(s[0]) + Units(s[1..])
  }

  lemma {:induction false} ScalarsRoundTrip(t: Text)
    requires AreUnits(t) && Scalars(t).Some?
    ensures AreScalars(Scalars(t).value) && Units(Scalars(t).value) == t
    decreases |t|
  {
    if t != [] {
      var s := Scalars(t).value;
      var n := if IsHigh(t[0]) && |t| > 1 && IsLow(t[1]) then 2 else 1;
      ScalarsRoundTrip(t[n..]);
      assert s[1..] == Scalars(t[n..]).value;
      assert UnitsOf(s[0]) == t[..n];
      assert t == t[..n] + t[n..];
    }
  }

  predicate PairedAt(t: Text, i: int)
    requires 0 <= i < |t|
  {
    && (IsHigh(t[i]) ==> i + 1 < |t| && IsLow(t[i + 1]))
    && (IsLow(t[i]) ==> i > 0 && IsHigh(t[i - 1]))
  }

  /** Surrogates come in pairs only. */
  ghost predicate WellFormed(t: Text) {
    forall i :: 0 <= i < |t| ==> PairedAt(t, i)
  }

  lemma DropWellFormed(t: Text, n: nat)
    requires 0 < n <= |t| && !IsHigh(t[n - 1]) && forall i :: 0 <= i < n ==> PairedAt(t, i)
    ensures WellFormed(t) <==> WellFormed(t[n..])
  {
    forall i | 0 <= i < |t| - n ensures PairedAt(t[n..], i) <==> PairedAt(t, i + n) {
    }
    if WellFormed(t[n..]) {
      forall i | 0 <= i < |t| ensures PairedAt(t, i) {
        assert i >= n ==> PairedAt(t[n..], i - n);
      }
    }
  }

  lemma {:induction false} ScalarsExact(t: Text)
    ensures Scalars(t).Some? <==> WellFormed(t)
    decreases |t|
  {
    if t != [] {
      if IsHigh(t[0]) && |t| > 1 && IsLow(t[1]) {
        DropWellFormed(t, 2);
        ScalarsExact(t[2..]);
      } else if IsHigh(t[0]) || IsLow(t[0]) {
        assert !PairedAt(t, 0);
      } else {
        DropWellFormed(t, 1);
        ScalarsExact(t[1..]);
      }
    }
  }

  /******* UTF-8 *******/

  function Utf8Of(c: int): Bytes {
    if c < 0x80 then [c]
    else if c < 0x800 then [0xC0 + c / 64, 0x80 + c % 64]
    else if c < 0x1_0000 then [0xE0 + c / 4096, 0x80 + c / 64 % 64, 0x80 + c % 64]
    else [0xF0 + c / 262144, 0x80 + c / 4096 % 64, 0x80 + c / 64 % 64, 0x80 + c % 64]
  }

  function Utf8(s: seq<int>): Bytes {
    if s == [] then [] else Utf8Of(s[0]) + Utf8(s[1..])
  }

  predicate IsTail(b: int) { 0x80 <= b < 0xC0 }

  /** The first scalar value and the number of bytes it takes; overlong forms and surrogates are refused. */
  function First(b: Bytes): Option<(int, nat)>
    requires b != []
  {
    if 0 <= b[0] < 0x80 then Some((b[0], 1))
    else if 0xC0 <= b[0] < 0xE0 && |b| > 1 && IsTail(b[1]) then
      var c := (b[0] - 0xC0) * 64 + (b[1] - 0x80);
      if c >= 0x80 then Some((c, 2)) else None
    else if 0xE0 <= b[0] < 0xF0 && |b| > 2 && IsTail(b[1]) && IsTail(b[2]) then
      var c := (b[0] - 0xE0) * 4096 + (b[1] - 0x80) * 64 + (b[2] - 0x80);
      if c >= 0x800 && IsScalar(c) then Some((c, 3)) else None
    else if 0xF0 <= b[0] < 0xF8 && |b| > 3 && IsTail(b[1]) && IsTail(b[2]) && IsTail(b[3]) then
      var c := (b[0] - 0xF0) * 262144 + (b[1] - 0x80) * 4096 + (b[2] - 0x80) * 64 + (b[3] - 0x80);
      if c >= 0x1_0000 && IsScalar(c) then Some((c, 4)) else None
    else None
  }

  lemma FirstFits(b: Bytes)
    requires b != [] && First(b).Some?
    ensures 1 <= First(b).value.1 <= |b|
  {
  }

  function FromUtf8(b: Bytes): Option<seq<int>>
    decreases |b|
  {
    if b == [] then Some([])
    else match First(b)
         case None => None
         case Some((c, n)) =>
           FirstFits(b);
           match FromUtf8(b[n..])
           case None => None
           case Some(rest) => Some([c] + rest)
  }

  lemma FirstUndoesUtf8(c: int, rest: Bytes)
    requires IsScalar(c)
    ensures First(Utf8Of(c) + rest) == Some((c, |Utf8Of(c)|))
    ensures AreBytes(Utf8Of(c)) && Utf8Of(c) != []
  {
    if c >= 0x1_0000 {
      FourUndo(c, rest);
    } else if c >= 0x800 {
      ThreeUndo(c, rest);
    }
  }

  lemma ThreeUndo(c: int, rest: Bytes)
    requires IsScalar(c) && 0x800 <= c < 0x1_0000
    ensures First(Utf8Of(c) + rest) == Some((c, 3)) && AreBytes(Utf8Of(c))
  {
    assert c / 64 == c / 4096 * 64 + c / 64 % 64;
  }

  lemma FourUndo(c: int, rest: Bytes)
    requires IsScalar(c) && 0x1_0000 <= c
    ensures First(Utf8Of(c) + rest) == Some((c, 4)) && AreBytes(Utf8Of(c))
  {
    assert c / 4096 == c / 262144 * 64 + c / 4096 % 64;
    assert c / 64 == c / 4096 * 64 + c / 64 % 64;
  }

  lemma {:induction false} Utf8RoundTrip(s: seq<int>)
    requires AreScalars(s)
    ensures AreBytes(Utf8(s)) && FromUtf8(Utf8(s)) == Some(s)
  {
    if s != [] {
      Utf8RoundTrip(s[1..]);
      FirstUndoesUtf8(s[0], Utf8(s[1..]));
      assert Utf8(s)[|Utf8Of(s[0])|..] == Utf8(s[1..]);
      assert s == [s[0]] + s[1..];
    }
  }

  lemma SixBits(q: int, r: int)
    requires 0 <= r < 64
    ensures (q * 64 + r) / 64 == q && (q * 64 + r) % 64 == r
  {
  }

  lemma TwoDigits(x: int, y: int, z: int)
    requires 0 <= y < 64 && 0 <= z < 64
    ensures var c := x * 4096 + y * 64 + z; c / 4096 == x && c / 64 % 64 == y && c % 64 == z
  {
    SixBits(x * 64 + y, z);
    SixBits(x, y);
  }

  lemma ThreeDigits(x: int, y: int, z: int, w: int)
    requires 0 <= y < 64 && 0 <= z < 64 && 0 <= w < 64
    ensures var c := x * 262144 + y * 4096 + z * 64 + w;
            c / 262144 == x && c / 4096 % 64 == y && c / 64 % 64 == z && c % 64 == w
  {
    TwoDigits(x * 64 + y, z, w);
    SixBits(x, y);
  }

  lemma Utf8OfFirst(b: Bytes)
    requires b != [] && First(b).Some?
    ensures First(b).value.1 <= |b| && IsScalar(First(b).value.0)
    ensures Utf8Of(First(b).value.0) == b[..First(b).value.1]
  {
    match First(b).value.1
    case 1 =>
    case 2 => SixBits(b[0] - 0xC0, b[1] - 0x80);
    case 3 => TwoDigits(b[0] - 0xE0, b[1] - 0x80, b[2] - 0x80);
    case _ => ThreeDigits(b[0] - 0xF0, b[1] - 0x80, b[2] - 0x80, b[3] - 0x80);
  }

  lemma Utf8Cons(c: int, s: seq<int>)
    ensures Utf8([c] + s) == Utf8Of(c) + Utf8(s)
  {
    assert ([c] + s)[1..] == s;
  }

  lemma FromUtf8Cons(b: Bytes)
    requires b != [] && FromUtf8(b).Some?
    ensures First(b).Some? && 1 <= First(b).value.1 <= |b|
    ensures var (c, n) := First(b).value;
            FromUtf8(b[n..]).Some? && FromUtf8(b).value == [c] + FromUtf8(b[n..]).value
  {
    FirstFits(b);
    hide First;
  }

  lemma {:induction false} DecodesToScalars(b: Bytes)
    requires FromUtf8(b).Some?
    ensures AreScalars(FromUtf8(b).value)
    decreases |b|
  {
    if b != [] {
      FromUtf8Cons(b);
      Utf8OfFirst(b);
      hide First, Utf8Of, FromUtf8;
      DecodesToScalars(b[First(b).value.1..]);
    }
  }

  lemma Split(b: Bytes, n: nat)
    requires n <= |b|
    ensures b[..n] + b[n..] == b
  {
  }

  /** Decoding accepts nothing but what encoding produces: the bytes are those of the scalar values. */
  lemma {:induction false} Utf8Canonical(b: Bytes)
    requires FromUtf8(b).Some?
    ensures AreScalars(FromUtf8(b).value) && Utf8(FromUtf8(b).value) == b
    decreases |b|
  {
    DecodesToScalars(b);
    if b != [] {
      FromUtf8Cons(b);
      Utf8OfFirst(b);
      hide *;
      var (c, n) := First(b).value;
      Utf8Canonical(b[n..]);
      Utf8Cons(c, FromUtf8(b[n..]).value);
      Split(b, n);
    }
  }

  /******* Base64 *******/

  /** The alphabet of table 1 of RFC 4648; table 2 differs in the last two. */
  function Symbol(n: int): char
    requires 0 <= n < 64
  {
    if n < 26 then 'A' + n as char
    else if n < 52 then 'a' + (n - 26) as char
    else if n < 62 then '0' + (n - 52) as char
    else if n == 62 then '+'
    else '/'
  }

  function ValueOf(c: char): Option<int> {
    if 'A' <= c <= 'Z' then Some((c - 'A') as int)
    else if 'a' <= c <= 'z' then Some((c - 'a') as int + 26)
    else if '0' <= c <= '9' then Some((c - '0') as int + 52)
    else if c == '+' then Some(62)
    else if c == '/' then Some(63)
    else None
  }

  lemma ValueOfSymbol(n: int)
    requires 0 <= n < 64
    ensures ValueOf(Symbol(n)) == Some(n)
  {
  }

  /** Three bytes as four symbols. */
  function Quad(x: int, y: int, z: int): (r: string)
    requires IsByte(x) && IsByte(y) && IsByte(z)
    ensures |r| == 4
  {
    [Symbol(x / 4), Symbol(x % 4 * 16 + y / 16), Symbol(y % 16 * 4 + z / 64), Symbol(z % 64)]
  }

  /** Groups of three bytes as four symbols; a last group of one or two bytes is filled up with `=`. */
  function Btoa(b: Bytes): string
    requires AreBytes(b)
  {
    if b == [] then ""
    else if |b| == 1 then Quad(b[0], 0, 0)[..2] + "=="
    else if |b| == 2 then Quad(b[0], b[1], 0)[..3] + "="
    else Quad(b[0], b[1], b[2]) + Btoa(b[3..])
  }

  predicate IsSpace(c: char) {
    c == ' ' || c == '\t' || c == '\n' || c == '\r' || c == '\U{000C}'
  }

  function DropSpaces(s: string): string {
    if s == "" then "" else (if IsSpace(s[0]) then "" else [s[0]]) + DropSpaces(s[1..])
  }

  predicate IsSymbol(c: char) {
    ValueOf(c).Some?
  }

  predicate AllSymbols(s: string) {
    forall i :: 0 <= i < |s| ==> IsSymbol(s[i])
  }

  function Values(s: string): (v: seq<int>)
    requires AllSymbols(s)
    ensures |v| == |s| && forall i :: 0 <= i < |s| ==> v[i] == ValueOf(s[i]).value
  {
    seq(|s|, i requires 0 <= i < |s| => ValueOf(s[i]).value)
  }

  /** Four values make three bytes; what is left over after the last whole byte is dropped. */
  function BytesOf(v: seq<int>): Bytes {
    if |v| < 2 then []
    else if |v| == 2 then [v[0] * 4 + v[1] / 16]
    else if |v| == 3 then [v[0] * 4 + v[1] / 16, v[1] % 16 * 16 + v[2] / 4]
    else [v[0] * 4 + v[1] / 16, v[1] % 16 * 16 + v[2] / 4, v[2] % 4 * 64 + v[3]] + BytesOf(v[4..])
  }

  /** Up to two `=` at the end of a text of whole groups. */
  function DropPadding(s: string): string {
    if |s| % 4 != 0 || s == "" || s[|s| - 1] != '=' then s
    else if |s| > 1 && s[|s| - 2] == '=' then s[..|s| - 2]
    else s[..|s| - 1]
  }

  /** The forgiving decoder of the browser: it fails on a lone symbol and on anything outside the alphabet. */
  function Atob(text: string): Option<Bytes> {
    var s := DropPadding(DropSpaces(text));
    if |s| % 4 == 1 || !AllSymbols(s) then None else Some(BytesOf(Values(s)))
  }

  /******* The URL alphabet without padding *******/

  function ReplaceAll(s: string, from: char, to: char): (r: string)
    ensures |r| == |s|
    ensures forall i :: 0 <= i < |s| ==> r[i] == if s[i] == from then to else s[i]
  {
    if s == "" then "" else [if s[0] == from then to else s[0]] + ReplaceAll(s[1..], from, to)
  }

  function ToUrl(s: string): string {
    ReplaceAll(ReplaceAll(s, '+', '-'), '/', '_')
  }

  function FromUrl(s: string): string {
    ReplaceAll(ReplaceAll(s, '-', '+'), '_', '/')
  }

  function StripPadding(s: string): string {
    if s != "" && s[|s| - 1] == '=' then StripPadding(s[..|s| - 1]) else s
  }

  function Fill(n: nat): (r: string)
    ensures |r| == n && forall i :: 0 <= i < n ==> r[i] == '='
  {
    if n == 0 then "" else Fill(n - 1) + "="
  }

  function Repad(s: string): string {
    s + Fill((4 - |s| % 4) % 4)
  }

  /** What is packed; a text with a lone surrogate cannot be. */
  function Pack(t: Text): Option<string>
    requires AreUnits(t)
  {
    match Scalars(t)
    case None => None
    case Some(s) =>
      ScalarsRoundTrip(t);
      Utf8RoundTrip(s);
      Some(PackBytes(Utf8(s)))
  }

  function PackBytes(b: Bytes): string
    requires AreBytes(b)
  {
    StripPadding(ToUrl(Btoa(b)))
  }

  function Unpack(raw: string): Option<Text> {
    match Atob(Repad(FromUrl(raw)))
    case None => None
    case Some(b) =>
      match FromUtf8(b)
      case None => None
      case Some(s) => Some(Units(s))
  }

  /******* Base64 round trip *******/

  /** The encoding without its padding. */
  function Core(b: Bytes): string
    requires AreBytes(b)
  {
    if b == [] then ""
    else if |b| == 1 then Quad(b[0], 0, 0)[..2]
    else if |b| == 2 then Quad(b[0], b[1], 0)[..3]
    else Quad(b[0], b[1], b[2]) + Core(b[3..])
  }

  lemma QuadSymbols(x: int, y: int, z: int)
    requires IsByte(x) && IsByte(y) && IsByte(z)
    ensures AllSymbols(Quad(x, y, z))
  {
    ValueOfSymbol(x / 4);
    ValueOfSymbol(x % 4 * 16 + y / 16);
    ValueOfSymbol(y % 16 * 4 + z / 64);
    ValueOfSymbol(z % 64);
  }

  lemma RepadAfter(quad: string, s: string)
    requires |quad| == 4
    ensures Repad(quad + s) == quad + Repad(s)
  {
    assert |quad + s| % 4 == |s| % 4;
  }

  lemma {:induction false} CorePads(b: Bytes)
    requires AreBytes(b)
    ensures Btoa(b) == Repad(Core(b))
    decreases |b|
  {
    if b == [] {
      assert Fill(0) == "";
    } else if |b| == 1 {
      assert Fill(2) == "==";
    } else if |b| == 2 {
      assert Fill(1) == "=";
    } else {
      CorePads(b[3..]);
      RepadAfter(Quad(b[0], b[1], b[2]), Core(b[3..]));
    }
  }

  /** The four values of a group. */
  function QuadValues(x: int, y: int, z: int): (r: seq<int>)
    ensures |r| == 4
  {
    [x / 4, x % 4 * 16 + y / 16, y % 16 * 4 + z / 64, z % 64]
  }

  /** Four values give back the three bytes they came from. */
  lemma GroupRoundTrip(x: int, y: int, z: int)
    requires IsByte(x) && IsByte(y) && IsByte(z)
    ensures var v := QuadValues(x, y, z);
            v[0] * 4 + v[1] / 16 == x && v[1] % 16 * 16 + v[2] / 4 == y && v[2] % 4 * 64 + v[3] == z
  {
  }

  lemma QuadDecodes(x: int, y: int, z: int)
    requires IsByte(x) && IsByte(y) && IsByte(z)
    ensures AllSymbols(Quad(x, y, z)) && Values(Quad(x, y, z)) == QuadValues(x, y, z)
  {
    var v := QuadValues(x, y, z);
    QuadSymbols(x, y, z);
    ValueOfSymbol(v[0]);
    ValueOfSymbol(v[1]);
    ValueOfSymbol(v[2]);
    ValueOfSymbol(v[3]);
  }

  lemma CoreOne(x: int)
    requires IsByte(x)
    ensures var s := Quad(x, 0, 0)[..2]; AllSymbols(s) && BytesOf(Values(s)) == [x]
  {
    GroupRoundTrip(x, 0, 0);
    QuadDecodes(x, 0, 0);
    var v := QuadValues(x, 0, 0);
    assert Values(Quad(x, 0, 0)[..2]) == [v[0], v[1]];
  }

  lemma CoreTwo(x: int, y: int)
    requires IsByte(x) && IsByte(y)
    ensures var s := Quad(x, y, 0)[..3]; AllSymbols(s) && BytesOf(Values(s)) == [x, y]
  {
    GroupRoundTrip(x, y, 0);
    QuadDecodes(x, y, 0);
    var v := QuadValues(x, y, 0);
    assert Values(Quad(x, y, 0)[..3]) == [v[0], v[1], v[2]];
  }

  /** The values of a text stand for these bytes. */
  ghost predicate StandsFor(s: string, b: Bytes) {
    AllSymbols(s) && BytesOf(Values(s)) == b
  }

  lemma SplitThree(b: Bytes)
    requires |b| > 2
    ensures b == [b[0], b[1], b[2]] + b[3..]
  {
  }

  lemma {:induction false} CoreRoundTrip(b: Bytes)
    requires AreBytes(b)
    ensures StandsFor(Core(b), b)
    decreases |b|
  {
    if b == [] {
    } else if |b| == 1 {
      CoreOne(b[0]);
      assert b == [b[0]];
    } else if |b| == 2 {
      CoreTwo(b[0], b[1]);
      assert b == [b[0], b[1]];
    } else {
      CoreRoundTrip(b[3..]);
      CoreStep(b[0], b[1], b[2], Core(b[3..]));
      SplitThree(b);
    }
  }

  lemma CoreStep(x: int, y: int, z: int, s: string)
    requires IsByte(x) && IsByte(y) && IsByte(z) && AllSymbols(s)
    ensures AllSymbols(Quad(x, y, z) + s)
    ensures BytesOf(Values(Quad(x, y, z) + s)) == [x, y, z] + BytesOf(Values(s))
  {
    GroupRoundTrip(x, y, z);
    QuadDecodes(x, y, z);
    assert Values(Quad(x, y, z) + s) == QuadValues(x, y, z) + Values(s);
    BytesOfConcat(QuadValues(x, y, z), Values(s));
  }

  lemma BytesOfConcat(v: seq<int>, w: seq<int>)
    requires |v| == 4
    ensures BytesOf(v + w) == [v[0] * 4 + v[1] / 16, v[1] % 16 * 16 + v[2] / 4, v[2] % 4 * 64 + v[3]] + BytesOf(w)
  {
    assert (v + w)[4..] == w;
  }

  lemma {:induction false} NoSpaces(s: string)
    requires forall i :: 0 <= i < |s| ==> !IsSpace(s[i])
    ensures DropSpaces(s) == s
  {
    if s != "" {
      NoSpaces(s[1..]);
    }
  }

  /** Decoding drops exactly the padding that was put on. */
  lemma DropRepad(s: string)
    requires AllSymbols(s) && |s| % 4 != 1
    ensures DropPadding(DropSpaces(Repad(s))) == s
  {
    NoSpaces(Repad(s));
    if s != "" {
      SymbolIsNoPad(s[|s| - 1]);
    }
    hide IsSymbol;
    Unpad(s, (4 - |s| % 4) % 4);
  }

  lemma SymbolIsNoPad(c: char)
    requires IsSymbol(c)
    ensures c != '='
  {
  }

  lemma Unpad(s: string, n: nat)
    requires n <= 2 && (|s| + n) % 4 == 0 && (s != "" ==> s[|s| - 1] != '=')
    ensures DropPadding(s + Fill(n)) == s
  {
    var r := s + Fill(n);
    assert r[..|s|] == s;
    assert |s| > 0 ==> r[|s| - 1] == s[|s| - 1];
    assert n > 0 ==> |s| > 0;
  }

  lemma AtobUndoesBtoa(b: Bytes)
    requires AreBytes(b)
    ensures Atob(Btoa(b)) == Some(b)
  {
    CorePads(b);
    CoreRoundTrip(b);
    CoreLength(b);
    AtobOfRepad(Core(b));
  }

  lemma {:induction false} CoreLength(b: Bytes)
    requires AreBytes(b)
    ensures |Core(b)| % 4 != 1
    decreases |b|
  {
    hide Quad;
    if |b| > 2 {
      CoreLength(b[3..]);
      assert |Core(b)| == 4 + |Core(b[3..])|;
    }
  }

  lemma AtobOfRepad(s: string)
    requires AllSymbols(s) && |s| % 4 != 1
    ensures Atob(Repad(s)) == Some(BytesOf(Values(s)))
  {
    DropRepad(s);
  }

  /******* The whole way *******/

  lemma {:induction false} StripFill(s: string, n: nat)
    requires s == "" || s[|s| - 1] != '='
    ensures StripPadding(s + Fill(n)) == s
  {
    if n == 0 {
      assert s + Fill(0) == s;
    } else {
      StripFill(s, n - 1);
      assert (s + Fill(n))[..|s| + n - 1] == s + Fill(n - 1);
    }
  }

  /** Stripping the padding of the packed text leaves the core, in the URL alphabet. */
  lemma PackedCore(s: string)
    requires AllSymbols(s)
    ensures StripPadding(ToUrl(Repad(s))) == ToUrl(s)
    ensures FromUrl(ToUrl(s)) == s
    ensures forall i :: 0 <= i < |s| ==> ToUrl(s)[i] != '=' && ToUrl(s)[i] != '+' && ToUrl(s)[i] != '/'
  {
    assert forall i :: 0 <= i < |s| ==> IsSymbol(s[i]) && s[i] != '-' && s[i] != '_' && s[i] != '=';
    assert ToUrl(Repad(s)) == ToUrl(s) + Fill((4 - |s| % 4) % 4);
    StripFill(ToUrl(s), (4 - |s| % 4) % 4);
  }

  /** Only texts with a lone surrogate cannot be packed; every other text comes back unchanged. */
  lemma UnpackUndoesPack(t: Text)
    requires AreUnits(t)
    ensures Pack(t).Some? <==> WellFormed(t)
    ensures Pack(t).Some? ==> Unpack(Pack(t).value) == Some(t)
  {
    ScalarsExact(t);
    match Scalars(t)
    case None =>
    case Some(s) =>
      ScalarsRoundTrip(t);
      Utf8RoundTrip(s);
      var b := Utf8(s);
      CorePads(b);
      CoreRoundTrip(b);
      PackedCore(Core(b));
      AtobUndoesBtoa(b);
  }

  predicate IsUrlSafe(c: char) {
    'A' <= c <= 'Z' || 'a' <= c <= 'z' || '0' <= c <= '9' || c == '-' || c == '_'
  }

  ghost predicate AllUrlSafe(s: string) {
    forall i :: 0 <= i < |s| ==> IsUrlSafe(s[i])
  }

  lemma UrlSafe(s: string)
    requires AllSymbols(s)
    ensures AllUrlSafe(ToUrl(s))
  {
    forall i | 0 <= i < |s| ensures IsUrlSafe(ToUrl(s)[i]) {
      assert IsSymbol(s[i]);
    }
  }

  /** What is packed consists of letters, digits, `-` and `_` only. */
  lemma PackedIsUrlSafe(t: Text)
    requires AreUnits(t) && Pack(t).Some?
    ensures AllUrlSafe(Pack(t).value)
  {
    var s := Scalars(t).value;
    ScalarsRoundTrip(t);
    Utf8RoundTrip(s);
    PackedBytes(Utf8(s));
  }

  lemma PackedBytes(b: Bytes)
    requires AreBytes(b)
    ensures AllUrlSafe(PackBytes(b))
  {
    CorePads(b);
    CoreRoundTrip(b);
    PackedCore(Core(b));
    UrlSafe(Core(b));
  }

  /** Different texts are packed differently. */
  lemma PackInjective(t: Text, u: Text)
    requires AreUnits(t) && AreUnits(u) && Pack(t).Some? && Pack(t) == Pack(u)
    ensures t == u
  {
    UnpackUndoesPack(t);
    UnpackUndoesPack(u);
  }

  /** The other way round is lossy: the unused bits of the last symbol are not looked at. */
  lemma UnpackIgnoresLastBits()
    ensures Atob(Repad(FromUrl("QQ"))) == Some([65]) && Atob(Repad(FromUrl("QR"))) == Some([65])
    ensures Unpack("QQ") == Unpack("QR") == Some([65])
  {
    LastBits('Q', 16);
    LastBits('R', 17);
    Utf8RoundTrip([65]);
    assert Utf8([65]) == [65] && Units([65]) == [65];
  }

  lemma LastBits(c: char, n: int)
    requires ValueOf(c) == Some(n) && c != '-' && c != '_'
    ensures Atob(Repad(FromUrl(['Q', c]))) == Some([64 + n / 16])
  {
    var s := ['Q', c];
    assert FromUrl(s) == s;
    DropRepad(s);
    assert Values(s) == [16, n];
  }
}
