/**
  Subtitle files as bytes: UTF-8 with or without a byte order mark, and UTF-16 in both byte orders
  (sections 2.1 and 2.2 of RFC 2781). Decoding is strict, as in the Rust standard library.
*/
module Encoding {
  import opened Text
  import opened UuCodec

  datatype BomKind = NoBom | Utf8 | Utf16Le | Utf16Be

  // ----- UTF-8 -----

  type scalar = x: int | 0 <= x < 0xD800 || 0xE000 <= x < 0x11_0000

  function Tail(x: int): byte {
    0x80 + x % 64
  }

  function Utf8Char(x: scalar): (b: seq<byte>)
    ensures 1 <= |b| <= 4
  {
    if x < 0x80 then [x]
    else if x < 0x800 then [0xC0 + x / 64, Tail(x)]
    else if x < 0x1_0000 then [0xE0 + x / 64 / 64, Tail(x / 64), Tail(x)]
    else [0xF0 + x / 64 / 64 / 64, Tail(x / 64 / 64), Tail(x / 64), Tail(x)]
  }

  // The number of bytes the first byte announces, or 0 when it starts no character.
  function Length8(b: byte): (n: nat)
    ensures n <= 4
  {
    if b < 0x80 then 1 else if b < 0xC0 then 0 else if b < 0xE0 then 2 else if b < 0xF0 then 3 else if b < 0xF8 then 4 else 0
  }

  // One more six-bit digit.
  function Push(v: int, b: byte): int {
    v * 64 + b % 64
  }

  // The value the bytes of one character spell, whatever it is.
  function Value8(b: seq<byte>): (v: int)
    requires |b| > 0 && |b| == Length8(b[0])
  {
    var first: int := b[0];
    if |b| == 1 then first
    else if |b| == 2 then Push(first - 0xC0, b[1])
    else if |b| == 3 then Push(Push(first - 0xE0, b[1]), b[2])
    else Push(Push(Push(first - 0xF0, b[1]), b[2]), b[3])
  }

  // The least value that needs this many bytes.
  function Least8(n: nat): nat {
    if n <= 1 then 0 else if n == 2 then 0x80 else if n == 3 then 0x800 else 0x1_0000
  }

  predicate IsTail(b: byte) {
    0x80 <= b < 0xC0
  }

  // A well-formed character: continuation bytes, no longer than needed, no surrogate, in range.
  predicate Good8(b: seq<byte>) {
    && |b| > 0 && |b| == Length8(b[0])
    && (forall i :: 1 <= i < |b| ==> IsTail(b[i]))
    && Least8(|b|) <= Value8(b)
    && (Value8(b) < 0xD800 || 0xE000 <= Value8(b) < 0x11_0000)
  }

  lemma PushPop(v: int, b: byte)
    requires IsTail(b)
    ensures Push(v, b) / 64 == v && Tail(Push(v, b)) == b
  {
  }

  lemma PopPush(x: int)
    requires x >= 0
    ensures Push(x / 64, Tail(x)) == x && IsTail(Tail(x))
  {
  }

  lemma Utf8CharGood(x: scalar)
    ensures Good8(Utf8Char(x)) && Value8(Utf8Char(x)) == x
  {
    PopPush(x);
    PopPush(x / 64);
    PopPush(x / 64 / 64);
    hide Push, Tail, IsTail;
  }

  lemma Utf8CharOnly(b: seq<byte>)
    requires Good8(b)
    ensures Utf8Char(Value8(b)) == b
  {
    hide Push, IsTail;
    var first: int := b[0];
    if |b| == 2 {
      PushPop(first - 0xC0, b[1]);
    } else if |b| == 3 {
      PushPop(first - 0xE0, b[1]);
      PushPop(Push(first - 0xE0, b[1]), b[2]);
    } else if |b| == 4 {
      PushPop(first - 0xF0, b[1]);
      PushPop(Push(first - 0xF0, b[1]), b[2]);
      PushPop(Push(Push(first - 0xF0, b[1]), b[2]), b[3]);
    }
  }

  function EncodeUtf8(text: string): seq<byte> {
    if text == "" then [] else Utf8Char(text[0] as int) + EncodeUtf8(text[1..])
  }

  // Whether the bytes start with a well-formed character.
  predicate Starts8(b: seq<byte>) {
    |b| > 0 && 0 < Length8(b[0]) <= |b| && Good8(b[..Length8(b[0])])
  }

  // `str::from_utf8`
  function DecodeUtf8(b: seq<byte>): Option<string>
    decreases |b|
  {
    if b == [] then Some("")
    else if !Starts8(b) then None
    else
      var n := Length8(b[0]);
      match DecodeUtf8(b[n..])
      case None => None
      case Some(text) => Some([Value8(b[..n]) as char] + text)
  }

  lemma {:induction false} DecodeUtf8Step(x: scalar, rest: seq<byte>)
    ensures DecodeUtf8(Utf8Char(x) + rest) ==
            match DecodeUtf8(rest) case None => None case Some(text) => Some([x as char] + text)
  {
    Utf8CharGood(x);
    var c := Utf8Char(x);
    var b := c + rest;
    hide Utf8Char, Value8, Length8;
    assert b[0] == c[0] && b[..|c|] == c && b[|c|..] == rest;
  }

  lemma {:induction false} Utf8Decodes(text: string)
    ensures DecodeUtf8(EncodeUtf8(text)) == Some(text)
  {
    if text != "" {
      DecodeUtf8Step(text[0] as int, EncodeUtf8(text[1..]));
      Utf8Decodes(text[1..]);
      assert text == [text[0]] + text[1..];
    }
  }

  lemma {:induction false} Utf8Encodes(b: seq<byte>)
    requires DecodeUtf8(b).Some?
    ensures EncodeUtf8(DecodeUtf8(b).value) == b
    decreases |b|
  {
    if b == [] {
    } else {
      var x, n := DecodeUtf8Parts(b);
      hide *;
      Utf8Encodes(b[n..]);
      EncodeUtf8Cons(x, DecodeUtf8(b[n..]).value);
      Whole(b, n);
    }
  }

  lemma Whole<T>(s: seq<T>, n: nat)
    requires n <= |s|
    ensures s == s[..n] + s[n..]
  {
  }

  lemma DecodeUtf8Parts(b: seq<byte>) returns (x: scalar, n: nat)
    requires b != [] && DecodeUtf8(b).Some?
    ensures 1 <= n <= |b| && Utf8Char(x) == b[..n] && DecodeUtf8(b[n..]).Some?
    ensures DecodeUtf8(b).value == [x as char] + DecodeUtf8(b[n..]).value
  {
    n := Length8(b[0]);
    x := Value8(b[..n]);
    Utf8CharOnly(b[..n]);
    hide Value8, Utf8Char, Length8;
  }

  lemma {:induction false} EncodeUtf8Cons(x: scalar, text: string)
    ensures EncodeUtf8([x as char] + text) == Utf8Char(x) + EncodeUtf8(text)
  {
    hide Utf8Char;
    assert ([x as char] + text)[1..] == text;
  }

  // ----- UTF-16 -----

  type unit = x: int | 0 <= x < 0x1_0000

  function Utf16Char(x: scalar): (u: seq<unit>)
    ensures |u| == 1 || |u| == 2
  {
    if x < 0x1_0000 then [x]
    else [0xD800 + (x - 0x1_0000) / 0x400, 0xDC00 + (x - 0x1_0000) % 0x400]
  }

  predicate IsHigh(u: unit) {
    0xD800 <= u < 0xDC00
  }

  predicate IsLow(u: unit) {
    0xDC00 <= u < 0xE000
  }

  function EncodeUnits(text: string): seq<unit> {
    if text == "" then [] else Utf16Char(text[0] as int) + EncodeUnits(text[1..])
  }

  // The character a sequence of units starts with, and how many units it takes.
  function FirstUnits(u: seq<unit>): Option<(scalar, nat)>
    requires |u| > 0
  {
    if !IsHigh(u[0]) && !IsLow(u[0]) then Some((u[0], 1))
    else if IsHigh(u[0]) && |u| > 1 && IsLow(u[1]) then
      var high: int, low: int := u[0] - 0xD800, u[1] - 0xDC00;
      Some((0x1_0000 + high * 0x400 + low, 2))
    else None
  }

  // `String::from_utf16`: an unpaired surrogate is an error.
  function DecodeUnits(u: seq<unit>): Option<string>
    decreases |u|
  {
    if u == [] then Some("")
    else
      match FirstUnits(u)
      case None => None
      case Some((x, n)) =>
        if n > |u| then None
        else
          match DecodeUnits(u[n..])
          case None => None
          case Some(text) => Some([x as char] + text)
  }

  lemma FirstOfChar(x: scalar, rest: seq<unit>)
    ensures FirstUnits(Utf16Char(x) + rest) == Some((x, |Utf16Char(x)|))
  {
  }

  lemma CharOfFirst(u: seq<unit>)
    requires |u| > 0 && FirstUnits(u).Some?
    ensures var (x, n) := FirstUnits(u).value; 1 <= n <= |u| && Utf16Char(x) == u[..n]
  {
  }

  lemma {:induction false} UnitsDecode(text: string)
    ensures DecodeUnits(EncodeUnits(text)) == Some(text)
  {
    if text != "" {
      var x: int, rest := text[0] as int, EncodeUnits(text[1..]);
      FirstOfChar(x, rest);
      hide FirstUnits, Utf16Char;
      UnitsDecode(text[1..]);
      var c := Utf16Char(x);
      assert (c + rest)[|c|..] == rest;
      assert text == [text[0]] + text[1..];
    }
  }

  lemma {:induction false} UnitsEncode(u: seq<unit>)
    requires DecodeUnits(u).Some?
    ensures EncodeUnits(DecodeUnits(u).value) == u
    decreases |u|
  {
    if u == [] {
    } else {
      CharOfFirst(u);
      var (x, n) := FirstUnits(u).value;
      assert DecodeUnits(u).value == [x as char] + DecodeUnits(u[n..]).value;
      hide *;
      UnitsEncode(u[n..]);
      EncodeUnitsCons(x, DecodeUnits(u[n..]).value);
      Whole(u, n);
    }
  }

  lemma {:induction false} EncodeUnitsCons(x: scalar, text: string)
    ensures EncodeUnits([x as char] + text) == Utf16Char(x) + EncodeUnits(text)
  {
    hide Utf16Char;
    assert ([x as char] + text)[1..] == text;
  }

  function UnitBytes(u: unit, little: bool): (b: seq<byte>)
    ensures |b| == 2
  {
    if little then [u % 0x100, u / 0x100] else [u / 0x100, u % 0x100]
  }

  function BytesUnit(b: seq<byte>, little: bool): unit
    requires |b| == 2
  {
    var first: int, second: int := b[0], b[1];
    if little then first + second * 0x100 else first * 0x100 + second
  }

  function ToBytes(u: seq<unit>, little: bool): (b: seq<byte>)
    ensures |b| == 2 * |u|
  {
    if u == [] then [] else UnitBytes(u[0], little) + ToBytes(u[1..], little)
  }

  function FromBytes(b: seq<byte>, little: bool): (u: seq<unit>)
    requires |b| % 2 == 0
    ensures |b| == 2 * |u|
    decreases |b|
  {
    if b == [] then [] else [BytesUnit(b[..2], little)] + FromBytes(b[2..], little)
  }

  lemma {:induction false} FromTo(u: seq<unit>, little: bool)
    ensures FromBytes(ToBytes(u, little), little) == u
  {
    if u != [] {
      FromTo(u[1..], little);
      var first, rest := UnitBytes(u[0], little), ToBytes(u[1..], little);
      assert BytesUnit(first, little) == u[0];
      hide UnitBytes, BytesUnit, ToBytes;
      assert (first + rest)[..2] == first && (first + rest)[2..] == rest;
    }
  }

  lemma {:induction false} ToFrom(b: seq<byte>, little: bool)
    requires |b| % 2 == 0
    ensures ToBytes(FromBytes(b, little), little) == b
    decreases |b|
  {
    if b != [] {
      ToFrom(b[2..], little);
      assert UnitBytes(BytesUnit(b[..2], little), little) == b[..2];
      hide UnitBytes, BytesUnit;
      assert b == b[..2] + b[2..];
    }
  }

  // `decode_utf16`
  function DecodeUtf16(b: seq<byte>, little: bool): Option<string> {
    if |b| % 2 != 0 then None else DecodeUnits(FromBytes(b, little))
  }

  // ----- Whole files -----

  const Mark8: seq<byte> := [0xEF, 0xBB, 0xBF]
  const MarkLe: seq<byte> := [0xFF, 0xFE]
  const MarkBe: seq<byte> := [0xFE, 0xFF]

  predicate Begins(b: seq<byte>, p: seq<byte>) {
    |p| <= |b| && b[..|p|] == p
  }

  function Marked(text: Option<string>, bom: BomKind): Option<(string, BomKind)> {
    match text
    case None => None
    case Some(t) => Some((t, bom))
  }

  // `decode_subtitle`
  function DecodeSubtitle(b: seq<byte>): Option<(string, BomKind)> {
    if Begins(b, Mark8) then Marked(DecodeUtf8(b[3..]), Utf8)
    else if Begins(b, MarkLe) then Marked(DecodeUtf16(b[2..], true), Utf16Le)
    else if Begins(b, MarkBe) then Marked(DecodeUtf16(b[2..], false), Utf16Be)
    else Marked(DecodeUtf8(b), NoBom)
  }

  // `encode_subtitle`
  function EncodeSubtitle(text: string, bom: BomKind): seq<byte> {
    match bom
    case NoBom => EncodeUtf8(text)
    case Utf8 => Mark8 + EncodeUtf8(text)
    case Utf16Le => MarkLe + ToBytes(EncodeUnits(text), true)
    case Utf16Be => MarkBe + ToBytes(EncodeUnits(text), false)
  }

  // The text itself starts with a byte order mark.
  predicate StartsWithMark(text: string) {
    text != "" && text[0] == '\U{FEFF}'
  }

  // Which marks the bytes of a UTF-8 text start with.
  lemma {:induction false} Utf8Front(text: string)
    ensures var b := EncodeUtf8(text);
            && !Begins(b, MarkLe) && !Begins(b, MarkBe)
            && (Begins(b, Mark8) <==> StartsWithMark(text))
  {
    if text != "" {
      var x: int := text[0] as int;
      var c, rest := Utf8Char(x), EncodeUtf8(text[1..]);
      Utf8CharGood(x);
      assert EncodeUtf8(text)[0] == c[0];
      assert c[0] < 0xF8;
      if Begins(EncodeUtf8(text), Mark8) {
        assert |c| == 3 by { assert c[0] == 0xEF; }
        assert c == EncodeUtf8(text)[..3];
        assert Value8(Mark8) == 0xFEFF;
      }
      if x == 0xFEFF {
        assert c == Mark8;
      }
    }
  }

  /** Decoding what was encoded gives text and mark back, exactly when no mark is mistaken for text. */
  lemma DecodeEncoded(text: string, bom: BomKind)
    ensures DecodeSubtitle(EncodeSubtitle(text, bom)) == Some((text, bom)) <==> !(bom == NoBom && StartsWithMark(text))
  {
    Utf8Decodes(text);
    Utf8Front(text);
    UnitsDecode(text);
    FromTo(EncodeUnits(text), bom == Utf16Le);
    hide EncodeUtf8, DecodeUtf8, EncodeUnits, DecodeUnits, ToBytes, FromBytes, StartsWithMark;
    var b := EncodeSubtitle(text, bom);
    match bom
    case NoBom =>
    case Utf8 => assert b[3..] == EncodeUtf8(text) && b[..3] == Mark8;
    case Utf16Le => assert b[2..] == ToBytes(EncodeUnits(text), true) && b[0] == 0xFF && b[1] == 0xFE;
    case Utf16Be => assert b[2..] == ToBytes(EncodeUnits(text), false) && b[0] == 0xFE && b[1] == 0xFF;
  }

  /** A file that decodes is what its text encodes to: nothing of it is lost. */
  lemma EncodeDecoded(b: seq<byte>)
    requires DecodeSubtitle(b).Some?
    ensures var (text, bom) := DecodeSubtitle(b).value; EncodeSubtitle(text, bom) == b
  {
    var (text, bom) := DecodeSubtitle(b).value;
    match bom
    case NoBom => Utf8Encodes(b);
    case Utf8 => Utf8Encodes(b[3..]); assert b == Mark8 + b[3..];
    case Utf16Le => Decode16Exact(b[2..], true); assert b == MarkLe + b[2..];
    case Utf16Be => Decode16Exact(b[2..], false); assert b == MarkBe + b[2..];
  }

  lemma {:induction false} Decode16Exact(b: seq<byte>, little: bool)
    requires DecodeUtf16(b, little).Some?
    ensures ToBytes(EncodeUnits(DecodeUtf16(b, little).value), little) == b
  {
    UnitsEncode(FromBytes(b, little));
    ToFrom(b, little);
  }

  // ----- The forms of the standards -----

  // The payload bits of a first byte, and of a continuation byte.
  function Lead(b: byte, marker: int): int {
    b - marker
  }

  function Payload(b: byte): int {
    b - 0x80
  }

  /** The four forms of UTF-8 (section 3 of RFC 3629): marker bits and payload, in the shortest form. */
  lemma Utf8Forms(x: scalar)
    ensures var b := Utf8Char(x);
            && (x <= 0x7F ==> b == [x])
            && (0x80 <= x <= 0x7FF ==>
                  |b| == 2 && b[0] / 0x20 == 0x06 && x == Lead(b[0], 0xC0) * 0x40 + Payload(b[1]))
            && (0x800 <= x <= 0xFFFF ==>
                  |b| == 3 && b[0] / 0x10 == 0x0E && x == Lead(b[0], 0xE0) * 0x1000 + Payload(b[1]) * 0x40 + Payload(b[2]))
            && (0x1_0000 <= x ==>
                  |b| == 4 && b[0] / 0x08 == 0x1E
                  && x == Lead(b[0], 0xF0) * 0x4_0000 + Payload(b[1]) * 0x1000 + Payload(b[2]) * 0x40 + Payload(b[3]))
            && forall i :: 1 <= i < |b| ==> b[i] / 0x40 == 2
  {
  }

  /** A character beyond 16 bits is a high and a low surrogate (section 2.1 of RFC 2781). */
  lemma Utf16Forms(x: scalar)
    ensures x < 0x1_0000 ==> Utf16Char(x) == [x]
    ensures x >= 0x1_0000 ==>
              && |Utf16Char(x)| == 2
              && var high: int, low: int := Utf16Char(x)[0], Utf16Char(x)[1];
                 && 0xD800 <= high <= 0xDBFF && 0xDC00 <= low <= 0xDFFF
                 && x - 0x1_0000 == (high - 0xD800) * 0x400 + (low - 0xDC00)
  {
  }

  /** A little-endian file has the low byte of every unit first, a big-endian one the high byte. */
  lemma {:induction false} UnitAt(u: seq<unit>, k: nat, little: bool)
    requires k < |u|
    ensures var first: int, second: int := ToBytes(u, little)[2 * k], ToBytes(u, little)[2 * k + 1];
            u[k] as int == if little then first + second * 0x100 else first * 0x100 + second
    decreases k
  {
    if k > 0 {
      UnitAt(u[1..], k - 1, little);
      hide UnitBytes, ToBytes;
      UnitLater(u, k, little);
    }
  }

  lemma {:induction false} UnitLater(u: seq<unit>, k: nat, little: bool)
    requires 0 < k < |u|
    ensures ToBytes(u, little)[2 * k] == ToBytes(u[1..], little)[2 * k - 2]
    ensures ToBytes(u, little)[2 * k + 1] == ToBytes(u[1..], little)[2 * k - 1]
  {
  }

  lemma {:induction false} MarkUnits(text: string, little: bool)
    ensures ToBytes(EncodeUnits(['\U{FEFF}'] + text), little) == (if little then [0xFF, 0xFE] else [0xFE, 0xFF]) + ToBytes(EncodeUnits(text), little)
  {
    EncodeUnitsCons(0xFEFF, text);
    var units := EncodeUnits(text);
    hide EncodeUnits;
    assert ([0xFEFF] + units)[1..] == units;
  }

  /** A mark is the character U+FEFF in the encoding of its own file. */
  lemma {:induction false} MarkIsCharacter(text: string)
    ensures EncodeSubtitle(text, NoBom) == EncodeUtf8(text)
    ensures EncodeSubtitle(text, Utf8) == EncodeUtf8(['\U{FEFF}'] + text)
    ensures EncodeSubtitle(text, Utf16Le) == ToBytes(EncodeUnits(['\U{FEFF}'] + text), true)
    ensures EncodeSubtitle(text, Utf16Be) == ToBytes(EncodeUnits(['\U{FEFF}'] + text), false)
  {
    EncodeUtf8Cons(0xFEFF, text);
    MarkUnits(text, true);
    MarkUnits(text, false);
    hide EncodeUtf8, EncodeUnits, ToBytes;
  }
}
