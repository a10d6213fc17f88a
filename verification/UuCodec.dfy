/**
  The text encoding of embedded fonts: three bytes become four characters of the range 33..96
  (the SSA/ASS v4.00+ script format, Appendix B). The shifts and masks are written as arithmetic.
*/
module UuCodec {
  import opened Text

  type byte = x: int | 0 <= x < 0x100
  type sextet = x: int | 0 <= x < 64

  // `(b0 << 16) | (b1 << 8) | b2`; the operands share no bit.
  function Pack3(b0: byte, b1: byte, b2: byte): (v: int)
    ensures 0 <= v < 0x100_0000
  {
    b0 * 0x1_0000 + b1 * 0x100 + b2
  }

  // `(c0 << 18) | (c1 << 12) | (c2 << 6) | c3`
  function Pack4(c0: sextet, c1: sextet, c2: sextet, c3: sextet): (v: int)
    ensures 0 <= v < 0x100_0000
  {
    c0 * 0x4_0000 + c1 * 0x1000 + c2 * 64 + c3
  }

  function UuChar(x: sextet): char {
    (x + 33) as char
  }

  function GroupChars(v: int, count: nat): string
    requires 0 <= v < 0x100_0000
  {
    [UuChar(v / 0x4_0000 % 64), UuChar(v / 0x1000 % 64)]
    + (if count > 1 then [UuChar(v / 64 % 64)] else "")
    + (if count > 2 then [UuChar(v % 64)] else "")
  }

  function GroupBytes(v: int, count: nat): seq<byte>
    requires 0 <= v < 0x100_0000 && count <= 3
  {
    (if count >= 1 then [v / 0x1_0000 % 0x100] else [])
    + (if count >= 2 then [v / 0x100 % 0x100] else [])
    + (if count >= 3 then [v % 0x100] else [])
  }

  function EncodeGroup(bytes: seq<byte>): string
    requires bytes != []
  {
    var b1 := if |bytes| > 1 then bytes[1] else 0;
    var b2 := if |bytes| > 2 then bytes[2] else 0;
    GroupChars(Pack3(bytes[0], b1, b2), |bytes|)
  }

  function Encode(bytes: seq<byte>): string {
    if bytes == [] then ""
    else EncodeGroup(bytes) + (if |bytes| <= 3 then "" else Encode(bytes[3..]))
  }

  // `ass_uu_encode`
  method AssUuEncode(bytes: seq<byte>) returns (out: string)
    ensures out == Encode(bytes)
  {
    out := "";
    var i := 0;
    while i < |bytes|
      invariant 0 <= i
      invariant out + (if i < |bytes| then Encode(bytes[i..]) else "") == Encode(bytes)
    {
      EncodeStep(out, bytes[i..]);
      var rem := |bytes| - i;
      var b0 := bytes[i];
      var b1 := if rem > 1 then bytes[i + 1] else 0;
      var b2 := if rem > 2 then bytes[i + 2] else 0;
      out := out + GroupChars(Pack3(b0, b1, b2), rem);
      if rem > 3 {
        assert bytes[i..][3..] == bytes[i + 3..];
      }
      i := i + 3;
    }
  }

  lemma {:induction false} EncodeStep(out: string, rest: seq<byte>)
    requires rest != []
    ensures out + Encode(rest) == out + EncodeGroup(rest) + (if |rest| <= 3 then "" else Encode(rest[3..]))
  {
    Assoc(out, EncodeGroup(rest), if |rest| <= 3 then "" else Encode(rest[3..]));
  }

  // The characters as numbers, white space dropped; none when one is out of range.
  function Values(s: string): Option<seq<sextet>> {
    if s == "" then Some([])
    else if IsWhitespace(s[0]) then Values(s[1..])
    else if !(33 <= s[0] as int <= 96) then None
    else
      match Values(s[1..])
      case None => None
      case Some(vs) => Some([s[0] as int - 33] + vs)
  }

  // Four values carry three bytes; a short last group of n values carries n - 1.
  function DecodeValues(vs: seq<sextet>): Option<seq<byte>> {
    if vs == [] then Some([])
    else if |vs| == 1 then None
    else if |vs| < 4 then
      Some(GroupBytes(Pack4(vs[0], vs[1], if |vs| > 2 then vs[2] else 0, 0), |vs| - 1))
    else
      match DecodeValues(vs[4..])
      case None => None
      case Some(rest) => Some(GroupBytes(Pack4(vs[0], vs[1], vs[2], vs[3]), 3) + rest)
  }

  function Decode(s: string): Option<seq<byte>> {
    match Values(s)
    case None => None
    case Some(vs) => DecodeValues(vs)
  }

  // What is decoded once `out` is done, `chars` are waiting and `s` is still to be read.
  function DecodeFrom(out: seq<byte>, chars: seq<sextet>, s: string): Option<seq<byte>> {
    match Values(s)
    case None => None
    case Some(vs) =>
      match DecodeValues(chars + vs)
      case None => None
      case Some(rest) => Some(out + rest)
  }

  // `push_decoded_group_limited`, after the source pads a short last group with zeros.
  method LastGroup(chars: seq<sextet>) returns (bytes: seq<byte>)
    requires 2 <= |chars| < 4
    ensures Some(bytes) == DecodeValues(chars)
  {
    var padded := chars;
    while |padded| < 4
      invariant |chars| <= |padded| <= 4 && chars <= padded
      invariant forall k :: |chars| <= k < |padded| ==> padded[k] == 0
    {
      padded := padded + [0];
    }
    bytes := GroupBytes(Pack4(padded[0], padded[1], padded[2], padded[3]), |chars| - 1);
  }

  // `ass_uu_decode`
  method AssUuDecode(s: string) returns (result: Option<seq<byte>>)
    ensures result == Decode(s)
  {
    var out: seq<byte> := [];
    var chars: seq<sextet> := [];
    DecodeFromStart(s);
    var i := 0;
    while i < |s|
      invariant 0 <= i <= |s| && |chars| < 4
      invariant DecodeFrom(out, chars, s[i..]) == Decode(s)
    {
      DecodeFromStep(out, chars, s[i..]);
      assert s[i..][1..] == s[i + 1..];
      hide DecodeFrom, Decode, GroupBytes, Pack4;
      var ch := s[i];
      if !IsWhitespace(ch) {
        var v := ch as int - 33;
        if !(0 <= v <= 63) {
          return None;
        }
        chars := chars + [v];
        if |chars| == 4 {
          out := out + GroupBytes(Pack4(chars[0], chars[1], chars[2], chars[3]), 3);
          chars := [];
        }
      }
      i := i + 1;
    }
    DecodeFromEnd(out, chars, s[i..]);
    hide DecodeFrom, Decode, DecodeValues;
    if chars == [] {
      return Some(out);
    }
    if |chars| == 1 {
      return None;
    }
    var last := LastGroup(chars);
    return Some(out + last);
  }

  lemma {:induction false} DecodeFromEnd(out: seq<byte>, chars: seq<sextet>, s: string)
    requires s == "" && |chars| < 4
    ensures DecodeFrom(out, chars, s) ==
            if chars == [] then Some(out) else if |chars| == 1 then None
            else Some(out + DecodeValues(chars).value)
  {
    assert chars + [] == chars;
    if chars == [] {
      assert out + [] == out;
    }
  }

  lemma DecodeFromStart(s: string)
    ensures DecodeFrom([], [], s) == Decode(s)
  {
    if Values(s).Some? {
      assert [] + Values(s).value == Values(s).value;
      if Decode(s).Some? {
        assert [] + Decode(s).value == Decode(s).value;
      }
    }
  }

  // Reading one more value: it waits, or it completes a group.
  lemma {:induction false} PushValue(out: seq<byte>, chars: seq<sextet>, v: sextet, vs: seq<sextet>)
    requires |chars| < 4
    ensures chars + ([v] + vs) == chars + [v] + vs
    ensures |chars| == 3 ==>
              var four := chars + [v];
              DecodeValues(chars + [v] + vs) ==
              match DecodeValues(vs)
              case None => None
              case Some(rest) => Some(GroupBytes(Pack4(four[0], four[1], four[2], four[3]), 3) + rest)
  {
    if |chars| == 3 {
      assert (chars + [v] + vs)[4..] == vs;
    }
  }

  lemma DecodeFromStep(out: seq<byte>, chars: seq<sextet>, s: string)
    requires s != "" && |chars| < 4
    ensures IsWhitespace(s[0]) ==> DecodeFrom(out, chars, s) == DecodeFrom(out, chars, s[1..])
    ensures !IsWhitespace(s[0]) && !(0 <= s[0] as int - 33 <= 63) ==> DecodeFrom(out, chars, s) == None
    ensures !IsWhitespace(s[0]) && 0 <= s[0] as int - 33 <= 63 ==>
              var chars' := chars + [s[0] as int - 33];
              DecodeFrom(out, chars, s) ==
              if |chars'| < 4 then DecodeFrom(out, chars', s[1..])
              else DecodeFrom(out + GroupBytes(Pack4(chars'[0], chars'[1], chars'[2], chars'[3]), 3), [], s[1..])
  {
    if !IsWhitespace(s[0]) && 0 <= s[0] as int - 33 <= 63 && Values(s[1..]).Some? {
      var v, vs := s[0] as int - 33, Values(s[1..]).value;
      PushValue(out, chars, v, vs);
      hide Values, DecodeValues, GroupBytes, Pack4;
      assert Values(s) == Some([v] + vs) by { ValuesStep(s); }
      if |chars| == 3 && DecodeValues(vs).Some? {
        var four := chars + [v];
        var group := GroupBytes(Pack4(four[0], four[1], four[2], four[3]), 3);
        assert [] + vs == vs;
        assert out + (group + DecodeValues(vs).value) == out + group + DecodeValues(vs).value;
      } else {
        assert [] + vs == vs;
      }
    }
  }

  lemma {:induction false} ValuesStep(s: string)
    requires s != "" && !IsWhitespace(s[0]) && 33 <= s[0] as int <= 96 && Values(s[1..]).Some?
    ensures Values(s) == Some([s[0] as int - 33] + Values(s[1..]).value)
  {
  }

  // ----- Properties -----

  /** Every character is in the range the format allows, and the length follows from the data's. */
  lemma {:induction false} EncodeShape(bytes: seq<byte>)
    ensures forall i :: 0 <= i < |Encode(bytes)| ==> 33 <= Encode(bytes)[i] as int <= 96
    ensures |Encode(bytes)| ==
            4 * (|bytes| / 3) + (if |bytes| % 3 == 0 then 0 else |bytes| % 3 + 1)
    decreases |bytes|
  {
    if |bytes| > 3 {
      EncodeShape(bytes[3..]);
    }
  }

  lemma {:induction false} ValuesAppend(a: string, b: string)
    requires Values(a).Some? && Values(b).Some?
    ensures Values(a + b) == Some(Values(a).value + Values(b).value)
  {
    if a == "" {
      assert a + b == b;
      assert [] + Values(b).value == Values(b).value;
    } else {
      assert (a + b)[1..] == a[1..] + b;
      ValuesAppend(a[1..], b);
      if !IsWhitespace(a[0]) {
        var x, va, vb := a[0] as int - 33, Values(a[1..]).value, Values(b).value;
        assert [x] + (va + vb) == [x] + va + vb;
      }
    }
  }

  lemma ValuesOfOne(x: sextet)
    ensures Values([UuChar(x)]) == Some([x])
  {
    var s := [UuChar(x)];
    assert s[1..] == "";
    assert Values(s[1..]) == Some([]);
    assert !IsWhitespace(UuChar(x));
    assert [x] + [] == [x];
  }

  // The four base-64 digits of a 24-bit number, and its three base-256 digits.
  lemma Digits64(v: int)
    requires 0 <= v < 0x100_0000
    ensures Pack4(v / 0x4_0000 % 64, v / 0x1000 % 64, v / 64 % 64, v % 64) == v
  {
    var q1 := v / 64;
    var q2 := q1 / 64;
    var q3 := q2 / 64;
    assert v / 0x1000 == q2;
    assert v / 0x4_0000 == q3;
    assert 0 <= q3 < 64;
  }

  lemma Digits256(b0: byte, b1: byte, b2: byte)
    ensures Pack3(b0, b1, b2) / 0x1_0000 % 0x100 == b0
    ensures Pack3(b0, b1, b2) / 0x100 % 0x100 == b1
    ensures Pack3(b0, b1, b2) % 0x100 == b2
  {
    var v := Pack3(b0, b1, b2);
    assert v / 0x100 == b0 * 0x100 + b1;
    assert v / 0x1_0000 == b0;
  }

  // The values of one encoded group are its base-64 digits, cut to the group's length.
  lemma GroupValues(v: int, count: nat)
    requires 0 <= v < 0x100_0000
    ensures Values(GroupChars(v, count)) ==
            Some([v / 0x4_0000 % 64, v / 0x1000 % 64]
                 + (if count > 1 then [v / 64 % 64] else []) + (if count > 2 then [v % 64] else []))
  {
    var c0, c1, c2, c3 := v / 0x4_0000 % 64, v / 0x1000 % 64, v / 64 % 64, v % 64;
    ValuesOfOne(c0);
    ValuesOfOne(c1);
    ValuesOfOne(c2);
    ValuesOfOne(c3);
    hide Values;
    ValuesAppend([UuChar(c0)], [UuChar(c1)]);
    var two := [UuChar(c0)] + [UuChar(c1)];
    if count <= 1 {
      assert GroupChars(v, count) == two;
      assert [c0] + [c1] == [c0, c1] + [] + [];
    } else {
      ValuesAppend(two, [UuChar(c2)]);
      var three := two + [UuChar(c2)];
      if count <= 2 {
        assert GroupChars(v, count) == three;
        assert [c0] + [c1] + [c2] == [c0, c1] + [c2] + [];
      } else {
        ValuesAppend(three, [UuChar(c3)]);
        assert GroupChars(v, count) == three + [UuChar(c3)];
        assert [c0] + [c1] + [c2] + [c3] == [c0, c1] + [c2] + [c3];
      }
    }
  }

  // One encoded group decodes to its bytes: the values dropped from a short group are zero.
  lemma DecodeGroup(bytes: seq<byte>)
    requires 0 < |bytes| <= 3
    ensures Values(EncodeGroup(bytes)).Some?
    ensures |Values(EncodeGroup(bytes)).value| == |bytes| + 1
    ensures DecodeValues(Values(EncodeGroup(bytes)).value) == Some(bytes)
  {
    var b0, b1 := bytes[0], if |bytes| > 1 then bytes[1] else 0;
    var b2 := if |bytes| > 2 then bytes[2] else 0;
    var v := Pack3(b0, b1, b2);
    GroupValues(v, |bytes|);
    var c0, c1, c2, c3 := v / 0x4_0000 % 64, v / 0x1000 % 64, v / 64 % 64, v % 64;
    Digits64(v);
    Digits256(b0, b1, b2);
    ShortDigits(b0, b1, b2);
    hide Pack3, Pack4, GroupChars, Values;
    assert DecodeValues([]) == Some([]);
    var vs := Values(EncodeGroup(bytes)).value;
    if |bytes| == 3 {
      assert vs == [c0, c1, c2, c3] && vs[4..] == [];
      assert GroupBytes(v, 3) == [b0, b1, b2] == bytes;
      assert GroupBytes(v, 3) + [] == bytes;
    } else if |bytes| == 2 {
      assert vs == [c0, c1, c2];
      assert GroupBytes(v, 2) == [b0, b1] == bytes;
    } else {
      assert vs == [c0, c1];
      assert GroupBytes(v, 1) == [b0] == bytes;
    }
  }

  lemma ShortDigits(b0: byte, b1: byte, b2: byte)
    ensures b2 == 0 ==> Pack3(b0, b1, b2) % 64 == 0
    ensures b1 == b2 == 0 ==> Pack3(b0, b1, b2) / 64 % 64 == 0
  {
    if b2 == 0 {
      assert Pack3(b0, b1, b2) == 64 * (b0 * 1024 + b1 * 4);
      assert Pack3(b0, b1, b2) / 64 == b0 * 1024 + b1 * 4;
      if b1 == 0 {
        assert b0 * 1024 == 64 * (b0 * 16);
      }
    }
  }

  lemma {:induction false} DecodeFour(four: seq<sextet>, rest: seq<sextet>, bytes: seq<byte>)
    requires |four| == 4 && DecodeValues(four) == Some(bytes) && DecodeValues(rest).Some?
    ensures DecodeValues(four + rest) == Some(bytes + DecodeValues(rest).value)
  {
    var group := GroupBytes(Pack4(four[0], four[1], four[2], four[3]), 3);
    assert four[4..] == [] && group + [] == group;
    hide Pack4, GroupBytes;
    assert (four + rest)[4..] == rest;
  }

  /** Decoding undoes encoding, for every byte string. */
  lemma {:induction false} DecodeEncode(bytes: seq<byte>)
    ensures Decode(Encode(bytes)) == Some(bytes)
    decreases |bytes|
  {
    if bytes != [] {
      if |bytes| <= 3 {
        assert Encode(bytes) == EncodeGroup(bytes);
        DecodeGroup(bytes);
      } else {
        var head, tail := bytes[..3], bytes[3..];
        assert bytes == head + tail && EncodeGroup(bytes) == EncodeGroup(head);
        DecodeGroup(head);
        DecodeEncode(tail);
        hide Values, EncodeGroup, DecodeValues;
        ValuesAppend(EncodeGroup(head), Encode(tail));
        DecodeFour(Values(EncodeGroup(head)).value, Values(Encode(tail)).value, head);
      }
    }
  }

  // ----- Encoding what was decoded -----

  function CharsOf(vs: seq<sextet>): (s: string)
    ensures |s| == |vs|
  {
    if vs == [] then "" else [UuChar(vs[0])] + CharsOf(vs[1..])
  }

  lemma {:induction false} CharsOfValues(s: string)
    requires Values(s).Some? && NoWhitespace(s)
    ensures CharsOf(Values(s).value) == s
  {
    if s != "" {
      CharsOfValues(s[1..]);
    }
  }

  // The bits of the last value that no byte uses.
  function PaddingBits(vs: seq<sextet>): nat {
    if |vs| % 4 == 2 then vs[|vs| - 1] % 16 else if |vs| % 4 == 3 then vs[|vs| - 1] % 4 else 0
  }

  function Unpadded(vs: seq<sextet>): seq<sextet> {
    if vs == [] then [] else vs[|vs| - 1 := vs[|vs| - 1] - PaddingBits(vs)]
  }

  lemma CharsOfOne(c: sextet)
    ensures CharsOf([c]) == [UuChar(c)]
  {
    assert [c][1..] == [] && CharsOf([]) == "";
    assert [UuChar(c)] + "" == [UuChar(c)];
  }

  lemma {:induction false} CharsOfCons(c: sextet, vs: seq<sextet>)
    ensures CharsOf([c] + vs) == [UuChar(c)] + CharsOf(vs)
  {
    assert ([c] + vs)[1..] == vs;
  }

  lemma CharsOfFour(c0: sextet, c1: sextet, c2: sextet, c3: sextet)
    ensures CharsOf([c0, c1, c2, c3]) == [UuChar(c0), UuChar(c1), UuChar(c2), UuChar(c3)]
    ensures CharsOf([c0, c1, c2]) == [UuChar(c0), UuChar(c1), UuChar(c2)]
    ensures CharsOf([c0, c1]) == [UuChar(c0), UuChar(c1)]
  {
    hide CharsOf;
    CharsOfOne(c3);
    CharsOfOne(c2);
    CharsOfOne(c1);
    CharsOfCons(c2, [c3]);
    CharsOfCons(c1, [c2, c3]);
    CharsOfCons(c0, [c1, c2, c3]);
    CharsOfCons(c1, [c2]);
    CharsOfCons(c0, [c1, c2]);
    CharsOfCons(c0, [c1]);
    assert [c0] + [c1, c2, c3] == [c0, c1, c2, c3] && [c1] + [c2, c3] == [c1, c2, c3] && [c2] + [c3] == [c2, c3];
    assert [c0] + [c1, c2] == [c0, c1, c2] && [c1] + [c2] == [c1, c2] && [c0] + [c1] == [c0, c1];
  }

  lemma DigitsOfPack4(c0: sextet, c1: sextet, c2: sextet, c3: sextet)
    ensures var v := Pack4(c0, c1, c2, c3);
            v / 0x4_0000 % 64 == c0 && v / 0x1000 % 64 == c1 && v / 64 % 64 == c2 && v % 64 == c3
  {
    var v := Pack4(c0, c1, c2, c3);
    assert v / 64 == c0 * 0x1000 + c1 * 64 + c2;
    assert v / 0x1000 == c0 * 64 + c1;
    assert v / 0x4_0000 == c0;
  }

  lemma BytesOfNumber(v: int)
    requires 0 <= v < 0x100_0000
    ensures Pack3(v / 0x1_0000 % 0x100, v / 0x100 % 0x100, v % 0x100) == v
  {
    assert v / 0x1_0000 == v / 0x100 / 0x100;
    assert 0 <= v / 0x1_0000 < 0x100;
  }

  lemma GroupCharsOfPack4(c0: sextet, c1: sextet, c2: sextet, c3: sextet)
    ensures GroupChars(Pack4(c0, c1, c2, c3), 3) == CharsOf([c0, c1, c2, c3])
    ensures GroupChars(Pack4(c0, c1, c2, c3), 2) == CharsOf([c0, c1, c2])
    ensures GroupChars(Pack4(c0, c1, c2, c3), 1) == CharsOf([c0, c1])
  {
    DigitsOfPack4(c0, c1, c2, c3);
    CharsOfFour(c0, c1, c2, c3);
    hide Pack4, CharsOf;
  }

  lemma GroupOfFour(c0: sextet, c1: sextet, c2: sextet, c3: sextet)
    ensures EncodeGroup(GroupBytes(Pack4(c0, c1, c2, c3), 3)) == CharsOf([c0, c1, c2, c3])
  {
    BytesOfNumber(Pack4(c0, c1, c2, c3));
    GroupCharsOfPack4(c0, c1, c2, c3);
    hide Pack4, CharsOf, GroupChars, Pack3;
  }

  lemma TwoBytes(c0: sextet, c1: sextet, c2: sextet)
    ensures var v := Pack4(c0, c1, c2, 0);
            Pack3(v / 0x1_0000 % 0x100, v / 0x100 % 0x100, 0) == Pack4(c0, c1, c2 - c2 % 4, 0)
  {
    var q1, r1, q2, r2 := c1 / 16, c1 % 16, c2 / 4, c2 % 4;
    assert c1 == 16 * q1 + r1 && c2 == 4 * q2 + r2;
    var b0: byte, b1: byte, b2: byte := c0 * 4 + q1, r1 * 16 + q2, r2 * 64;
    assert Pack4(c0, c1, c2, 0) == Pack3(b0, b1, b2);
    Digits256(b0, b1, b2);
  }

  lemma GroupOfThree(c0: sextet, c1: sextet, c2: sextet)
    ensures EncodeGroup(GroupBytes(Pack4(c0, c1, c2, 0), 2)) == CharsOf([c0, c1, c2 - c2 % 4])
  {
    hide Pack4, CharsOf, GroupChars, Pack3;
    TwoBytes(c0, c1, c2);
    GroupCharsOfPack4(c0, c1, c2 - c2 % 4, 0);
  }

  lemma OneByte(c0: sextet, c1: sextet)
    ensures Pack3(Pack4(c0, c1, 0, 0) / 0x1_0000 % 0x100, 0, 0) == Pack4(c0, c1 - c1 % 16, 0, 0)
  {
    assert Pack4(c0, c1, 0, 0) / 0x1_0000 == c0 * 4 + c1 / 16;
  }

  lemma GroupOfTwo(c0: sextet, c1: sextet)
    ensures EncodeGroup(GroupBytes(Pack4(c0, c1, 0, 0), 1)) == CharsOf([c0, c1 - c1 % 16])
  {
    OneByte(c0, c1);
    GroupCharsOfPack4(c0, c1 - c1 % 16, 0, 0);
    hide Pack4, CharsOf, GroupChars, Pack3;
  }

  lemma {:induction false} CharsOfAppend(a: seq<sextet>, b: seq<sextet>)
    ensures CharsOf(a + b) == CharsOf(a) + CharsOf(b)
  {
    if a == [] {
      assert a + b == b;
    } else {
      assert (a + b)[1..] == a[1..] + b;
      CharsOfAppend(a[1..], b);
    }
  }

  lemma {:induction false} EncodeDecodedGroup(vs: seq<sextet>)
    requires 2 <= |vs| <= 4
    ensures DecodeValues(vs).Some? && |DecodeValues(vs).value| == |vs| - 1
    ensures EncodeGroup(DecodeValues(vs).value) == CharsOf(Unpadded(vs))
  {
    hide Pack4, CharsOf, EncodeGroup;
    assert DecodeValues([]) == Some([]);
    if |vs| == 2 {
      GroupOfTwo(vs[0], vs[1]);
      assert Unpadded(vs) == [vs[0], vs[1] - vs[1] % 16];
    } else if |vs| == 3 {
      GroupOfThree(vs[0], vs[1], vs[2]);
      assert Unpadded(vs) == [vs[0], vs[1], vs[2] - vs[2] % 4];
    } else {
      GroupOfFour(vs[0], vs[1], vs[2], vs[3]);
      var group := GroupBytes(Pack4(vs[0], vs[1], vs[2], vs[3]), 3);
      assert vs[4..] == [] && group + [] == group;
      assert Unpadded(vs) == [vs[0], vs[1], vs[2], vs[3]];
    }
  }

  // Encoding decoded values gives their characters back, with the unused bits cleared.
  lemma {:induction false} EncodeDecodedValues(vs: seq<sextet>)
    requires DecodeValues(vs).Some?
    ensures Encode(DecodeValues(vs).value) == CharsOf(Unpadded(vs))
    decreases |vs|
  {
    hide Pack4, GroupBytes, CharsOf, EncodeGroup, Unpadded;
    if vs == [] {
      assert Unpadded(vs) == [] by { UnpaddedNothing(); }
      CharsOfNothing();
    } else if |vs| <= 4 {
      EncodeDecodedGroup(vs);
      var d := DecodeValues(vs).value;
      assert Encode(d) == EncodeGroup(d) + "" == EncodeGroup(d);
    } else {
      var four, tail := vs[..4], vs[4..];
      EncodeDecodedValues(tail);
      EncodeDecodedGroup(four);
      var group, rest := DecodeValues(four).value, DecodeValues(tail).value;
      assert vs == four + tail;
      DecodeFour(four, tail, group);
      EncodeThree(group, rest);
      CharsOfAppend(four, Unpadded(tail));
      UnpaddedTail(vs);
    }
  }

  lemma UnpaddedNothing()
    ensures Unpadded([]) == []
  {
  }

  lemma CharsOfNothing()
    ensures CharsOf([]) == ""
  {
  }

  lemma {:induction false} EncodeThree(group: seq<byte>, rest: seq<byte>)
    requires |group| == 3
    ensures Encode(group + rest) == EncodeGroup(group) + Encode(rest)
  {
    assert (group + rest)[3..] == rest;
    if rest == [] {
      assert group + rest == group;
    }
  }

  lemma UnpaddedTail(vs: seq<sextet>)
    requires |vs| >= 4
    ensures Unpadded(vs[..4]) == vs[..4]
    ensures Unpadded(vs) == vs[..4] + Unpadded(vs[4..])
  {
    assert vs == vs[..4] + vs[4..];
    if |vs| == 4 {
      assert Unpadded(vs) == vs;
    }
  }

  lemma UnpaddedSame(vs: seq<sextet>)
    ensures Unpadded(vs) == vs <==> PaddingBits(vs) == 0
  {
    if vs != [] {
      assert Unpadded(vs)[|vs| - 1] == vs[|vs| - 1] - PaddingBits(vs);
    }
  }

  predicate NoWhitespace(s: string) {
    forall i :: 0 <= i < |s| ==> !IsWhitespace(s[i])
  }

  lemma {:induction false} EncodedIsDense(bytes: seq<byte>)
    ensures NoWhitespace(Encode(bytes))
  {
    EncodeShape(bytes);
  }

  /** Encoding undoes decoding exactly on text without white space whose unused bits are zero. */
  lemma {:induction false} EncodeDecode(s: string)
    requires Decode(s).Some?
    ensures Encode(Decode(s).value) == s <==> NoWhitespace(s) && PaddingBits(Values(s).value) == 0
  {
    var vs, e := Values(s).value, Encode(Decode(s).value);
    EncodeDecodedValues(vs);
    EncodedIsDense(Decode(s).value);
    UnpaddedSame(vs);
    hide Encode, DecodeValues, Values, CharsOf, NoWhitespace, Unpadded, PaddingBits;
    if NoWhitespace(s) {
      CharsOfValues(s);
      if e == s {
        CharsOfInjective(vs, Unpadded(vs));
      }
    }
  }

  lemma {:induction false} CharsOfInjective(a: seq<sextet>, b: seq<sextet>)
    requires CharsOf(a) == CharsOf(b)
    ensures a == b
  {
    if a != [] {
      assert CharsOf(a)[0] == UuChar(a[0]) && CharsOf(b)[0] == UuChar(b[0]);
      assert CharsOf(a)[1..] == CharsOf(a[1..]) && CharsOf(b)[1..] == CharsOf(b[1..]);
      CharsOfInjective(a[1..], b[1..]);
      assert a == [a[0]] + a[1..] && b == [b[0]] + b[1..];
    }
  }
}
