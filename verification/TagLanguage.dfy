/**
  What override tags mean: a small language of tags, printed, is read as what it says.
*/
module TagLanguage {
  import opened Text
  import opened Tags
  import opened FontNames
  import opened Interpreter
  import opened TagMeaning

  // ----- Numbers -----

  function Digits(n: nat): (s: string)
    ensures s != "" && AllDigits(s)
  {
    var last := [(n % 10) as char + '0'];
    if n < 10 then last else Digits(n / 10) + last
  }

  function Decimal(n: int): string {
    if n < 0 then "-" + Digits(-n) else Digits(n)
  }

  lemma {:induction false} DigitsRead(n: nat)
    ensures DigitsValue(Digits(n)) == n
    decreases n
  {
    var s, last := Digits(n), [(n % 10) as char + '0'];
    if n >= 10 {
      DigitsRead(n / 10);
      assert s == Digits(n / 10) + last && s[..|s| - 1] == Digits(n / 10);
    } else {
      assert s[..|s| - 1] == "" && DigitsValue("") == 0;
    }
  }

  /** An integer in decimal is read as itself when it fits into 32 bits, and not at all otherwise; a plus sign changes nothing. */
  lemma DecimalRead(n: int)
    ensures ParseI32(Decimal(n)) == if -0x8000_0000 <= n <= 0x7FFF_FFFF then Some(n) else None
    ensures n >= 0 ==> ParseI32("+" + Decimal(n)) == ParseI32(Decimal(n))
  {
    var d := Digits(if n < 0 then -n else n);
    DigitsRead(if n < 0 then -n else n);
    SignedRead(d);
    hide *;
    DecimalIs(n);
  }

  lemma DecimalIs(n: int)
    ensures Decimal(n) == if n < 0 then "-" + Digits(-n) else Digits(n)
  {
  }

  lemma {:induction false} SignedRead(d: string)
    requires d != "" && AllDigits(d) && DigitsValue(d) >= 0
    ensures ParseI32(d) == if DigitsValue(d) <= 0x7FFF_FFFF then Some(DigitsValue(d)) else None
    ensures ParseI32("+" + d) == ParseI32(d)
    ensures ParseI32("-" + d) == if DigitsValue(d) <= 0x8000_0000 then Some(-DigitsValue(d)) else None
  {
    assert IsDigit(d[0]);
    assert ("-" + d)[1..] == d && ("+" + d)[1..] == d;
    hide DigitsValue, AllDigits;
  }

  lemma {:induction false} DecimalIsPlain(n: int)
    ensures Decimal(n) != "" && Trimmed(Decimal(n))
    ensures forall c :: c in Decimal(n) ==> IsDigit(c) || c == '-'
  {
    var s := Decimal(n);
    assert forall c :: c in s ==> IsDigit(c) || c == '-';
    assert s[0] in s && s[|s| - 1] in s;
  }

  /** A word for a style's flag: a number other than zero, or one of three words in any case. */
  lemma FlagWords(v: string)
    ensures Boolish(v) <==>
              var t := Trim(v);
              if ParseI32(t).Some? then ParseI32(t).value != 0 else Lower(t) in {"true", "yes", "on"}
  {
  }

  // ----- The language -----

  datatype Tag =
    | Font(name: string)
    | Reset(name: string)
    | BoldOn
    | Bold(weight: int)
    | Italic(n: int)
    | Drawing(n: int)
    | Other(text: string)

  // A tag, with its argument in parentheses or not.
  datatype Written = Written(tag: Tag, inParens: bool)

  function Letters(t: Tag): string {
    match t
    case Font(_) => "fn"
    case Reset(_) => "r"
    case BoldOn => "b"
    case Bold(_) => "b"
    case Italic(_) => "i"
    case Drawing(_) => "p"
    case Other(text) => text
  }

  function Argument(t: Tag): string {
    match t
    case Font(name) => name
    case Reset(name) => name
    case BoldOn => ""
    case Bold(w) => Decimal(w)
    case Italic(n) => Decimal(n)
    case Drawing(n) => Decimal(n)
    case Other(_) => ""
  }

  // Any other tag: its letters start none of the known ones.
  predicate IsOther(text: string) {
    '\\' !in text && (text == "" || (text[0] != 'r' && text[0] != 'b' && text[0] != 'i' && text[0] != 'p')) && !IsFn(text)
  }

  predicate WellFormed(w: Written) {
    var a := Argument(w.tag);
    && '\\' !in a && (if w.inParens then ')' !in a else a == "" || a[0] != '(')
    && (w.tag.Other? ==> IsOther(w.tag.text) && !w.inParens)
  }

  function Print(w: Written): string {
    "\\" + (Letters(w.tag) + (if w.inParens then "(" + Argument(w.tag) + ")" else Argument(w.tag)))
  }

  function PrintAll(tags: seq<Written>): string {
    if tags == [] then "" else Print(tags[0]) + PrintAll(tags[1..])
  }

  // 32 bits hold the number.
  predicate Fits(n: int) {
    -0x8000_0000 <= n <= 0x7FFF_FFFF
  }

  /**
    What a tag does. A font without a name or named `0` is none. A reset without a name goes back to
    the line's style, one to an unknown style does nothing. Bold is weight 1, -1, or 600 and more. A
    number that does not fit is no number: it leaves bold alone, turns italics off and drawing off.
  */
  function Effect(t: Tag, st: TagState, base: StyleInfo, styles: Styles): TagState {
    match t
    case Font(name) =>
      var font := NormFont(name);
      if font == "" || font == "0" then st else TagState(StyleInfo(font, st.style.bold, st.style.italic), st.level)
    case Reset(name) =>
      if Trim(name) == "" then TagState(base, st.level)
      else if Trim(name) in styles then TagState(styles[Trim(name)], st.level) else st
    case BoldOn => TagState(StyleInfo(st.style.font, true, st.style.italic), st.level)
    case Bold(w) =>
      if Fits(w) then TagState(StyleInfo(st.style.font, w == 1 || w == -1 || w >= 600, st.style.italic), st.level) else st
    case Italic(n) => TagState(StyleInfo(st.style.font, st.style.bold, Fits(n) && n != 0), st.level)
    case Drawing(n) => TagState(st.style, if Fits(n) then n else 0)
    case Other(_) => st
  }

  function EffectAll(tags: seq<Written>, st: TagState, base: StyleInfo, styles: Styles): TagState
    decreases |tags|
  {
    if tags == [] then st else EffectAll(tags[1..], Effect(tags[0].tag, st, base, styles), base, styles)
  }

  // ----- Reading it -----

  lemma TrimTwice(s: string)
    ensures Trim(Trim(s)) == Trim(s)
  {
    var a, b := TrimSplits(s);
    TrimOfTrimmed(Trim(s));
  }

  // The argument of a printed tag is read, up to blanks around it.
  lemma ArgumentRead(w: Written, rest: string)
    requires WellFormed(w) && !w.tag.Other? && (rest != "" ==> rest[0] == '\\')
    ensures var u := (if w.inParens then "(" + Argument(w.tag) + ")" else Argument(w.tag)) + rest;
            ReadTagArg(u).1 == rest && Trim(ReadTagArg(u).0) == Trim(Argument(w.tag))
  {
    var a := Argument(w.tag);
    TrimTwice(a);
    hide Trim, ReadTagArg, Argument;
    if w.inParens {
      ReadParenthesised(a, rest);
    } else {
      assert a + rest != "" ==> (a + rest)[0] != '(' by {
        if a == "" {
          assert a + rest == rest;
        } else {
          assert (a + rest)[0] == a[0];
        }
      }
      ReadOpen(a, rest);
    }
  }

  lemma {:induction false} NumberRead(n: int, arg: string)
    requires Trim(arg) == Trim(Decimal(n))
    ensures Trim(arg) == Decimal(n) && Trim(arg) != "" && Trim(Trim(arg)) == Trim(arg)
    ensures ParseI32(Trim(arg)) == if Fits(n) then Some(n) else None
  {
    DecimalIsPlain(n);
    DecimalRead(n);
    TrimOfTrimmed(Decimal(n));
    hide Trim, ParseI32, Decimal;
  }

  lemma {:induction false} NumberIsNoWord(n: int)
    ensures Lower(Decimal(n)) !in {"true", "yes", "on"}
  {
    DecimalIsPlain(n);
    var s := Decimal(n);
    assert s[0] in s;
    assert Lower(s)[0] == LowerChar(s[0]) == s[0];
    hide Decimal;
    assert "true"[0] == 't' && "yes"[0] == 'y' && "on"[0] == 'o';
  }

  lemma FlagOfNumber(n: int, arg: string)
    requires Trim(arg) == Trim(Decimal(n))
    ensures Boolish(Trim(arg)) <==> Fits(n) && n != 0
  {
    NumberRead(n, arg);
    NumberIsNoWord(n);
    hide Trim, ParseI32, Decimal;
  }

  lemma FontRead(name: string, arg: string)
    requires Trim(arg) == Trim(name)
    ensures NormFont(arg) == NormFont(name)
  {
    hide Trim;
  }

  // A known tag steps as its letters say.
  lemma KnownStep(letters: string, u: string, st: TagState, base: StyleInfo, styles: Styles)
    requires letters in {"fn", "r", "b", "i", "p"}
    ensures var (arg, rest) := ReadTagArg(u);
            var n := ParseI32(Trim(arg));
            TagStep("\\" + (letters + u), st, base, styles) ==
            (if letters == "fn" then SetFont(st, arg)
             else if letters == "r" then
               if Trim(arg) == "" then st.(style := base)
               else if Trim(arg) in styles then st.(style := styles[Trim(arg)]) else st
             else if letters == "b" then st.(style := st.style.(bold := BoldAfter(st.style.bold, Trim(arg))))
             else if letters == "i" then st.(style := st.style.(italic := Boolish(Trim(arg))))
             else st.(level := if n.Some? then n.value else 0),
             rest)
  {
    var tag := "\\" + (letters + u);
    assert tag[1..] == letters + u;
    hide ReadTagArg, NormFont, Trim, ParseI32, Boolish, BoldAfter;
    if letters == "fn" {
      assert tag[1..][2..] == u;
    } else {
      assert |letters| == 1 && tag[1..][1..] == u;
      assert tag[1..][0] == letters[0];
    }
  }

  lemma {:induction false} OtherStep(text: string, rest: string, st: TagState, base: StyleInfo, styles: Styles)
    requires IsOther(text) && (rest != "" ==> rest[0] == '\\')
    ensures TagStep("\\" + (text + rest), st, base, styles) == (st, rest)
  {
    var t := text + rest;
    assert ("\\" + t)[1..] == t;
    FindCharIs(text, '\\', rest);
    assert t[|text|..] == rest;
    hide ReadTagArg, NormFont, Trim, ParseI32, Boolish, BoldAfter, FindChar;
    assert text != "" ==> t[0] == text[0];
    assert |text| >= 2 ==> t[1] == text[1];
    assert |text| == 1 && rest != "" ==> t[1] == '\\';
  }

  /** One printed tag, whatever follows it. */
  lemma {:induction false} OneTagMeaning(w: Written, rest: string, st: TagState, base: StyleInfo, styles: Styles)
    requires WellFormed(w) && (rest != "" ==> rest[0] == '\\')
    ensures TagStep(Print(w) + rest, st, base, styles) == (Effect(w.tag, st, base, styles), rest)
  {
    hide *;
    PrintIs(w);
    var a := if w.inParens then "(" + Argument(w.tag) + ")" else Argument(w.tag);
    Regroup(Letters(w.tag), a, rest);
    if w.tag.Other? {
      OtherIs(w, st, base, styles);
      OtherStep(w.tag.text, rest, st, base, styles);
    } else {
      ArgumentRead(w, rest);
      EffectOfArgument(w.tag, ReadTagArg(a + rest).0, st, base, styles);
      KnownStep(Letters(w.tag), a + rest, st, base, styles);
    }
  }

  lemma PrintIs(w: Written)
    ensures Print(w) == "\\" + (Letters(w.tag) + (if w.inParens then "(" + Argument(w.tag) + ")" else Argument(w.tag)))
  {
  }

  lemma OtherIs(w: Written, st: TagState, base: StyleInfo, styles: Styles)
    requires WellFormed(w) && w.tag.Other?
    ensures IsOther(w.tag.text) && !w.inParens && Letters(w.tag) == w.tag.text && Argument(w.tag) == ""
    ensures Effect(w.tag, st, base, styles) == st
  {
    hide IsOther;
  }

  lemma Regroup(letters: string, a: string, rest: string)
    ensures "\\" + (letters + a) + rest == "\\" + (letters + (a + rest))
    ensures a == "" ==> "\\" + (letters + a) + rest == "\\" + (letters + rest)
  {
  }

  // The effect, from the argument as it is read.
  lemma EffectOfArgument(t: Tag, arg: string, st: TagState, base: StyleInfo, styles: Styles)
    requires !t.Other? && Trim(arg) == Trim(Argument(t))
    ensures var n := ParseI32(Trim(arg));
            var letters := Letters(t);
            Effect(t, st, base, styles) ==
            if letters == "fn" then SetFont(st, arg)
            else if letters == "r" then
              if Trim(arg) == "" then st.(style := base)
              else if Trim(arg) in styles then st.(style := styles[Trim(arg)]) else st
            else if letters == "b" then st.(style := st.style.(bold := BoldAfter(st.style.bold, Trim(arg))))
            else if letters == "i" then st.(style := st.style.(italic := Boolish(Trim(arg))))
            else st.(level := if n.Some? then n.value else 0)
    ensures Letters(t) in {"fn", "r", "b", "i", "p"}
  {
    match t
    case Font(name) => FontRead(name, arg); hide Trim, NormFont;
    case Reset(name) => hide Trim;
    case BoldOn => TrimOfTrimmed("");
    case Bold(w) => NumberRead(w, arg); hide Trim, ParseI32, Decimal;
    case Italic(n) => FlagOfNumber(n, arg); hide Trim, ParseI32, Decimal, Boolish;
    case Drawing(n) => NumberRead(n, arg); hide Trim, ParseI32, Decimal;
  }

  /**
    A block of tags is read as what its tags say, in order; text before the first tag says nothing.
    So an override block sets the weight, the slant, the font, the style and the drawing level that
    its last tags of each kind set.
  */
  lemma {:induction false} BlockMeaning(lead: string, tags: seq<Written>, st: TagState, base: StyleInfo, styles: Styles)
    requires '\\' !in lead && forall i :: 0 <= i < |tags| ==> WellFormed(tags[i])
    ensures ApplyTags(lead + PrintAll(tags), st, base, styles) == EffectAll(tags, st, base, styles)
    decreases |tags|, |lead|
  {
    if lead != "" {
      LeadStep(lead, PrintAll(tags), st, base, styles);
      BlockMeaning(lead[1..], tags, st, base, styles);
    } else if tags == [] {
      assert lead + PrintAll(tags) == "";
    } else {
      var rest := PrintAll(tags[1..]);
      RestIsTag(tags[1..]);
      OneTagMeaning(tags[0], rest, st, base, styles);
      BlockMeaning("", tags[1..], Effect(tags[0].tag, st, base, styles), base, styles);
      hide TagStep, Effect, Print, WellFormed;
      assert lead + PrintAll(tags) == Print(tags[0]) + rest && "" + rest == rest;
      PrintNotEmpty(tags[0]);
    }
  }

  lemma PrintNotEmpty(w: Written)
    ensures Print(w) != ""
  {
  }

  lemma {:induction false} RestIsTag(tags: seq<Written>)
    ensures PrintAll(tags) != "" ==> PrintAll(tags)[0] == '\\'
  {
  }

  lemma {:induction false} LeadStep(lead: string, rest: string, st: TagState, base: StyleInfo, styles: Styles)
    requires lead != "" && '\\' !in lead
    ensures ApplyTags(lead + rest, st, base, styles) == ApplyTags(lead[1..] + rest, st, base, styles)
  {
    assert (lead + rest)[0] == lead[0] && (lead + rest)[1..] == lead[1..] + rest;
  }
}
