/**
  Arguments of override tags: how an argument is cut out of a tag block and how integers in it
  are read.
*/
module Tags {
  import opened Text

  // `read_tag_arg` on what follows the tag's name: the argument, and what is left of the block.
  function ReadTagArg(t: string): (r: (string, string))
    ensures |r.1| <= |t|
  {
    var close := if t != "" && t[0] == '(' then FindChar(t[1..], ')') else |t|;
    if t != "" && t[0] == '(' && close < |t| - 1 then (t[1..1 + close], t[close + 2..])
    else
      var k := FindChar(t, '\\');
      (Trim(t[..k]), t[k..])
  }

  predicate IsDigit(c: char) {
    '0' <= c <= '9'
  }

  predicate AllDigits(s: string) {
    forall i :: 0 <= i < |s| ==> IsDigit(s[i])
  }

  function DigitsValue(s: string): int
    requires AllDigits(s)
  {
    if s == "" then 0 else DigitsValue(s[..|s| - 1]) * 10 + (s[|s| - 1] - '0') as int
  }

  // `str::parse::<i32>`: an optional sign, at least one digit, and the value in range.
  function ParseI32(s: string): Option<int> {
    var negative := s != "" && s[0] == '-';
    var digits := if s != "" && (s[0] == '-' || s[0] == '+') then s[1..] else s;
    if digits == "" || !AllDigits(digits) then None
    else
      var v: int := if negative then -DigitsValue(digits) else DigitsValue(digits);
      if -0x8000_0000 <= v < 0x8000_0000 then Some(v) else None
  }

  // `drawing_level_from_tag`: the first `\p` decides, whether or not it holds a number.
  function DrawingLevel(tag: string): Option<int>
    decreases |tag|
  {
    if tag == "" then None
    else if tag[0] != '\\' then DrawingLevel(tag[1..])
    else if |tag| > 1 && tag[1] == 'p' then ParseI32(Trim(ReadTagArg(tag[2..]).0))
    else DrawingLevel(tag[1 + FindChar(tag[1..], '\\')..])
  }

  lemma {:induction false} DrawingLevelSkip(t: string)
    requires t != "" && t[0] == '\\' && !(|t| > 1 && t[1] == 'p')
    ensures DrawingLevel(t) == DrawingLevel(t[1 + FindChar(t[1..], '\\')..])
  {
    hide FindChar, ReadTagArg, ParseI32, Trim;
  }

  method DrawingLevelFromTag(tag: string) returns (level: Option<int>)
    ensures level == DrawingLevel(tag)
  {
    hide ParseI32, ReadTagArg, Trim;
    var i := 0;
    while i < |tag|
      invariant 0 <= i <= |tag|
      invariant DrawingLevel(tag[i..]) == DrawingLevel(tag)
    {
      assert tag[i..][1..] == tag[i + 1..];
      if tag[i] != '\\' {
        i := i + 1;
        continue;
      }
      if i + 1 < |tag| && tag[i + 1] == 'p' {
        assert tag[i..][2..] == tag[i + 2..];
        return ParseI32(Trim(ReadTagArg(tag[i + 2..]).0));
      }
      ghost var start := i;
      i := i + 1;
      while i < |tag| && tag[i] != '\\'
        invariant start < i <= |tag|
        invariant i + FindChar(tag[i..], '\\') == start + 1 + FindChar(tag[start + 1..], '\\')
      {
        assert tag[i..][1..] == tag[i + 1..];
        i := i + 1;
      }
      DrawingLevelSkip(tag[start..]);
      assert tag[start..][1..] == tag[start + 1..] && tag[start..][i - start..] == tag[i..];
    }
    level := None;
  }
}
