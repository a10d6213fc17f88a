/**
  Font names in a script: how they are normalised, how `\fn` tags and Style lines are renamed,
  and how two renamings compose. The tag pattern is an explicit leftmost scanner: a match is a tag
  with its argument, every other character stands for itself, and a match never overlaps the one
  before it.
*/
module FontNames {
  import opened Text

  type Renaming = map<string, string>

  function TrimAts(s: string): (r: string)
    ensures |r| <= |s|
  {
    if |s| > 0 && s[0] == '@' then TrimAts(s[1..]) else s
  }

  // `norm_font`
  function NormFont(name: string): string {
    Trim(TrimAts(Trim(name)))
  }

  // `normalize_lookup_name`
  function LookupName(name: string): string {
    Lower(NormFont(name))
  }

  // `\\fn([^\\}]*)`: the argument runs up to the next backslash or closing brace.
  function ArgEnd(s: string): (k: nat)
    ensures k <= |s|
  {
    if |s| == 0 || s[0] == '\\' || s[0] == '}' then 0 else 1 + ArgEnd(s[1..])
  }

  const FN := "\\fn"

  predicate IsFnTag(s: string) {
    |s| >= 3 && s[0] == '\\' && s[1] == 'f' && s[2] == 'n'
  }

  // A tag with its argument is one match; any other character stands for itself.
  function MatchLen(s: string): (n: nat)
    requires s != ""
    ensures 1 <= n <= |s|
  {
    if IsFnTag(s) then 3 + ArgEnd(s[3..]) else 1
  }

  function FnArg(s: string): string
    requires IsFnTag(s)
  {
    s[3..MatchLen(s)]
  }

  function Renamed(m: Renaming, arg: string): string {
    if LookupName(arg) in m then m[LookupName(arg)] else arg
  }

  function MatchOut(s: string, m: Renaming): string
    requires s != ""
  {
    if IsFnTag(s) then FN + Renamed(m, FnArg(s)) else s[..1]
  }

  // `rewrite_fn_tags`: all leftmost, non-overlapping matches of the tag are replaced.
  function RewriteFnTags(s: string, m: Renaming): string
    decreases |s|
  {
    if s == "" then "" else MatchOut(s, m) + RewriteFnTags(s[MatchLen(s)..], m)
  }

  function StyleFieldCount(format: seq<string>): nat {
    if |format| > 23 then |format| else 23
  }

  function FontIndex(format: seq<string>): (k: nat)
    ensures k < StyleFieldCount(format)
  {
    var k := Position(format, "fontname");
    if k < |format| then k else 1
  }

  // The indentation of a `Style:` line and its fields.
  function StyleFields(line: string, format: seq<string>): Option<(string, seq<string>)> {
    var start := TrimStart(line);
    match StripPrefixCi(start, "Style:")
    case None => None
    case Some(rest) =>
      Some((line[..|line| - |start|], SplitFields(TrimStart(rest), StyleFieldCount(format))))
  }

  function StyleLine(lead: string, fields: seq<string>): string {
    lead + "Style: " + Join(fields, ",")
  }

  // `rewrite_style_line`
  function RewriteStyleLine(line: string, format: seq<string>, m: Renaming): string {
    match StyleFields(line, format)
    case None => line
    case Some((lead, fields)) =>
      var k := FontIndex(format);
      if |fields| <= k then line
      else
        var key := LookupName(fields[k]);
        if key in m then StyleLine(lead, fields[k := m[key]]) else line
  }

  // ----- Clean names -----

  // A character that no part of the format gives a meaning to.
  predicate CleanChar(c: char) {
    !IsWhitespace(c) && c !in "\\{}()[],@"
  }

  predicate CleanName(name: string) {
    name != "" && forall c :: c in name ==> CleanChar(c)
  }

  predicate CleanNames(m: Renaming) {
    forall k :: k in m ==> CleanName(m[k])
  }

  lemma NormFontOfClean(name: string)
    requires CleanName(name)
    ensures NormFont(name) == name && Trimmed(name)
  {
    assert Trimmed(name) by {
      assert name[0] in name && name[|name| - 1] in name;
    }
    TrimOfTrimmed(name);
    assert CleanChar(name[0]);
  }

  // ----- Renaming text -----

  /** Renaming with `m` and then with `r`, as one renaming. */
  function Compose(m: Renaming, r: Renaming): Renaming {
    map k | k in m.Keys + r.Keys :: if k in m then Renamed(r, m[k]) else r[k]
  }

  lemma {:induction false} ArgEndIs(a: string, b: string)
    requires forall c :: c in a ==> c != '\\' && c != '}'
    requires |b| > 0 ==> b[0] == '\\' || b[0] == '}'
    ensures ArgEnd(a + b) == |a|
  {
    if a == "" {
      assert a + b == b;
    } else {
      assert a[0] in a;
      assert (a + b)[1..] == a[1..] + b;
      assert forall c :: c in a[1..] ==> c in a;
      ArgEndIs(a[1..], b);
    }
  }

  lemma {:induction false} ArgEndFacts(s: string)
    ensures forall c :: c in s[..ArgEnd(s)] ==> c != '\\' && c != '}'
    ensures ArgEnd(s) < |s| ==> s[ArgEnd(s)] == '\\' || s[ArgEnd(s)] == '}'
  {
    if |s| > 0 && s[0] != '\\' && s[0] != '}' {
      ArgEndFacts(s[1..]);
      assert s[..ArgEnd(s)] == [s[0]] + s[1..][..ArgEnd(s[1..])];
    }
  }

  // No character of a tag argument ends the argument.
  predicate Plain(arg: string) {
    forall c :: c in arg ==> c != '\\' && c != '}'
  }

  // What may follow a tag argument.
  predicate EndsArg(rest: string) {
    rest == "" || rest[0] == '\\' || rest[0] == '}'
  }

  lemma FnParts(s: string)
    requires IsFnTag(s)
    ensures Plain(FnArg(s)) && EndsArg(s[MatchLen(s)..])
    ensures s == FN + FnArg(s) + s[MatchLen(s)..]
  {
    ArgEndFacts(s[3..]);
    assert FnArg(s) == s[3..][..ArgEnd(s[3..])];
  }

  lemma MatchTag(arg: string, rest: string)
    requires Plain(arg) && EndsArg(rest)
    ensures var s := FN + arg + rest;
            IsFnTag(s) && MatchLen(s) == 3 + |arg| && FnArg(s) == arg && s[MatchLen(s)..] == rest
  {
    var s := FN + arg + rest;
    assert s[3..] == arg + rest;
    ArgEndIs(arg, rest);
  }

  // Renaming keeps the first character, so it never creates or destroys a tag.
  lemma {:induction false} RewriteKeepsFirst(s: string, m: Renaming)
    ensures s == "" <==> RewriteFnTags(s, m) == ""
    ensures s != "" ==> RewriteFnTags(s, m)[0] == s[0]
  {
  }

  lemma {:induction false} RewriteKeepsNoTag(s: string, m: Renaming)
    requires s != "" && !IsFnTag(s)
    ensures RewriteFnTags(s, m) == [s[0]] + RewriteFnTags(s[1..], m)
    ensures !IsFnTag(RewriteFnTags(s, m))
  {
    RewriteKeepsFirst(s[1..], m);
    if |s| > 1 && s[0] == '\\' && s[1] == 'f' {
      RewriteKeepsFirst(s[2..], m);
      assert s[1..][1..] == s[2..];
    }
  }

  lemma RenamedIsPlain(m: Renaming, arg: string)
    requires CleanNames(m) && Plain(arg)
    ensures Plain(Renamed(m, arg))
  {
  }

  lemma ComposeRenames(m: Renaming, r: Renaming, arg: string)
    ensures Renamed(r, Renamed(m, arg)) == Renamed(Compose(m, r), arg)
  {
  }

  // One match of the renamed text is the image of one match of the text.
  lemma {:induction false} MatchCompose(s: string, m: Renaming, r: Renaming)
    requires CleanNames(m) && s != ""
    ensures var t := RewriteFnTags(s, m);
            t != "" && MatchOut(t, r) == MatchOut(s, Compose(m, r))
            && t[MatchLen(t)..] == RewriteFnTags(s[MatchLen(s)..], m)
  {
    var rest := s[MatchLen(s)..];
    if IsFnTag(s) {
      FnParts(s);
      RenamedIsPlain(m, FnArg(s));
      RewriteKeepsFirst(rest, m);
      MatchTag(Renamed(m, FnArg(s)), RewriteFnTags(rest, m));
      ComposeRenames(m, r, FnArg(s));
    } else {
      RewriteKeepsNoTag(s, m);
    }
  }

  /** Two renamings in sequence are one renaming, on every text whatever its shape. */
  lemma {:induction false} RewriteCompose(s: string, m: Renaming, r: Renaming)
    requires CleanNames(m)
    ensures RewriteFnTags(RewriteFnTags(s, m), r) == RewriteFnTags(s, Compose(m, r))
    decreases |s|
  {
    hide MatchOut, MatchLen, Compose;
    if s != "" {
      MatchCompose(s, m, r);
      RewriteCompose(s[MatchLen(s)..], m, r);
    }
  }

  // Every `\fn` argument that `m` renames is already spelled the way `m` spells it.
  predicate SpelledBy(s: string, m: Renaming)
    decreases |s|
  {
    s == "" || (MatchOut(s, m) == s[..MatchLen(s)] && SpelledBy(s[MatchLen(s)..], m))
  }

  // A text spelled that way is left alone.
  lemma {:induction false} RewriteUnchanged(s: string, m: Renaming)
    requires SpelledBy(s, m)
    ensures RewriteFnTags(s, m) == s
    decreases |s|
  {
    hide MatchOut, MatchLen;
    if s != "" {
      RewriteUnchanged(s[MatchLen(s)..], m);
      assert s == s[..MatchLen(s)] + s[MatchLen(s)..];
    }
  }

  // New names that a tag argument can hold.
  predicate PlainNames(m: Renaming) {
    forall k :: k in m ==> Plain(m[k])
  }

  // The first match of the renamed text is what was written for the first match of the text.
  lemma {:induction false} FirstMatchWritten(s: string, m: Renaming)
    requires PlainNames(m) && s != ""
    ensures var t := RewriteFnTags(s, m);
            t != "" && t[..MatchLen(t)] == MatchOut(s, m) && t[MatchLen(t)..] == RewriteFnTags(s[MatchLen(s)..], m)
  {
    var rest := s[MatchLen(s)..];
    if IsFnTag(s) {
      FnParts(s);
      RewriteKeepsFirst(rest, m);
      MatchTag(Renamed(m, FnArg(s)), RewriteFnTags(rest, m));
    } else {
      RewriteKeepsNoTag(s, m);
    }
  }

  /** A text is left alone exactly when it is spelled that way. */
  lemma {:induction false} UnchangedIsSpelled(s: string, m: Renaming)
    requires PlainNames(m)
    ensures RewriteFnTags(s, m) == s <==> SpelledBy(s, m)
    decreases |s|
  {
    if SpelledBy(s, m) {
      RewriteUnchanged(s, m);
    } else {
      FirstMatchWritten(s, m);
      hide MatchOut, MatchLen, RewriteFnTags;
      UnchangedIsSpelled(s[MatchLen(s)..], m);
    }
  }

  lemma MatchChars(s: string, m: Renaming, c: char)
    requires CleanNames(m) && s != "" && c in MatchOut(s, m)
    ensures c in s || CleanChar(c)
  {
    if IsFnTag(s) {
      FnParts(s);
    }
  }

  // Renaming adds clean characters only.
  lemma {:induction false} RewriteChars(s: string, m: Renaming, c: char)
    requires CleanNames(m) && c in RewriteFnTags(s, m)
    ensures c in s || CleanChar(c)
    decreases |s|
  {
    hide MatchOut, MatchLen;
    if c in MatchOut(s, m) {
      MatchChars(s, m, c);
    } else {
      RewriteChars(s[MatchLen(s)..], m, c);
    }
  }

  lemma MatchAcrossBrace(a: string, b: string, m: Renaming)
    requires a != ""
    ensures var s := a + "}" + b;
            MatchOut(s, m) == MatchOut(a, m) && s[MatchLen(s)..] == a[MatchLen(a)..] + "}" + b
  {
    var s := a + "}" + b;
    if IsFnTag(a) {
      FnParts(a);
      var rest := a[MatchLen(a)..] + "}" + b;
      MatchTag(FnArg(a), rest);
      assert s == FN + FnArg(a) + rest;
    } else {
      assert s[|a|] == '}';
      assert !IsFnTag(s);
    }
  }

  lemma {:induction false} RewriteStep(s: string, m: Renaming)
    requires s != ""
    ensures RewriteFnTags(s, m) == MatchOut(s, m) + RewriteFnTags(s[MatchLen(s)..], m)
  {
  }

  // A closing brace separates what is renamed before it from what is renamed after it.
  lemma {:induction false} RewriteAcrossBrace(a: string, b: string, m: Renaming)
    ensures RewriteFnTags(a + "}" + b, m) == RewriteFnTags(a, m) + "}" + RewriteFnTags(b, m)
    decreases |a|
  {
    if a == "" {
      assert a + "}" + b == "}" + b && ("}" + b)[1..] == b;
    } else {
      hide *;
      MatchAcrossBrace(a, b, m);
      RewriteStep(a, m);
      RewriteStep(a + "}" + b, m);
      var rest := a[MatchLen(a)..];
      RewriteAcrossBrace(rest, b, m);
      Assoc(MatchOut(a, m), RewriteFnTags(rest, m), "}");
      Assoc(MatchOut(a, m), RewriteFnTags(rest, m) + "}", RewriteFnTags(b, m));
    }
  }

  // ----- Renaming and trimming -----

  lemma {:induction false} RewriteWithoutTags(a: string, s: string, m: Renaming)
    requires '\\' !in a
    ensures RewriteFnTags(a + s, m) == a + RewriteFnTags(s, m)
    decreases |a|
  {
    if a == "" {
      assert a + s == s;
    } else {
      assert (a + s)[0] == a[0] && (a + s)[1..] == a[1..] + s;
      RewriteKeepsNoTag(a + s, m);
      hide RewriteFnTags;
      RewriteWithoutTags(a[1..], s, m);
      assert a == [a[0]] + a[1..];
      Assoc([a[0]], a[1..], RewriteFnTags(s, m));
    }
  }

  lemma BlankHasNoTags(w: string)
    requires Blank(w)
    ensures Plain(w)
  {
  }

  lemma {:induction false} RewriteBlank(w: string, m: Renaming)
    requires Blank(w)
    ensures RewriteFnTags(w, m) == w
  {
    BlankHasNoTags(w);
    RewriteWithoutTags(w, "", m);
    assert w + "" == w && w + RewriteFnTags("", m) == w;
  }

  lemma LookupOfBlankEnd(arg: string, w: string)
    requires Blank(w)
    ensures LookupName(arg + w) == LookupName(arg)
  {
    assert "" + arg + w == arg + w;
    TrimAround("", arg, w);
  }

  lemma {:induction false} LastTag(arg: string, m: Renaming)
    requires Plain(arg)
    ensures RewriteFnTags(FN + arg, m) == FN + Renamed(m, arg)
  {
    MatchTag(arg, "");
    assert FN + arg + "" == FN + arg;
  }

  // A tag at the end of a text, with blank text after it.
  lemma {:induction false} LastTagBlankEnd(arg: string, w: string, m: Renaming)
    requires Plain(arg) && Plain(w) && Blank(w)
    ensures var s := RewriteFnTags(FN + arg + w, m);
            s == RewriteFnTags(FN + arg, m) || s == RewriteFnTags(FN + arg, m) + w
  {
    LastTag(arg, m);
    LastTag(arg + w, m);
    LookupOfBlankEnd(arg, w);
    hide LookupName, RewriteFnTags;
    Assoc(FN, arg, w);
  }

  lemma {:induction false} MatchBlankEnd(t: string, w: string, m: Renaming)
    requires Blank(w) && t != ""
    ensures var s, n := t + w, MatchLen(t);
            if n < |t| then MatchOut(s, m) == MatchOut(t, m) && s[MatchLen(s)..] == t[n..] + w
            else RewriteFnTags(s, m) == RewriteFnTags(t, m) || RewriteFnTags(s, m) == RewriteFnTags(t, m) + w
  {
    var s, n := t + w, MatchLen(t);
    BlankHasNoTags(w);
    if IsFnTag(t) {
      FnParts(t);
      var arg, rest := FnArg(t), t[n..];
      if rest == "" {
        assert t == FN + arg;
        LastTagBlankEnd(arg, w, m);
      } else {
        assert s == FN + arg + (rest + w);
        MatchTag(arg, rest + w);
      }
    } else {
      CharBlankEnd(t, w, m);
    }
  }

  // The same for a character that starts no tag.
  lemma {:induction false} CharBlankEnd(t: string, w: string, m: Renaming)
    requires Blank(w) && t != "" && !IsFnTag(t)
    ensures var s := t + w;
            && !IsFnTag(s) && s[..1] == t[..1] && s[1..] == t[1..] + w
            && (|t| == 1 ==> RewriteFnTags(s, m) == RewriteFnTags(t, m) + w)
  {
    var s := t + w;
    assert |t| < |s| ==> s[|t|] == w[0];
    assert |t| + 1 < |s| ==> s[|t| + 1] == w[1];
    assert s[..1] == t[..1] && s[1..] == t[1..] + w;
    if |t| == 1 {
      assert s[1..] == w && t[1..] == "";
      RewriteBlank(w, m);
      hide LookupName, Blank;
      assert RewriteFnTags(t, m) == t[..1] + "" == t[..1];
    }
  }

  // Blank text at the end is either kept or swallowed with the last argument.
  lemma {:induction false} RewriteBlankEnd(t: string, w: string, m: Renaming)
    requires Blank(w)
    ensures RewriteFnTags(t + w, m) == RewriteFnTags(t, m) || RewriteFnTags(t + w, m) == RewriteFnTags(t, m) + w
    decreases |t|
  {
    if t == "" {
      assert t + w == w;
      RewriteBlank(w, m);
      assert RewriteFnTags(t, m) + w == w;
    } else {
      MatchBlankEnd(t, w, m);
      var n := MatchLen(t);
      if n < |t| {
        RewriteStep(t, m);
        RewriteStep(t + w, m);
        hide MatchOut, MatchLen, RewriteFnTags;
        RewriteBlankEnd(t[n..], w, m);
        Assoc(MatchOut(t, m), RewriteFnTags(t[n..], m), w);
      }
    }
  }

  // The last character is kept, or it is the last one of a new name.
  lemma {:induction false} RewriteLastChar(s: string, m: Renaming)
    requires CleanNames(m) && s != ""
    ensures var t := RewriteFnTags(s, m);
            t != "" && (t[|t| - 1] == s[|s| - 1] || CleanChar(t[|t| - 1]))
    decreases |s|
  {
    hide *;
    RewriteStep(s, m);
    var rest := s[MatchLen(s)..];
    if rest == "" {
      MatchLastChar(s, m);
      RewriteNothing(m);
      assert MatchOut(s, m) + "" == MatchOut(s, m);
    } else {
      RewriteLastChar(rest, m);
      assert rest[|rest| - 1] == s[|s| - 1];
    }
  }

  lemma {:induction false} RewriteNothing(m: Renaming)
    ensures RewriteFnTags("", m) == ""
  {
  }

  lemma MatchLastChar(s: string, m: Renaming)
    requires CleanNames(m) && s != "" && MatchLen(s) == |s|
    ensures var t := MatchOut(s, m);
            t != "" && (t[|t| - 1] == s[|s| - 1] || CleanChar(t[|t| - 1]))
  {
    if IsFnTag(s) {
      FnParts(s);
      var arg := FnArg(s);
      if LookupName(arg) in m {
        var name := m[LookupName(arg)];
        assert name[|name| - 1] in name;
      } else {
        assert s == FN + arg + "";
      }
    }
  }

  /** Renaming commutes with trimming. */
  lemma {:induction false} RewriteTrim(s: string, m: Renaming)
    requires CleanNames(m)
    ensures Trim(RewriteFnTags(s, m)) == RewriteFnTags(Trim(s), m)
  {
    var a, b := TrimSplits(s);
    var t := Trim(s);
    BlankHasNoTags(a);
    hide Trim;
    if t == "" {
      assert Blank(s) by { assert s == a + b; }
      RewriteBlank(s, m);
    } else {
      var u := RewriteFnTags(t, m);
      RewriteKeepsFirst(t, m);
      RewriteLastChar(t, m);
      hide RewriteFnTags;
      Assoc(a, t, b);
      RewriteWithoutTags(a, t + b, m);
      RewriteBlankEnd(t, b, m);
      assert Trimmed(u);
      TrimIs(a, u, b);
      TrimIs(a, u, "");
      assert a + u + "" == a + u;
      Assoc(a, u, b);
    }
  }

  // Up to the first backslash of the result, nothing was renamed.
  lemma {:induction false} RewritePlainPrefix(s: string, m: Renaming, n: nat)
    requires n <= |RewriteFnTags(s, m)| && '\\' !in RewriteFnTags(s, m)[..n]
    ensures n <= |s| && s[..n] == RewriteFnTags(s, m)[..n]
    decreases n
  {
    if n > 0 {
      var t := RewriteFnTags(s, m);
      RewriteKeepsFirst(s, m);
      assert t[0] in t[..n];
      RewriteKeepsNoTag(s, m);
      assert t[1..] == RewriteFnTags(s[1..], m) && t[..n][1..] == t[1..][..n - 1];
      assert '\\' !in t[1..][..n - 1] by {
        assert forall c :: c in t[..n][1..] ==> c in t[..n];
      }
      RewritePlainPrefix(s[1..], m, n - 1);
      assert s[..n] == [s[0]] + s[1..][..n - 1];
    }
  }

  // ----- Renaming Style lines -----

  lemma {:induction false} JoinStart(fields: seq<string>)
    requires |fields| >= 2 && CleanFields(fields)
    ensures Join(fields, ",") != "" && !IsWhitespace(Join(fields, ",")[0])
  {
  }

  lemma StyleFieldsFacts(line: string, format: seq<string>)
    requires StyleFields(line, format).Some?
    ensures var (lead, fields) := StyleFields(line, format).value;
            Blank(lead) && CleanFields(fields) && |fields| == StyleFieldCount(format)
  {
    var start := TrimStart(line);
    var a := TrimStartFacts(line);
    assert line[..|line| - |start|] == a;
    SplitFieldsClean(TrimStart(start[6..]), StyleFieldCount(format));
  }

  /** A printed Style line reads back as the fields it was printed from. */
  lemma StyleFieldsOfLine(lead: string, fields: seq<string>, format: seq<string>)
    requires Blank(lead) && CleanFields(fields) && |fields| == StyleFieldCount(format)
    ensures StyleFields(StyleLine(lead, fields), format) == Some((lead, fields))
  {
    var joined := Join(fields, ",");
    var line, start := StyleLine(lead, fields), "Style: " + joined;
    assert line == lead + start;
    TrimStartOfBlank(lead, start);
    assert TrimStart(start) == start;
    assert line[..|line| - |start|] == lead;
    JoinStart(fields);
    assert start[..6] == "Style:" && start[6..] == " " + joined;
    assert StripPrefixCi(start, "Style:") == Some(" " + joined);
    TrimStartOfBlank(" ", joined);
    assert TrimStart(joined) == joined;
    SplitJoin(fields);
  }

  lemma CleanFieldUpdate(fields: seq<string>, k: nat, name: string)
    requires CleanFields(fields) && k < |fields| && CleanName(name)
    ensures CleanFields(fields[k := name])
  {
    NormFontOfClean(name);
    assert ',' !in name;
  }

  /** The same law for Style lines, which are split, changed and joined at each renaming. */
  lemma StyleCompose(line: string, format: seq<string>, m: Renaming, r: Renaming)
    requires CleanNames(m)
    ensures RewriteStyleLine(RewriteStyleLine(line, format, m), format, r) ==
            RewriteStyleLine(line, format, Compose(m, r))
  {
    hide StyleFields, LookupName, StyleLine;
    if StyleFields(line, format).Some? {
      StyleFieldsFacts(line, format);
      var (lead, fields) := StyleFields(line, format).value;
      var k := FontIndex(format);
      var key := LookupName(fields[k]);
      if key in m {
        CleanFieldUpdate(fields, k, m[key]);
        StyleFieldsOfLine(lead, fields[k := m[key]], format);
        assert fields[k := m[key]][k := Renamed(r, m[key])] == fields[k := Renamed(r, m[key])];
      }
    }
  }

  // The Style line printed again from its own fields, as every renaming prints it.
  function NormalStyleLine(line: string, format: seq<string>): string {
    match StyleFields(line, format)
    case None => line
    case Some((lead, fields)) => StyleLine(lead, fields)
  }
}
