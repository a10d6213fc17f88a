/**
  A changed font name can still be seen once the drawings are restored. Restoring looks for blocks
  with the drawing marker, so renaming must neither make such a block nor break one; then the first
  tag that is renamed stands in the same place of both restored texts, followed by what ends a tag
  argument.
*/
module NamesShow {
  import opened Text
  import opened FontNames
  import opened Drawings
  import opened Jobs

  // ----- Drawing markers and renaming -----

  // A name without braces that does not look like the drawing font.
  predicate Ordinary(name: string) {
    Plain(name) && '{' !in name && !StartsWith(name, DrawFamily)
  }

  // A table that renames ordinary names to ordinary names.
  predicate OrdinaryTable(c: Renaming) {
    forall k :: k in c ==> '{' !in k && k != "assdrawsubset" && Ordinary(c[k])
  }

  lemma MarkerParts()
    ensures Marker == FN + DrawFamily && Marker[0] == '\\' && '\\' !in Marker[1..]
    ensures Plain(DrawFamily)
  {
  }

  lemma PrefixChar(s: string, p: string, i: nat)
    ensures StartsWith(s, p) && i < |p| ==> i < |s| && s[i] == p[i]
  {
    if StartsWith(s, p) && i < |p| {
      assert s[..|p|][i] == s[i];
    }
  }

  lemma {:induction false} MarkerPassesPlain(p: string, x: string)
    requires '\\' !in p && HasMarker(p + x)
    ensures HasMarker(x)
    decreases |p|
  {
    if p == "" {
      assert p + x == x;
    } else {
      assert (p + x)[1..] == p[1..] + x;
      PrefixChar(p + x, Marker, 0);
      assert p[0] in p;
      MarkerPassesPlain(p[1..], x);
    }
  }

  // A plain argument that starts with a plain prefix does so on its own.
  lemma PrefixOfArg(arg: string, rest: string, p: string)
    requires Plain(p) && EndsArg(rest) && StartsWith(arg + rest, p)
    ensures StartsWith(arg, p)
  {
    PrefixChar(arg + rest, p, |arg|);
    assert forall i :: 0 <= i < |p| ==> p[i] in p;
    assert |p| <= |arg| ==> (arg + rest)[..|p|] == arg[..|p|];
  }

  // A tag, what is written for it, and what follows it.
  lemma {:induction false} TagWritten(s: string, c: Renaming) returns (a: string, a': string, e: string)
    requires OrdinaryTable(c) && IsFnTag(s)
    ensures |e| < |s| && s == FN + a + e && RewriteFnTags(s, c) == FN + a' + RewriteFnTags(e, c)
    ensures EndsArg(RewriteFnTags(e, c)) && '\\' !in "fn" + a' && (a' != a ==> !StartsWith(a', DrawFamily))
  {
    FnParts(s);
    a, e := FnArg(s), s[MatchLen(s)..];
    a' := Renamed(c, a);
    RewriteKeepsFirst(e, c);
    FontNames.RewriteStep(s, c);
    assert Plain(a');
    hide RewriteFnTags, LookupName, OrdinaryTable, Ordinary;
  }

  lemma TagTail(a: string, e: string)
    ensures (FN + a + e)[1..] == ("fn" + a) + e
  {
  }

  // Renaming creates no marker.
  lemma {:induction false} RewriteNoMarker(s: string, c: Renaming)
    requires OrdinaryTable(c) && HasMarker(RewriteFnTags(s, c))
    ensures HasMarker(s)
    decreases |s|
  {
    assert s != "";
    if IsFnTag(s) {
      hide *;
      var a, a', e := TagWritten(s, c);
      var e' := RewriteFnTags(e, c);
      if StartsWith(FN + a' + e', Marker) {
        StartsSame(a', e');
        StartsMarker(a, e);
      } else {
        HasMarkerTail(FN + a' + e');
        TagTail(a', e');
        MarkerPassesPlain("fn" + a', e');
        RewriteNoMarker(e, c);
        MarkerInSuffix(FN + a, e);
      }
    } else {
      RewriteKeepsNoTag(s, c);
      hide OrdinaryTable, RewriteFnTags;
      if StartsWith(RewriteFnTags(s, c), Marker) {
        MarkerIsTag(RewriteFnTags(s, c));
      }
      RewriteNoMarker(s[1..], c);
    }
  }

  lemma {:induction false} HasMarkerTail(s: string)
    requires HasMarker(s) && !StartsWith(s, Marker)
    ensures HasMarker(s[1..])
  {
  }

  lemma MarkerIsTag(s: string)
    requires StartsWith(s, Marker)
    ensures IsFnTag(s)
  {
    assert s[..|Marker|][0] == s[0] && s[..|Marker|][1] == s[1] && s[..|Marker|][2] == s[2];
  }

  lemma StartsSame(a: string, e: string)
    requires EndsArg(e) && StartsWith(FN + a + e, Marker)
    ensures StartsWith(a, DrawFamily)
  {
    MarkerParts();
    var s := FN + a + e;
    assert s[3..][..|DrawFamily|] == s[..|Marker|][3..] == DrawFamily;
    assert s[3..] == a + e;
    PrefixOfArg(a, e, DrawFamily);
  }

  lemma {:induction false} StartsMarker(a: string, e: string)
    requires StartsWith(a, DrawFamily)
    ensures HasMarker(FN + a + e)
  {
    MarkerParts();
    var s := FN + a + e;
    assert s[..|Marker|] == FN + a[..|DrawFamily|];
  }

  // ----- Tokens -----

  lemma {:induction false} RewriteNoBrace(s: string, c: Renaming)
    requires PlainNames(c) && '}' !in s
    ensures '}' !in RewriteFnTags(s, c)
    decreases |s|
  {
    if s != "" {
      RewriteNoBrace(s[MatchLen(s)..], c);
      if IsFnTag(s) {
        FnParts(s);
      }
    }
  }

  // The two sides of the first closing brace.
  lemma CutAtBrace(t: string) returns (p: string, q: string)
    requires '}' in t
    ensures t == p + "}" + q && '}' !in p && FindChar(t, '}') == |p|
  {
    FindCharFirst(t, '}');
    var k := FindChar(t, '}');
    p, q := t[..k], t[k + 1..];
  }

  // Whether `{p}q` is the restore pattern at its start.
  lemma {:induction false} TokenAt(p: string, q: string)
    requires '}' !in p
    ensures TokenLen("{" + p + "}" + q) > 0 <==> q != "" && q[0] != '{' && HasMarker(p)
  {
    var t := "{" + p + "}" + q;
    assert t == ("{" + p) + ("}" + q);
    FindCharIs("{" + p, '}', "}" + q);
    assert t[1..|p| + 1] == p && t[|p| + 2..] == q;
  }

  lemma {:induction false} NoTokenWithoutBrace(t: string)
    requires '}' !in t
    ensures TokenLen(t) == 0
  {
    FindCharIs(t, '}', "");
    assert t + "" == t;
  }

  // Renaming creates no token.
  lemma {:induction false} RewriteNoToken(t: string, c: Renaming)
    requires OrdinaryTable(c) && t != "" && TokenLen(t) == 0
    ensures TokenLen(RewriteFnTags(t, c)) == 0
  {
    var t' := RewriteFnTags(t, c);
    RewriteKeepsFirst(t, c);
    if t[0] == '{' {
      if '}' !in t {
        RewriteNoBrace(t, c);
        NoTokenWithoutBrace(t');
      } else {
        var p, q := CutAtBrace(t);
        var p1 := p[1..];
        assert p == "{" + p1;
        RewriteAcrossBrace(p, q, c);
        RewriteKeepsNoTag(p, c);
        RewriteNoBrace(p1, c);
        RewriteKeepsFirst(q, c);
        TokenAt(p1, q);
        TokenAt(RewriteFnTags(p1, c), RewriteFnTags(q, c));
        hide RewriteFnTags, HasMarker, TokenLen;
        if HasMarker(RewriteFnTags(p1, c)) {
          RewriteNoMarker(p1, c);
        }
      }
    }
  }

  // Every restore pattern that the restoring scan meets is a token of the drawing pass.
  predicate TokenText(t: string)
    decreases |t|
  {
    t == "" ||
    if TokenLen(t) == 0 then TokenText(t[1..])
    else StartsWith(t, Token) && |t| > |Token| && TokenLen(t) == |Token| + 1 && t[|Token|] != '\\' && TokenText(t[|Token| + 1..])
  }

  lemma {:induction false} RewriteDrawTag(rest: string, c: Renaming)
    requires EndsArg(rest) && "assdrawsubset" !in c
    ensures RewriteFnTags(FN + DrawFamily + rest, c) == FN + DrawFamily + RewriteFnTags(rest, c)
  {
    MarkerParts();
    MatchTag(DrawFamily, rest);
    FontNames.RewriteStep(FN + DrawFamily + rest, c);
    DrawFamilyLookup();
    hide RewriteFnTags, LookupName, MatchLen;
  }

  const LevelEnd := "p0}"

  lemma {:induction false} RewriteLevelEnd(ch: string, z: string, c: Renaming)
    requires '\\' !in ch
    ensures RewriteFnTags("\\" + ((LevelEnd + ch) + z), c) == "\\" + ((LevelEnd + ch) + RewriteFnTags(z, c))
  {
    var s := "\\" + ((LevelEnd + ch) + z);
    assert s[1..] == (LevelEnd + ch) + z;
    RewriteKeepsNoTag(s, c);
    hide RewriteFnTags;
    RewriteWithoutTags(LevelEnd + ch, z, c);
  }

  lemma TokenParts(ch: string, z: string)
    ensures Token + ch + z == "{" + (FN + DrawFamily + ("\\" + ((LevelEnd + ch) + z)))
  {
    assert Token == "{" + (FN + DrawFamily + ("\\" + LevelEnd));
  }

  lemma {:induction false} RewriteToken(ch: string, z: string, c: Renaming)
    requires '\\' !in ch && "assdrawsubset" !in c
    ensures RewriteFnTags(Token + ch + z, c) == Token + ch + RewriteFnTags(z, c)
  {
    hide RewriteFnTags;
    TokenParts(ch, z);
    TokenParts(ch, RewriteFnTags(z, c));
    RewriteLevelEnd(ch, z, c);
    var tail := "\\" + ((LevelEnd + ch) + z);
    RewriteDrawTag(tail, c);
    RewriteWithoutTags("{", FN + DrawFamily + tail, c);
  }

  // ----- Restoring and renaming -----

  lemma FnTagParts(t: string) returns (a: string, e: string)
    requires IsFnTag(t)
    ensures a == FnArg(t) && e == t[MatchLen(t)..] && '\\' !in "fn" + a && t[1..] == ("fn" + a) + e
    ensures [t[0]] + ("fn" + a) == FN + a
    ensures forall c: Renaming :: Renamed(c, a) == a ==> MatchOut(t, c) == FN + a
  {
    FnParts(t);
    a, e := FnArg(t), t[MatchLen(t)..];
    hide LookupName, MatchLen;
  }

  // A tag that is not renamed is copied character by character.
  lemma {:induction false} RewriteKeptTag(t: string, c: Renaming)
    requires IsFnTag(t) && Renamed(c, FnArg(t)) == FnArg(t)
    ensures RewriteFnTags(t, c) == [t[0]] + RewriteFnTags(t[1..], c)
  {
    var a, e := FnTagParts(t);
    hide *;
    RewriteWithoutTags("fn" + a, e, c);
    FontNames.RewriteStep(t, c);
    Assoc([t[0]], "fn" + a, RewriteFnTags(e, c));
  }

  lemma {:induction false} RestoreEndsArg(e: string, dm: DrawMap)
    requires EndsArg(e)
    ensures EndsArg(Restore(e, dm))
  {
    if e != "" {
      assert TokenLen(e) == 0;
      RestoreStep(e, dm);
    }
  }

  lemma LookupKeepsBrace(name: string)
    requires '{' in name
    ensures '{' in LookupName(name)
  {
    var a, b := TrimSplits(name);
    var t := Trim(name);
    assert '{' in t by { assert name == a + t + b; }
    TrimAtsKeeps(t);
    var u := TrimAts(t);
    var x, y := TrimSplits(u);
    assert '{' in Trim(u) by { assert u == x + Trim(u) + y; }
    var n := Trim(u);
    hide Trim, TrimAts;
    assert n == NormFont(name);
    var i :| 0 <= i < |n| && n[i] == '{';
    assert Lower(n)[i] == '{';
  }

  lemma {:induction false} TrimAtsKeeps(s: string)
    requires '{' in s
    ensures '{' in TrimAts(s)
  {
    if s[0] == '@' {
      TrimAtsKeeps(s[1..]);
    }
  }

  // Two arguments that end alike in equal texts are equal.
  lemma ArgsEqual(a: string, x: string, b: string, y: string)
    requires Plain(a) && Plain(b) && EndsArg(x) && EndsArg(y) && FN + a + x == FN + b + y
    ensures a == b
  {
    MatchTag(a, x);
    MatchTag(b, y);
  }

  // A renamed tag shows in the restored text.
  lemma {:induction false} RenamedTagShows(t: string, c: Renaming, dm: DrawMap)
    requires OrdinaryTable(c) && IsFnTag(t) && Renamed(c, FnArg(t)) != FnArg(t)
    ensures Restore(RewriteFnTags(t, c), dm) != Restore(t, dm)
  {
    FnParts(t);
    var a, e := FnArg(t), t[MatchLen(t)..];
    var a', e' := Renamed(c, a), RewriteFnTags(e, c);
    if '{' in a {
      LookupKeepsBrace(a);
    }
    FontNames.RewriteStep(t, c);
    RewriteKeepsFirst(e, c);
    RestoreEndsArg(e, dm);
    RestoreEndsArg(e', dm);
    hide RewriteFnTags, LookupName, Restore, MatchLen, FnArg;
    RestoreAfterPlain(FN + a, e, dm);
    RestoreAfterPlain(FN + a', e', dm);
    if Restore(RewriteFnTags(t, c), dm) == Restore(t, dm) {
      ArgsEqual(a, Restore(e, dm), a', Restore(e', dm));
    }
  }

  lemma TokenParted(t: string) returns (ch: string, rest: string)
    requires TokenText(t) && t != "" && TokenLen(t) > 0
    ensures |ch| == 1 && ch[0] != '{' && '\\' !in ch && t == Token + ch + rest && rest == t[|Token| + 1..] && TokenText(rest)
  {
    ch, rest := [t[|Token|]], t[|Token| + 1..];
    assert t[..|Token|] == Token;
  }

  // A token is restored alike before and after, so the difference has to be in what follows it.
  lemma {:induction false} TokenUnseen(t: string, c: Renaming, dm: DrawMap)
    requires OrdinaryTable(c) && TokenText(t) && t != "" && TokenLen(t) > 0
    requires Restore(RewriteFnTags(t, c), dm) == Restore(t, dm)
    ensures var rest := t[|Token| + 1..];
            && TokenText(rest) && Restore(RewriteFnTags(rest, c), dm) == Restore(rest, dm)
            && (RewriteFnTags(rest, c) == rest ==> RewriteFnTags(t, c) == t)
  {
    var ch, rest := TokenParted(t);
    assert "assdrawsubset" !in c;
    hide *;
    RewriteToken(ch, rest, c);
    ShowToken(ch, rest, dm);
    ShowToken(ch, RewriteFnTags(rest, c), dm);
    CancelFront(Shown(ch, dm), Restore(RewriteFnTags(rest, c), dm), Restore(rest, dm));
  }

  lemma CancelFront(front: string, a: string, b: string)
    requires front + a == front + b
    ensures a == b
  {
    assert (front + a)[|front|..] == a && (front + b)[|front|..] == b;
  }

  const TokenBlock := "{\\fnASSDrawSubset\\p0"

  lemma TokenBlockFacts()
    ensures Token == TokenBlock + "}" && '}' !in TokenBlock && HasMarker(TokenBlock[1..])
  {
    assert TokenBlock[1..] == "\\fnASSDrawSubset\\p0";
    assert TokenBlock[1..][..|Marker|] == Marker;
  }

  function Shown(ch: string, dm: DrawMap): string {
    if ch in dm then dm[ch].data else Token + ch
  }

  lemma {:induction false} ShowToken(ch: string, z: string, dm: DrawMap)
    requires |ch| == 1 && ch[0] != '{'
    ensures Restore(Token + ch + z, dm) == Shown(ch, dm) + Restore(z, dm)
  {
    var t, n := Token + ch + z, |TokenBlock|;
    TokenBlockFacts();
    hide HasMarker;
    assert t == TokenBlock + ("}" + ch + z);
    FindCharIs(TokenBlock, '}', "}" + ch + z);
    assert t[1..n] == TokenBlock[1..] && t[n + 1] == ch[0];
    assert TokenLen(t) == n + 2;
    assert [t[n + 1]] == ch && t[n + 2..] == z && t[..n + 2] == Token + ch;
  }

  // A character that is copied is restored alike, so the difference has to be after it.
  lemma {:induction false} CharUnseen(t: string, c: Renaming, dm: DrawMap)
    requires OrdinaryTable(c) && t != "" && TokenLen(t) == 0
    requires IsFnTag(t) ==> Renamed(c, FnArg(t)) == FnArg(t)
    requires Restore(RewriteFnTags(t, c), dm) == Restore(t, dm)
    ensures Restore(RewriteFnTags(t[1..], c), dm) == Restore(t[1..], dm)
    ensures RewriteFnTags(t[1..], c) == t[1..] ==> RewriteFnTags(t, c) == t
  {
    if IsFnTag(t) {
      RewriteKeptTag(t, c);
    } else {
      RewriteKeepsNoTag(t, c);
    }
    RewriteNoToken(t, c);
    hide *;
    RestoreStep(t, dm);
    RestoreStep(RewriteFnTags(t, c), dm);
    assert RewriteFnTags(t, c)[1..] == RewriteFnTags(t[1..], c);
    assert t == [t[0]] + t[1..];
  }

  lemma {:induction false} TokenTextTail(t: string)
    requires TokenText(t) && t != "" && TokenLen(t) == 0
    ensures TokenText(t[1..])
  {
  }

  /**
    A renaming of ordinary names that cannot be seen after the drawings are restored changed
    nothing before.
  */
  lemma {:induction false} RestoredUnchanged(t: string, c: Renaming, dm: DrawMap)
    requires OrdinaryTable(c) && TokenText(t) && Restore(RewriteFnTags(t, c), dm) == Restore(t, dm)
    ensures RewriteFnTags(t, c) == t
    decreases |t|
  {
    if t == "" {
      assert RewriteFnTags(t, c) == "";
    } else {
      hide *;
      if TokenLen(t) > 0 {
        TokenUnseen(t, c, dm);
        RestoredUnchanged(t[|Token| + 1..], c, dm);
      } else if IsFnTag(t) && Renamed(c, FnArg(t)) != FnArg(t) {
        RenamedTagShows(t, c, dm);
      } else {
        CharUnseen(t, c, dm);
        TokenTextTail(t);
        RestoredUnchanged(t[1..], c, dm);
      }
    }
  }
}
