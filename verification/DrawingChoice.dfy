/**
  Which drawings the drawing pass takes out of a text, and which it leaves.
*/
module DrawingChoice {
  import opened Text
  import opened Tags
  import opened Drawings

  // A text with the braces of one block written out: what is before it has no brace.
  lemma {:induction false} FirstBlockIs(a: string, t: string, rest: string)
    requires '{' !in a && '}' !in t
    ensures var s, close := a + "{" + t + "}" + rest, |a| + 1 + |t|;
            && FirstBlock(s) == Some((|a|, close)) && s[..|a|] == a && s[|a| + 1..close] == t
            && s[close + 1..] == rest && s[..close + 1] == a + "{" + t + "}" && s != ""
  {
    var s, tail := a + "{" + t + "}" + rest, ("{" + t) + ("}" + rest);
    assert s == a + tail;
    FindCharIs(a, '{', tail);
    assert s[|a|..] == tail;
    FindCharIs("{" + t, '}', "}" + rest);
    hide FindChar;
    PartsOf(a, t, rest);
  }

  lemma PartsOf(a: string, t: string, rest: string)
    ensures var s, close := a + "{" + t + "}" + rest, |a| + 1 + |t|;
            s[..|a|] == a && s[|a| + 1..close] == t && s[close + 1..] == rest && s[..close + 1] == a + "{" + t + "}" && s != ""
  {
  }

  /** There is no block exactly when no opening brace has a closing one after it. */
  lemma {:induction false} NoBlockExactly(s: string)
    ensures FirstBlock(s) == None <==> forall i, j :: 0 <= i < j < |s| && s[i] == '{' ==> s[j] != '}'
  {
    var open := FindChar(s, '{');
    var rest := s[open..];
    FindCharFirst(s, '{');
    assert forall i :: 0 <= i < open ==> s[i] == s[..open][i];
    FindCharFirst(rest, '}');
    var len := FindChar(rest, '}');
    if open < |s| && len == |rest| {
      forall i, j | 0 <= i < j < |s| && s[i] == '{'
        ensures s[j] != '}'
      {
        assert i >= open;
        assert rest[..len][j - open] == s[j];
      }
    } else if open == |s| {
      assert s[..open] == s;
    }
  }

  // ----- Blocks -----

  // Text before a block, and the block's tags.
  datatype Piece = Piece(text: string, tags: string)

  // A piece whose block does not turn drawing off.
  predicate StaysOn(p: Piece) {
    '{' !in p.text && '}' !in p.tags && DrawingLevel(p.tags) != Some(0)
  }

  function Print(p: Piece): string {
    p.text + "{" + p.tags + "}"
  }

  function PrintAll(pieces: seq<Piece>): string {
    if pieces == [] then "" else Print(pieces[0]) + PrintAll(pieces[1..])
  }

  lemma ThreeParts(p: Piece, a: string, b: string)
    ensures Print(p) + a + b == p.text + "{" + p.tags + "}" + (a + b)
    ensures Print(p) + a + b == Print(p) + (a + b)
  {
    Assoc(Print(p), a, b);
    Assoc(p.text + "{" + p.tags, "}", a + b);
  }

  lemma {:induction false} EndUnfold(s: string, open: nat, close: nat)
    requires open < close < |s| && FirstBlock(s) == Some((open, close))
    ensures DrawingEnd(s) ==
            if DrawingLevel(s[open + 1..close]) == Some(0) then Some(close + 1)
            else match DrawingEnd(s[close + 1..])
                 case None => None
                 case Some(n) => Some(close + 1 + n)
  {
    hide FirstBlock, DrawingLevel;
  }

  lemma {:induction false} EndNone(s: string)
    requires FirstBlock(s) == None
    ensures DrawingEnd(s) == None
  {
    hide FirstBlock, DrawingLevel;
  }

  lemma PrintIs(p: Piece, rest: string)
    ensures Print(p) + rest == p.text + "{" + p.tags + "}" + rest && |Print(p)| == |p.text| + |p.tags| + 2
  {
  }

  lemma StaysOnFacts(p: Piece)
    requires StaysOn(p)
    ensures '{' !in p.text && '}' !in p.tags && DrawingLevel(p.tags) != Some(0)
  {
  }

  // One block that does not end the drawing is passed over.
  lemma {:induction false} PassesOver(p: Piece, rest: string)
    requires StaysOn(p)
    ensures DrawingEnd(Print(p) + rest) == match DrawingEnd(rest)
                                           case None => None
                                           case Some(n) => Some(|Print(p)| + n)
  {
    hide *;
    StaysOnFacts(p);
    PrintIs(p, rest);
    FirstBlockIs(p.text, p.tags, rest);
    EndUnfold(Print(p) + rest, |p.text|, |p.text| + 1 + |p.tags|);
  }

  lemma {:induction false} PrintAllUnfold(pieces: seq<Piece>)
    ensures PrintAll(pieces) == if pieces == [] then "" else Print(pieces[0]) + PrintAll(pieces[1..])
  {
    hide Print;
  }

  lemma FourParts(a: string, b: string, c: string, d: string)
    ensures a + b + c + d == a + (b + c + d)
    ensures "" + c + d == c + d
  {
  }

  // The drawing ends with the first block that turns drawing off.
  lemma {:induction false} EndsAt(pieces: seq<Piece>, d: string, e: string, rest: string)
    requires forall i :: 0 <= i < |pieces| ==> StaysOn(pieces[i])
    requires '{' !in d && '}' !in e && DrawingLevel(e) == Some(0)
    ensures DrawingEnd(PrintAll(pieces) + (d + "{" + e + "}") + rest) == Some(|PrintAll(pieces)| + |d| + |e| + 2)
    decreases |pieces|
  {
    hide *;
    var end := d + "{" + e + "}";
    PrintAllUnfold(pieces);
    if pieces == [] {
      FourParts("", "", end, rest);
      FirstBlockIs(d, e, rest);
      EndUnfold(end + rest, |d|, |d| + 1 + |e|);
    } else {
      var x, y := Print(pieces[0]), PrintAll(pieces[1..]);
      EndsAt(pieces[1..], d, e, rest);
      PassesOver(pieces[0], y + end + rest);
      FourParts(x, y, end, rest);
    }
  }

  // Without such a block a drawing does not end.
  lemma {:induction false} NeverEnds(pieces: seq<Piece>, last: string)
    requires forall i :: 0 <= i < |pieces| ==> StaysOn(pieces[i])
    requires FirstBlock(last) == None
    ensures DrawingEnd(PrintAll(pieces) + last) == None
    decreases |pieces|
  {
    hide *;
    PrintAllUnfold(pieces);
    if pieces == [] {
      FourParts("", "", "", last);
      assert "" + last == last;
      EndNone(last);
    } else {
      NeverEnds(pieces[1..], last);
      PassesOver(pieces[0], PrintAll(pieces[1..]) + last);
      Assoc(Print(pieces[0]), PrintAll(pieces[1..]), last);
    }
  }

  // ----- The choice -----

  // The dictionary with a drawing of some level in it, under the next free character if it is new.
  function With(book: Book, drawing: string, level: nat): Book {
    if drawing in book.byData then book
    else
      var ch := if |book.entries| < 0x10_2000 then [(0xE000 + |book.entries|) as char] else "\U{E000}";
      Book(book.entries + [Entry(drawing, ch, level + 0x10)], book.byData[drawing := ch])
  }

  lemma {:induction false} PieceUnfold(s: string, open: nat, close: nat)
    requires s != "" && open < close < |s| && FirstBlock(s) == Some((open, close))
    ensures var level, end := DrawingLevel(s[open + 1..close]), DrawingEnd(s[close + 1..]);
            NextPiece(s) ==
            if level.Some? && 1 <= level.value <= 15 && end.Some?
            then Drawings.Piece(s[..open], s[open..close + 1 + end.value], level.value, s[close + 1 + end.value..])
            else Drawings.Piece(s[..close + 1], "", 0, s[close + 1..])
  {
    hide FirstBlock, DrawingLevel, DrawingEnd;
  }

  lemma CutOut(a: string, block: string, end: string, b: string)
    ensures var s, n := a + block + (end + b), |a| + |block| + |end|;
            n <= |s| && s[|a|..n] == block + end && s[n..] == b && s == a + (block + end) + b
  {
  }

  lemma {:induction false} PieceTaken(a: string, tags: string, end: string, b: string, n: nat)
    requires '{' !in a && '}' !in tags && DrawingLevel(tags) == Some(n) && 1 <= n <= 15
    requires DrawingEnd(end + b) == Some(|end|)
    ensures var s := a + "{" + tags + "}" + (end + b);
            s != "" && NextPiece(s) == Drawings.Piece(a, "{" + tags + "}" + end, n, b)
  {
    hide *;
    var s, block := a + "{" + tags + "}" + (end + b), "{" + tags + "}";
    FirstBlockIs(a, tags, end + b);
    PieceUnfold(s, |a|, |a| + 1 + |tags|);
    assert a + "{" + tags + "}" == a + block;
    CutOut(a, block, end, b);
  }

  /**
    A drawing is taken out: a block that turns drawing on at a level from 1 to 15, and everything up
    to the first block that turns it off, become one token and one character, and the dictionary has
    the drawing with its level. Blocks in between belong to the drawing.
  */
  lemma {:induction false} DrawingReplaced(a: string, tags: string, n: nat, inner: seq<Piece>, d: string, e: string, b: string, book: Book)
    requires '{' !in a && '}' !in tags && DrawingLevel(tags) == Some(n) && 1 <= n <= 15
    requires forall i :: 0 <= i < |inner| ==> StaysOn(inner[i])
    requires '{' !in d && '}' !in e && DrawingLevel(e) == Some(0)
    ensures var drawing := "{" + tags + "}" + (PrintAll(inner) + (d + "{" + e + "}"));
            var book' := With(book, drawing, n);
            && drawing in book'.byData
            && Rewrite(a + drawing + b, book)
               == (a + "{\\fnASSDrawSubset\\p0}" + book'.byData[drawing] + Rewrite(b, book').0, Rewrite(b, book').1)
  {
    hide *;
    var end := PrintAll(inner) + (d + "{" + e + "}");
    var block := "{" + tags + "}";
    EndsAt(inner, d, e, b);
    EndLength(inner, d, e);
    PieceTaken(a, tags, end, b, n);
    CutOut(a, block, end, b);
    assert a + "{" + tags + "}" == a + block;
    var s := a + (block + end) + b;
    Drawings.RewriteStep(s, book);
    RegisterIs(book, block + end, n);
    RoundIs(Drawings.Piece(a, block + end, n, b), book);
  }

  lemma {:induction false} EndLength(inner: seq<Piece>, d: string, e: string)
    ensures |PrintAll(inner) + (d + "{" + e + "}")| == |PrintAll(inner)| + |d| + |e| + 2
  {
    hide PrintAll;
  }

  lemma RoundIs(p: Drawings.Piece, book: Book)
    requires p.drawing != ""
    ensures Round(p, book) == (p.kept + "{\\fnASSDrawSubset\\p0}" + Register(book, p.drawing, p.level).1, Register(book, p.drawing, p.level).0)
  {
    hide Register;
  }

  lemma RegisterIs(book: Book, drawing: string, level: nat)
    requires 1 <= level <= 15
    ensures drawing in With(book, drawing, level).byData
    ensures Register(book, drawing, level) == (With(book, drawing, level), With(book, drawing, level).byData[drawing])
  {
  }

  /**
    Any other block is kept: one that says nothing about drawing, turns it off or on at a level above
    15, and one whose drawing no later block ends.
  */
  lemma {:induction false} BlockKept(a: string, tags: string, rest: string, book: Book)
    requires '{' !in a && '}' !in tags
    requires var level := DrawingLevel(tags);
             level == None || level.value <= 0 || level.value > 15 || DrawingEnd(rest) == None
    ensures Rewrite(a + "{" + tags + "}" + rest, book)
            == (a + "{" + tags + "}" + Rewrite(rest, book).0, Rewrite(rest, book).1)
  {
    hide *;
    var s := a + "{" + tags + "}" + rest;
    FirstBlockIs(a, tags, rest);
    PieceUnfold(s, |a|, |a| + 1 + |tags|);
    Drawings.RewriteStep(s, book);
    RoundKept(NextPiece(s), book);
  }

  lemma RoundKept(p: Drawings.Piece, book: Book)
    requires p.drawing == ""
    ensures Round(p, book) == (p.kept, book)
  {
  }

  /** Text without a closed block is kept as it is. */
  lemma {:induction false} TextKept(s: string, book: Book)
    requires FirstBlock(s) == None
    ensures Rewrite(s, book) == (s, book)
  {
    if s != "" {
      Drawings.RewriteStep(s, book);
      assert Rewrite("", book) == ("", book);
      hide FirstBlock, DrawingLevel, DrawingEnd;
      assert s + "" == s;
    }
  }

  /** So a drawing that never ends stays, with everything in front of it. */
  lemma {:induction false} EndlessKept(a: string, tags: string, inner: seq<Piece>, last: string, book: Book)
    requires '{' !in a && '}' !in tags && FirstBlock(last) == None
    requires forall i :: 0 <= i < |inner| ==> StaysOn(inner[i])
    ensures Rewrite(a + "{" + tags + "}" + (PrintAll(inner) + last), book)
            == (a + "{" + tags + "}" + (PrintAll(inner) + last), book)
    decreases |inner|
  {
    var rest := PrintAll(inner) + last;
    NeverEnds(inner, last);
    BlockKept(a, tags, rest, book);
    if inner == [] {
      assert rest == last;
      TextKept(last, book);
    } else {
      var p, more := inner[0], inner[1..];
      hide Rewrite, DrawingEnd, FirstBlock, DrawingLevel;
      ThreeParts(p, PrintAll(more), last);
      EndlessKept(p.text, p.tags, more, last, book);
    }
  }
}
