/**
  Vector drawings replaced by private-use characters of a generated font, and put back. The two
  regular expressions of the source are leftmost scanners here: one looks for a block that turns
  drawing on and for the block that turns it off, the other for the token that stands in for a
  drawing. The dictionary grows while a text is rewritten, so that equal drawings share one character.
*/
module Drawings {
  import opened Text
  import opened Tags

  // `DrawRestoreEntry`
  datatype Entry = Entry(data: string, ch: string, flags: nat)

  // The entries collected so far and the character given to each drawing.
  datatype Book = Book(entries: seq<Entry>, byData: map<string, string>)

  const EmptyBook := Book([], map[])
  const Capacity := 0x10_2000
  const Token := "{\\fnASSDrawSubset\\p0}"

  // `char::from_u32(0xE000 + n).unwrap_or('\u{E000}')`
  function EntryChar(n: nat): string {
    if n < Capacity then [(0xE000 + n) as char] else ['\U{E000}']
  }

  // The first `{` that has a `}` after it, and that `}`.
  function FirstBlock(s: string): (r: Option<(nat, nat)>)
    ensures r.Some? ==> r.value.0 < r.value.1 < |s|
    ensures r.Some? ==> s[r.value.0] == '{' && s[r.value.1] == '}'
  {
    var open := FindChar(s, '{');
    var close := open + FindChar(s[open..], '}');
    if open == |s| || close >= |s| then None else Some((open, close))
  }

  // `find_drawing_end`: how much of `s` runs to the end of the block that closes a drawing.
  function DrawingEnd(s: string): (r: Option<nat>)
    ensures r.Some? ==> 0 < r.value <= |s|
    decreases |s|
  {
    match FirstBlock(s)
    case None => None
    case Some((open, close)) =>
      if DrawingLevel(s[open + 1..close]) == Some(0) then Some(close + 1)
      else
        match DrawingEnd(s[close + 1..])
        case None => None
        case Some(n) => Some(close + 1 + n)
  }

  // One round of the rewriting loop: text kept as it is, then perhaps a drawing.
  datatype Piece = Piece(kept: string, drawing: string, level: nat, rest: string)

  function NextPiece(s: string): (p: Piece)
    requires s != ""
    ensures |p.rest| < |s|
  {
    match FirstBlock(s)
    case None => Piece(s, "", 0, "")
    case Some((open, close)) =>
      var level := DrawingLevel(s[open + 1..close]);
      var end := DrawingEnd(s[close + 1..]);
      if level.Some? && 0 < level.value <= 15 && end.Some? then
        var stop := close + 1 + end.value;
        Piece(s[..open], s[open..stop], level.value, s[stop..])
      else Piece(s[..close + 1], "", 0, s[close + 1..])
  }

  // Looks a drawing up, adding it with the next character when it is new.
  function Register(book: Book, drawing: string, level: nat): (r: (Book, string)) {
    if drawing in book.byData then (book, book.byData[drawing])
    else
      var ch := EntryChar(|book.entries|);
      // The closing block was always found, so the close bit is always set.
      (Book(book.entries + [Entry(drawing, ch, level % 16 + 16)], book.byData[drawing := ch]), ch)
  }

  function Round(p: Piece, book: Book): (string, Book) {
    if p.drawing == "" then (p.kept, book)
    else
      var (book', ch) := Register(book, p.drawing, p.level);
      (p.kept + Token + ch, book')
  }

  function Rewrite(s: string, book: Book): (string, Book)
    decreases |s|
  {
    if s == "" then ("", book)
    else
      var (out, book') := Round(NextPiece(s), book);
      var (rest, end) := Rewrite(NextPiece(s).rest, book');
      (out + rest, end)
  }

  // The result of a rewriting that has already produced `done`.
  function After(done: string, s: string, book: Book): (string, Book) {
    (done + Rewrite(s, book).0, Rewrite(s, book).1)
  }

  lemma {:induction false} AfterStart(s: string, book: Book)
    ensures After("", s, book) == Rewrite(s, book)
  {
    hide Rewrite;
    assert "" + Rewrite(s, book).0 == Rewrite(s, book).0;
  }

  lemma AfterEnd(done: string, book: Book)
    ensures After(done, "", book) == (done, book)
  {
    assert done + "" == done;
  }

  lemma AfterRound(done: string, s: string, book: Book)
    requires s != ""
    ensures After(done, s, book) ==
            After(done + Round(NextPiece(s), book).0, NextPiece(s).rest, Round(NextPiece(s), book).1)
  {
    var (out, book') := Round(NextPiece(s), book);
    assert Rewrite(s, book).0 == out + Rewrite(NextPiece(s).rest, book').0;
    hide NextPiece, Round, Rewrite;
    assert done + (out + Rewrite(NextPiece(s).rest, book').0) == done + out + Rewrite(NextPiece(s).rest, book').0;
  }

  // `rewrite_drawings_in_text`, with the two collections it fills.
  class DrawBook {
    var entries: seq<Entry>
    var byData: map<string, string>

    constructor ()
      ensures Contents() == EmptyBook
    {
      entries, byData := [], map[];
    }

    function Contents(): Book
      reads this
    {
      Book(entries, byData)
    }

    method RewriteText(text: string) returns (out: string)
      modifies this
      ensures (out, Contents()) == Rewrite(text, old(Contents()))
    {
      hide Rewrite;
      out := "";
      var rest := text;
      AfterStart(text, Contents());
      while rest != ""
        invariant After(out, rest, Contents()) == After("", text, old(Contents()))
        decreases |rest|
      {
        AfterRound(out, rest, Contents());
        hide NextPiece, After, Register;
        var p := NextPiece(rest);
        if p.drawing == "" {
          out := out + p.kept;
        } else {
          var (book, ch) := Register(Contents(), p.drawing, p.level);
          entries, byData := book.entries, book.byData;
          out := out + (p.kept + Token + ch);
        }
        rest := p.rest;
      }
      AfterEnd(out, Contents());
    }
  }

  // ----- Restoring -----

  const Marker := "\\fnASSDrawSubset"

  predicate HasMarker(s: string) {
    s != "" && (StartsWith(s, Marker) || HasMarker(s[1..]))
  }

  // The restore pattern at the start of `s`: a block with the marker in it, then a character.
  function TokenLen(s: string): (n: nat)
    ensures n <= |s|
  {
    var close := FindChar(s, '}');
    if s != "" && s[0] == '{' && close + 1 < |s| && s[close + 1] != '{' && HasMarker(s[1..close])
    then close + 2 else 0
  }

  type DrawMap = map<string, Entry>

  // `restore_draw_font_runs`: leftmost matches; a character without an entry stays as it is.
  function Restore(s: string, entries: DrawMap): string
    decreases |s|
  {
    if s == "" then ""
    else
      var n := TokenLen(s);
      if n == 0 then [s[0]] + Restore(s[1..], entries)
      else
        var ch := [s[n - 1]];
        (if ch in entries then entries[ch].data else s[..n]) + Restore(s[n..], entries)
  }

  // ----- The dictionary -----

  predicate GoodEntry(book: Book, k: nat)
    requires k < |book.entries|
  {
    var e := book.entries[k];
    && e.ch == EntryChar(k)
    && 0x11 <= e.flags <= 0x1F
    && e.data in book.byData && book.byData[e.data] == e.ch
    && e.data != "" && e.data[0] == '{'
    && DrawingLevel(e.data[1..FindChar(e.data, '}')]) == Some(e.flags - 0x10)
  }

  // The entries and the lookup table agree, and no drawing has two entries.
  predicate Valid(book: Book) {
    && (forall k :: 0 <= k < |book.entries| ==> GoodEntry(book, k))
    && (forall d :: d in book.byData ==> exists k :: 0 <= k < |book.entries| && book.entries[k].data == d)
    && (forall j, k :: 0 <= j < k < |book.entries| ==> book.entries[j].data != book.entries[k].data)
  }

  lemma {:induction false} FindCharAt(a: string, c: char, b: string)
    requires FindChar(a, c) < |a|
    ensures FindChar(a + b, c) == FindChar(a, c)
  {
    if a[0] != c {
      assert (a + b)[1..] == a[1..] + b;
      FindCharAt(a[1..], c, b);
    }
  }

  lemma FirstBlockFacts(s: string)
    requires FirstBlock(s).Some?
    ensures var (open, close) := FirstBlock(s).value;
            '{' !in s[..open] && FindChar(s[open..], '}') == close - open
  {
    FindCharFirst(s, '{');
  }

  // The block that opens a drawing is still its first block once the drawing is cut out.
  lemma OpeningBlock(s: string, open: nat, close: nat, stop: nat)
    requires open < close < stop <= |s| && FindChar(s[open..], '}') == close - open
    ensures FindChar(s[open..stop], '}') == close - open
    ensures s[open..stop][1..close - open] == s[open + 1..close]
  {
    var tail := s[open..];
    FindCharFirst(tail, '}');
    var inner, d := tail[..close - open], s[open..stop];
    assert d == inner + d[close - open..];
    FindCharIs(inner, '}', d[close - open..]);
  }

  lemma PieceSplits(s: string)
    requires s != ""
    ensures var p := NextPiece(s);
            s == p.kept + p.drawing + p.rest
            && (p.drawing == "" ==> p.rest == "" || (p.kept != "" && p.kept[|p.kept| - 1] == '}'))
  {
    hide DrawingLevel, DrawingEnd, FirstBlock;
  }

  // A drawing runs from its opening block, and that block's level is what was recorded.
  lemma PieceDrawing(s: string)
    requires s != "" && NextPiece(s).drawing != ""
    ensures var p := NextPiece(s);
            && '{' !in p.kept && p.drawing[0] == '{' && 0 < p.level <= 15
            && DrawingLevel(p.drawing[1..FindChar(p.drawing, '}')]) == Some(p.level)
  {
    hide DrawingLevel, DrawingEnd;
    FirstBlockFacts(s);
    var (open, close) := FirstBlock(s).value;
    OpeningBlock(s, open, close, close + 1 + DrawingEnd(s[close + 1..]).value);
  }

  lemma {:induction false} RegisterKeepsValid(book: Book, drawing: string, level: nat)
    requires Valid(book) && drawing != "" && drawing[0] == '{' && 0 < level <= 15
    requires DrawingLevel(drawing[1..FindChar(drawing, '}')]) == Some(level)
    ensures var (book', ch) := Register(book, drawing, level);
            && Valid(book') && book.entries <= book'.entries
            && drawing in book'.byData && book'.byData[drawing] == ch
  {
    hide DrawingLevel;
    var (book', ch) := Register(book, drawing, level);
    if drawing !in book.byData {
      var n := |book.entries|;
      forall k | 0 <= k < |book'.entries|
        ensures GoodEntry(book', k)
      {
        assert k < n ==> GoodEntry(book, k);
      }
      forall d | d in book'.byData
        ensures exists k :: 0 <= k < |book'.entries| && book'.entries[k].data == d
      {
        if d == drawing {
          assert book'.entries[n].data == d;
        } else {
          var k :| 0 <= k < n && book.entries[k].data == d;
          assert book'.entries[k].data == d;
        }
      }
      forall j, k | 0 <= j < k < |book'.entries|
        ensures book'.entries[j].data != book'.entries[k].data
      {
        assert GoodEntry(book, j);
      }
    }
  }

  /** Every rewriting keeps the dictionary valid and only ever adds entries at its end. */
  lemma {:induction false} RewriteKeepsValid(s: string, book: Book)
    requires Valid(book)
    ensures Valid(Rewrite(s, book).1) && book.entries <= Rewrite(s, book).1.entries
    decreases |s|
  {
    hide Valid, Register;
    if s != "" {
      var p := NextPiece(s);
      hide NextPiece;
      if p.drawing != "" {
        PieceDrawing(s);
        RegisterKeepsValid(book, p.drawing, p.level);
      }
      RewriteKeepsValid(p.rest, Round(p, book).1);
    }
  }

  /** Distinct drawings have distinct characters exactly while the private range lasts. */
  lemma CharactersDistinct(book: Book)
    requires Valid(book)
    ensures (forall j, k :: 0 <= j < k < |book.entries| ==> book.entries[j].ch != book.entries[k].ch)
            <==> |book.entries| <= Capacity
  {
    if |book.entries| <= Capacity {
      forall j, k | 0 <= j < k < |book.entries|
        ensures book.entries[j].ch != book.entries[k].ch
      {
        assert GoodEntry(book, j) && GoodEntry(book, k);
      }
    } else {
      assert GoodEntry(book, 0) && GoodEntry(book, Capacity);
      assert book.entries[0].ch == book.entries[Capacity].ch;
    }
  }

  // The map the strip pass builds from the entries, in order.
  function EntryMap(entries: seq<Entry>): DrawMap {
    if entries == [] then map[]
    else
      var last := entries[|entries| - 1];
      EntryMap(entries[..|entries| - 1])[last.ch := last]
  }

  // Every entry is found under its own character.
  predicate Covers(dm: DrawMap, entries: seq<Entry>) {
    forall k :: 0 <= k < |entries| ==> entries[k].ch in dm && dm[entries[k].ch] == entries[k]
  }

  lemma {:induction false} EntryMapCovers(entries: seq<Entry>)
    requires forall j, k :: 0 <= j < k < |entries| ==> entries[j].ch != entries[k].ch
    ensures Covers(EntryMap(entries), entries)
  {
    if entries != [] {
      EntryMapCovers(entries[..|entries| - 1]);
    }
  }

  // ----- The round trip -----

  lemma {:induction false} MarkerInPrefix(a: string, b: string)
    ensures HasMarker(a) ==> HasMarker(a + b)
    decreases |a|
  {
    if HasMarker(a) {
      var s := a + b;
      assert s[1..] == a[1..] + b;
      assert StartsWith(a, Marker) ==> s[..|Marker|] == a[..|Marker|];
      MarkerInPrefix(a[1..], b);
    }
  }

  lemma {:induction false} MarkerInSuffix(a: string, b: string)
    ensures HasMarker(b) ==> HasMarker(a + b)
    decreases |a|
  {
    if a == "" {
      assert a + b == b;
    } else {
      assert (a + b)[1..] == a[1..] + b;
      MarkerInSuffix(a[1..], b);
    }
  }

  // A stretch of a text without the marker is without it too.
  lemma {:induction false} MarkerInside(a: string, b: string, c: string)
    ensures HasMarker(b) ==> HasMarker(a + b + c)
  {
    hide HasMarker;
    MarkerInSuffix(a, b);
    MarkerInPrefix(a + b, c);
  }

  lemma {:induction false} NoToken(s: string)
    requires !HasMarker(s)
    ensures TokenLen(s) == 0
  {
    hide HasMarker;
    var close := FindChar(s, '}');
    if s != "" && 0 < close < |s| {
      MarkerInside(s[..1], s[1..close], s[close..]);
      assert s == s[..1] + s[1..close] + s[close..];
    }
  }

  lemma {:induction false} RestoreStep(s: string, dm: DrawMap)
    requires s != "" && TokenLen(s) == 0
    ensures Restore(s, dm) == [s[0]] + Restore(s[1..], dm)
  {
  }

  // Text without the marker is left alone.
  lemma {:induction false} RestoreNothing(s: string, dm: DrawMap)
    requires !HasMarker(s)
    ensures Restore(s, dm) == s
    decreases |s|
  {
    if s != "" {
      NoToken(s);
      RestoreStep(s, dm);
      hide Restore;
      RestoreNothing(s[1..], dm);
    }
  }

  // So is a stretch without an opening brace, whatever follows it.
  lemma {:induction false} RestoreAfterPlain(a: string, b: string, dm: DrawMap)
    requires '{' !in a
    ensures Restore(a + b, dm) == a + Restore(b, dm)
    decreases |a|
  {
    if a == "" {
      assert a + b == b;
    } else {
      assert (a + b)[1..] == a[1..] + b;
      RestoreStep(a + b, dm);
      hide Restore;
      RestoreAfterPlain(a[1..], b, dm);
    }
  }

  // And so is a stretch without the marker that ends in a closing brace.
  lemma {:induction false} NoTokenInBlock(a: string, b: string)
    requires a != "" && a[|a| - 1] == '}' && !HasMarker(a)
    ensures TokenLen(a + b) == 0
  {
    hide HasMarker;
    BraceInside(a);
    FindCharAt(a, '}', b);
    var close := FindChar(a, '}');
    if 0 < close {
      assert (a + b)[1..close] == a[1..close];
      MarkerInside(a[..1], a[1..close], a[close..]);
      assert a == a[..1] + a[1..close] + a[close..];
    }
  }

  // And so is a stretch without the marker that ends in a closing brace.
  lemma {:induction false} RestoreAfterBlock(a: string, b: string, dm: DrawMap)
    requires a != "" && a[|a| - 1] == '}' && !HasMarker(a)
    ensures Restore(a + b, dm) == a + Restore(b, dm)
    decreases |a|
  {
    NoTokenInBlock(a, b);
    RestoreStep(a + b, dm);
    var t := a[1..];
    hide Restore, TokenLen;
    assert (a + b)[1..] == t + b && a == [a[0]] + t;
    MarkerInSuffix([a[0]], t);
    hide HasMarker;
    if t == "" {
      assert t + b == b;
    } else {
      RestoreAfterBlock(t, b, dm);
    }
    Assoc([a[0]], t, Restore(b, dm));
  }

  lemma {:induction false} BraceInside(a: string)
    requires a != "" && a[|a| - 1] == '}'
    ensures FindChar(a, '}') < |a|
  {
    FindCharFirst(a, '}');
    assert a == a[..|a| - 1] + ['}'];
  }

  lemma {:induction false} RestoreToken(ch: string, b: string, dm: DrawMap)
    requires |ch| == 1 && ch[0] != '{' && ch in dm
    ensures Restore(Token + ch + b, dm) == dm[ch].data + Restore(b, dm)
  {
    var s := Token + ch + b;
    var inner := "{\\fnASSDrawSubset\\p0";
    assert s == inner + ("}" + ch + b);
    FindCharIs(inner, '}', "}" + ch + b);
    assert s[1..|inner|] == "\\fnASSDrawSubset\\p0";
    assert s[1..|inner|][..|Marker|] == Marker;
    assert HasMarker(s[1..|inner|]);
    assert TokenLen(s) == |Token| + 1;
    assert [s[|Token|]] == ch && s[|Token| + 1..] == b;
  }

  lemma EntryOf(book: Book, drawing: string) returns (k: nat)
    requires Valid(book) && drawing in book.byData
    ensures k < |book.entries| && book.entries[k].data == drawing
    ensures book.entries[k].ch == book.byData[drawing] == EntryChar(k)
  {
    k :| 0 <= k < |book.entries| && book.entries[k].data == drawing;
    assert GoodEntry(book, k);
  }

  lemma {:induction false} RestoreDrawing(ch: string, drawing: string, b: string, book: Book, later: Book, dm: DrawMap)
    requires Valid(book) && drawing in book.byData && book.byData[drawing] == ch
    requires book.entries <= later.entries && Covers(dm, later.entries)
    ensures Restore(Token + ch + b, dm) == drawing + Restore(b, dm)
  {
    var k := EntryOf(book, drawing);
    assert later.entries[k] == book.entries[k];
    RestoreToken(ch, b, dm);
  }

  // Puts one piece back, given that the rest comes back.
  lemma {:induction false} RestorePiece(p: Piece, rest: string, back: string, book: Book, later: Book, dm: DrawMap)
    requires !HasMarker(p.kept) && Restore(rest, dm) == back
    requires p.drawing == "" ==> p.kept != "" && p.kept[|p.kept| - 1] == '}'
    requires p.drawing != "" ==>
               && '{' !in p.kept && Valid(Round(p, book).1) && p.drawing in Round(p, book).1.byData
               && Round(p, book).1.byData[p.drawing] == Register(book, p.drawing, p.level).1
    requires Round(p, book).1.entries <= later.entries && Covers(dm, later.entries)
    ensures Restore(Round(p, book).0 + rest, dm) == p.kept + p.drawing + back
  {
    hide Restore, Register, Covers, Valid;
    var (out, book1) := Round(p, book);
    if p.drawing == "" {
      RestoreAfterBlock(p.kept, rest, dm);
      assert p.kept + p.drawing == p.kept;
    } else {
      var ch := Register(book, p.drawing, p.level).1;
      RestoreDrawing(ch, p.drawing, rest, book1, later, dm);
      RestoreAfterPlain(p.kept, Token + ch + rest, dm);
      assert out + rest == p.kept + (Token + ch + rest);
    }
  }

  /**
    Restoring undoes rewriting on every text without the marker. `q` is what follows the text on
    its line; `dm` may know more entries than this rewriting made.
  */
  lemma {:induction false} RestoreRewrite(s: string, q: string, book: Book, dm: DrawMap)
    requires Valid(book) && !HasMarker(s + q) && Covers(dm, Rewrite(s, book).1.entries)
    ensures Restore(Rewrite(s, book).0 + q, dm) == s + q
    decreases |s|
  {
    hide HasMarker, Restore, Valid, Covers, Register;
    if s == "" || (NextPiece(s).drawing == "" && NextPiece(s).rest == "") {
      RewriteLast(s, book);
      RestoreNothing(s + q, dm);
    } else {
      var p := NextPiece(s);
      RewriteStep(s, book);
      RestoreRewriteMarkers(s, p, q);
      RoundFacts(s, book);
      RewriteKeepsValid(p.rest, Round(p, book).1);
      hide Rewrite, NextPiece;
      var (out, book1) := Round(p, book);
      var (rest, end) := Rewrite(p.rest, book1);
      RestoreRewrite(p.rest, q, book1, dm);
      hide Round;
      RestorePiece(p, rest + q, p.rest + q, book, end, dm);
      Assoc(out, rest, q);
      PieceAssoc(p, q);
    }
  }

  lemma {:induction false} RewriteLast(s: string, book: Book)
    requires s == "" || (NextPiece(s).drawing == "" && NextPiece(s).rest == "")
    ensures Rewrite(s, book).0 == s
  {
    if s != "" {
      PieceSplits(s);
      hide NextPiece;
      assert s == NextPiece(s).kept + "" + "";
      assert Rewrite("", book).0 == "";
    }
  }

  lemma {:induction false} RewriteStep(s: string, book: Book)
    requires s != ""
    ensures var (out, book') := Round(NextPiece(s), book);
            Rewrite(s, book) == (out + Rewrite(NextPiece(s).rest, book').0, Rewrite(NextPiece(s).rest, book').1)
  {
  }

  // What one round knows about its piece and the dictionary after it.
  lemma RoundFacts(s: string, book: Book)
    requires s != "" && Valid(book)
    ensures var p := NextPiece(s);
            && Valid(Round(p, book).1)
            && (p.drawing != "" ==>
                  && '{' !in p.kept && p.drawing in Round(p, book).1.byData
                  && Round(p, book).1.byData[p.drawing] == Register(book, p.drawing, p.level).1)
  {
    hide NextPiece;
    if NextPiece(s).drawing != "" {
      PieceDrawing(s);
      RegisterKeepsValid(book, NextPiece(s).drawing, NextPiece(s).level);
    }
  }

  lemma PieceAssoc(p: Piece, q: string)
    ensures p.kept + p.drawing + p.rest + q == p.kept + (p.drawing + p.rest + q)
    ensures p.kept + p.drawing + p.rest + q == p.kept + p.drawing + (p.rest + q)
  {
  }

  lemma {:induction false} RestoreRewriteMarkers(s: string, p: Piece, q: string)
    requires s != "" && p == NextPiece(s) && !HasMarker(s + q)
    ensures !HasMarker(p.kept) && !HasMarker(p.rest + q)
    ensures s == p.kept + p.drawing + p.rest
    ensures p.drawing == "" ==> p.rest == "" || (p.kept != "" && p.kept[|p.kept| - 1] == '}')
  {
    PieceSplits(s);
    hide HasMarker, NextPiece;
    PieceAssoc(p, q);
    MarkerInPrefix(p.kept, p.drawing + p.rest + q);
    MarkerInSuffix(p.kept + p.drawing, p.rest + q);
  }

  /** The drawing dictionary round trip, for one Text field and a fresh dictionary. */
  lemma {:induction false} DrawingRoundTrip(text: string)
    requires !HasMarker(text) && |Rewrite(text, EmptyBook).1.entries| <= Capacity
    ensures Restore(Rewrite(text, EmptyBook).0, EntryMap(Rewrite(text, EmptyBook).1.entries)) == text
  {
    var (out, book) := Rewrite(text, EmptyBook);
    RewriteKeepsValid(text, EmptyBook);
    CharactersDistinct(book);
    EntryMapCovers(book.entries);
    assert text + "" == text && out + "" == out;
    RestoreRewrite(text, "", EmptyBook, EntryMap(book.entries));
  }
}
