/**
  The table of drawings stored inside the drawing font: its byte format, written and read by two
  loops (workers/font_worker.py). Numbers are big-endian. The reader stops at the first entry that
  is cut off and takes what came before it, so a damaged table still yields a part of its drawings.
*/
module DrawTable {
  import opened Text
  import opened UuCodec
  import opened Encoding
  import Drawings

  // An entry with its strings in UTF-8.
  datatype Raw = Raw(data: seq<byte>, ch: seq<byte>, flags: nat)

  predicate Legal(e: Raw) {
    |e.data| <= 0xFFFF && |e.ch| <= 0xFF && e.flags <= 0xFF
  }

  predicate AllLegal(entries: seq<Raw>) {
    forall e :: e in entries ==> Legal(e)
  }

  function Short(n: nat): seq<byte>
    requires n <= 0xFFFF
  {
    [n / 0x100, n % 0x100]
  }

  function Long(n: nat): seq<byte>
    requires n <= 0xFFFF_FFFF
  {
    Short(n / 0x1_0000) + Short(n % 0x1_0000)
  }

  function EntryBytes(e: Raw): seq<byte>
    requires Legal(e)
  {
    Short(|e.data|) + e.data + [|e.ch|] + e.ch + [e.flags]
  }

  function AllBytes(entries: seq<Raw>): seq<byte>
    requires AllLegal(entries)
  {
    if entries == [] then [] else EntryBytes(entries[0]) + AllBytes(entries[1..])
  }

  // The whole table; a count or a string that is too long is an error.
  function Table(entries: seq<Raw>): seq<byte>
    requires AllLegal(entries) && |entries| <= 0xFFFF_FFFF
  {
    Long(|entries|) + AllBytes(entries)
  }

  lemma {:induction false} AllBytesAppend(a: seq<Raw>, b: seq<Raw>)
    requires AllLegal(a) && AllLegal(b)
    ensures AllLegal(a + b) && AllBytes(a + b) == AllBytes(a) + AllBytes(b)
  {
    hide EntryBytes, Legal;
    if a == [] {
      assert a + b == b;
    } else {
      assert (a + b)[0] == a[0] && (a + b)[1..] == a[1..] + b;
      AllBytesAppend(a[1..], b);
      AddFront(EntryBytes(a[0]), AllBytes(a[1..]), AllBytes(b));
    }
  }

  lemma AddFront(x: seq<byte>, y: seq<byte>, z: seq<byte>)
    ensures x + (y + z) == (x + y) + z
  {
  }

  // `serialize_draw_table`; the flags are cut to one byte.
  method SerializeDrawTable(entries: seq<Raw>) returns (r: Option<seq<byte>>)
    ensures r.Some? <==> |entries| <= 0xFFFF_FFFF && forall e :: e in entries ==> |e.data| <= 0xFFFF && |e.ch| <= 0xFF
    ensures r.Some? ==> AllLegal(Masked(entries)) && r.value == Table(Masked(entries))
  {
    if |entries| > 0xFFFF_FFFF {
      return None;
    }
    var out: seq<byte> := Long(|entries|);
    assert out + AllBytes([]) == out && Masked(entries[..0]) == [];
    hide Long, AllBytes;
    for i := 0 to |entries|
      invariant forall e :: e in entries[..i] ==> |e.data| <= 0xFFFF && |e.ch| <= 0xFF
      invariant AllLegal(Masked(entries[..i])) && out == Long(|entries|) + AllBytes(Masked(entries[..i]))
    {
      var e := entries[i];
      if |e.data| > 0xFFFF || |e.ch| > 0xFF {
        return None;
      }
      assert entries[..i + 1] == entries[..i] + [e];
      var bytes: seq<byte> := Short(|e.data|) + e.data + [|e.ch|] + e.ch + [e.flags % 0x100];
      MaskedPush(entries[..i], e);
      OneMoreEntry(Masked(entries[..i]), e.(flags := e.flags % 0x100));
      hide EntryBytes, Masked;
      AssocSeq(Long(|entries|), AllBytes(Masked(entries[..i])), bytes);
      out := out + bytes;
    }
    assert entries[..|entries|] == entries;
    return Some(out);
  }

  // The flags cut to one byte.
  function Masked(entries: seq<Raw>): (r: seq<Raw>)
    ensures |r| == |entries|
  {
    if entries == [] then [] else [entries[0].(flags := entries[0].flags % 0x100)] + Masked(entries[1..])
  }

  lemma {:induction false} MaskedPush(entries: seq<Raw>, e: Raw)
    ensures Masked(entries + [e]) == Masked(entries) + [e.(flags := e.flags % 0x100)]
  {
    if entries == [] {
      assert entries + [e] == [e] && [e][1..] == [];
    } else {
      assert (entries + [e])[1..] == entries[1..] + [e];
      MaskedPush(entries[1..], e);
    }
  }

  lemma {:induction false} MaskedLegal(entries: seq<Raw>)
    requires AllLegal(entries)
    ensures Masked(entries) == entries
  {
    if entries != [] {
      MaskedFirst(entries[0]);
      hide Legal;
      MaskedLegal(entries[1..]);
      assert entries == [entries[0]] + entries[1..];
    }
  }

  lemma MaskedFirst(e: Raw)
    ensures Legal(e) ==> e.(flags := e.flags % 0x100) == e
  {
  }

  lemma {:induction false} OneMoreEntry(entries: seq<Raw>, e: Raw)
    requires AllLegal(entries) && Legal(e)
    ensures AllLegal(entries + [e]) && AllBytes(entries + [e]) == AllBytes(entries) + EntryBytes(e)
  {
    AllBytesAppend(entries, [e]);
    hide EntryBytes;
    assert [e][1..] == [];
    assert AllBytes([e]) == EntryBytes(e) + [] == EntryBytes(e);
  }

  // ----- Reading -----

  // The entry the bytes start with and how many bytes it takes, or nothing when it is cut off.
  function FirstEntry(raw: seq<byte>): Option<(Raw, nat)> {
    if 2 > |raw| then None
    else
      var high: int, low: int := raw[0], raw[1];
      var dataLen := high * 0x100 + low;
      if 2 + dataLen + 2 > |raw| then None
      else
        var chLen: int := raw[2 + dataLen];
        var end := 3 + dataLen + chLen;
        if end + 1 > |raw| then None
        else Some((Raw(raw[2..2 + dataLen], raw[3 + dataLen..end], raw[end]), end + 1))
  }

  function ReadEntries(raw: seq<byte>, count: nat): seq<Raw>
    decreases count
  {
    if count == 0 then []
    else
      match FirstEntry(raw)
      case None => []
      case Some((e, n)) => if n > |raw| then [] else [e] + ReadEntries(raw[n..], count - 1)
  }

  function Count(raw: seq<byte>): nat
    requires |raw| >= 4
  {
    var a: int, b: int, c: int, d: int := raw[0], raw[1], raw[2], raw[3];
    (a * 0x100 + b) * 0x1_0000 + (c * 0x100 + d)
  }

  // What `parse_draw_table` returns, before its strings are decoded.
  function Parsed(raw: seq<byte>): seq<Raw> {
    if |raw| < 4 then [] else ReadEntries(raw[4..], Count(raw))
  }

  // The same at a position of the whole table.
  lemma EntryAt(raw: seq<byte>, pos: nat)
    requires pos <= |raw|
    ensures FirstEntry(raw[pos..]) ==
            if pos + 2 > |raw| then None
            else
              var high: int, low: int := raw[pos], raw[pos + 1];
              var at := pos + 2 + (high * 0x100 + low);
              if at + 2 > |raw| then None
              else
                var chLen: int := raw[at];
                var end := at + 1 + chLen;
                if end + 1 > |raw| then None
                else Some((Raw(raw[pos + 2..at], raw[at + 1..end], raw[end]), end + 1 - pos))
  {
    var rest := raw[pos..];
    if pos + 2 <= |raw| {
      var high: int, low: int := rest[0], rest[1];
      var dataLen := high * 0x100 + low;
      var at := pos + 2 + dataLen;
      if at + 2 <= |raw| {
        var chLen: int := rest[2 + dataLen];
        var end := at + 1 + chLen;
        if end + 1 <= |raw| {
          assert rest[2..2 + dataLen] == raw[pos + 2..at] && rest[3 + dataLen..3 + dataLen + chLen] == raw[at + 1..end];
        }
      }
    }
  }

  // One round of the reading loop: the entry at `pos` and the position after it.
  method ReadEntry(raw: seq<byte>, pos: nat) returns (entry: Option<Raw>, next: nat)
    requires pos <= |raw|
    ensures entry == None <==> FirstEntry(raw[pos..]) == None
    ensures entry.Some? ==> pos < next <= |raw| && FirstEntry(raw[pos..]) == Some((entry.value, next - pos))
  {
    EntryAt(raw, pos);
    hide FirstEntry;
    entry, next := None, pos;
    if next + 2 > |raw| {
      return;
    }
    var high: int, low: int := raw[next], raw[next + 1];
    var dataLen := high * 0x100 + low;
    next := next + 2;
    if next + dataLen + 2 > |raw| {
      return;
    }
    var data := raw[next..next + dataLen];
    next := next + dataLen;
    var chLen: int := raw[next];
    next := next + 1;
    if next + chLen + 1 > |raw| {
      return;
    }
    var ch := raw[next..next + chLen];
    next := next + chLen;
    entry := Some(Raw(data, ch, raw[next]));
    next := next + 1;
  }

  // What is left to read after some entries.
  ghost predicate Left(raw: seq<byte>, entries: seq<Raw>, pos: nat, count: nat) {
    pos <= |raw| && entries + ReadEntries(raw[pos..], count) == Parsed(raw)
  }

  lemma LeftAtStart(raw: seq<byte>)
    requires |raw| >= 4
    ensures Left(raw, [], 4, Count(raw))
  {
    hide Count;
    var all := ReadEntries(raw[4..], Count(raw));
    hide ReadEntries;
    assert [] + all == all;
  }

  lemma LeftAtEnd(raw: seq<byte>, entries: seq<Raw>, pos: nat, count: nat)
    requires Left(raw, entries, pos, count) && (count == 0 || FirstEntry(raw[pos..]) == None)
    ensures entries == Parsed(raw)
  {
    assert ReadEntries(raw[pos..], count) == [];
    assert entries + [] == entries;
  }

  lemma LeftAfter(raw: seq<byte>, entries: seq<Raw>, pos: nat, count: nat, entry: Raw, next: nat)
    requires Left(raw, entries, pos, count) && count > 0 && pos < next <= |raw|
    requires FirstEntry(raw[pos..]) == Some((entry, next - pos))
    ensures Left(raw, entries + [entry], next, count - 1)
  {
    hide FirstEntry, ReadEntries, Parsed;
    ReadStep(entries, raw[pos..], count);
    DropTwice(raw, pos, next);
  }

  lemma DropTwice<T>(s: seq<T>, a: nat, b: nat)
    requires a <= b <= |s|
    ensures s[a..][b - a..] == s[b..] && |s[a..]| == |s| - a
  {
  }

  // `parse_draw_table`
  method ParseDrawTable(raw: seq<byte>) returns (entries: seq<Raw>)
    ensures entries == Parsed(raw)
  {
    entries := [];
    if |raw| < 4 {
      return;
    }
    LeftAtStart(raw);
    hide *;
    var count: nat, pos: nat, i := Count(raw), 4, 0;
    while i < count
      invariant 0 <= i <= count && pos <= |raw| && Left(raw, entries, pos, count - i)
    {
      var entry, next := ReadEntry(raw, pos);
      if entry == None {
        break;
      }
      LeftAfter(raw, entries, pos, count - i, entry.value, next);
      entries := entries + [entry.value];
      pos := next;
      i := i + 1;
    }
    LeftAtEnd(raw, entries, pos, count - i);
  }

  lemma ReadStep(done: seq<Raw>, raw: seq<byte>, count: nat)
    requires count > 0
    ensures done + ReadEntries(raw, count) ==
            match FirstEntry(raw)
            case None => done
            case Some(r) => if r.1 > |raw| then done else done + [r.0] + ReadEntries(raw[r.1..], count - 1)
  {
    hide FirstEntry;
    if FirstEntry(raw).Some? {
      var (e, n) := FirstEntry(raw).value;
      if n <= |raw| {
        AssocSeq(done, [e], ReadEntries(raw[n..], count - 1));
      }
    }
  }

  // ----- Round trip -----

  lemma FirstOfEntry(e: Raw, rest: seq<byte>)
    requires Legal(e)
    ensures FirstEntry(EntryBytes(e) + rest) == Some((e, |EntryBytes(e)|))
  {
    var raw := EntryBytes(e) + rest;
    var n := |e.data|;
    assert raw[0] == n / 0x100 && raw[1] == n % 0x100;
    assert raw[2..2 + n] == e.data && raw[2 + n] == |e.ch|;
    assert raw[3 + n..3 + n + |e.ch|] == e.ch && raw[3 + n + |e.ch|] == e.flags;
  }

  // An entry that is cut off is not read.
  lemma CutOff(e: Raw, n: nat)
    requires Legal(e) && n < |EntryBytes(e)|
    ensures FirstEntry(EntryBytes(e)[..n]) == None
  {
    var full := EntryBytes(e);
    var raw, d := full[..n], |e.data|;
    if n >= 2 {
      assert raw[0] == full[0] == d / 0x100 && raw[1] == full[1] == d % 0x100;
      if n >= 2 + d + 2 {
        assert raw[2 + d] == full[2 + d] == |e.ch|;
      }
    }
  }

  // How many entries lie wholly within the first `n` bytes.
  function Whole(entries: seq<Raw>, n: nat): (k: nat)
    requires AllLegal(entries)
    ensures k <= |entries|
  {
    if entries == [] || n < |EntryBytes(entries[0])| then 0
    else 1 + Whole(entries[1..], n - |EntryBytes(entries[0])|)
  }

  // It is the longest such prefix.
  lemma {:induction false} WholeIsLongest(entries: seq<Raw>, n: nat)
    requires AllLegal(entries)
    ensures var k := Whole(entries, n);
            && |AllBytes(entries[..k])| <= n
            && (k < |entries| ==> |AllBytes(entries[..k + 1])| > n)
    decreases |entries|
  {
    if entries != [] {
      var e, rest := entries[0], entries[1..];
      var size := |EntryBytes(e)|;
      if n >= size {
        var k := Whole(rest, n - size);
        WholeIsLongest(rest, n - size);
        hide EntryBytes;
        assert entries[..k + 1][1..] == rest[..k];
        if k < |rest| {
          assert entries[..k + 2][1..] == rest[..k + 1];
        }
      } else {
        hide EntryBytes;
        assert entries[..1][1..] == [];
      }
    }
  }

  lemma {:induction false} ReadTruncated(entries: seq<Raw>, n: nat, count: nat)
    requires AllLegal(entries) && n <= |AllBytes(entries)| && count == |entries|
    ensures ReadEntries(AllBytes(entries)[..n], count) == entries[..Whole(entries, n)]
    decreases count
  {
    if entries == [] {
      assert entries[..0] == [];
    } else {
      hide *;
      var e, rest := entries[0], entries[1..];
      var bytes := EntryBytes(e);
      BytesStep(entries);
      if n >= |bytes| {
        var tail := AllBytes(rest)[..n - |bytes|];
        WholeStep(entries, n);
        FirstOfEntry(e, tail);
        ReadOneMore(e, tail, count);
        PrefixOfBoth(bytes, AllBytes(rest), n);
        ReadTruncated(rest, n - |bytes|, count - 1);
      } else {
        CutOff(e, n);
        PrefixOfFirst(bytes, AllBytes(rest), n);
        NoneWhole(entries, n);
      }
    }
  }

  lemma {:induction false} BytesStep(entries: seq<Raw>)
    requires AllLegal(entries) && entries != []
    ensures Legal(entries[0]) && AllLegal(entries[1..]) && AllBytes(entries) == EntryBytes(entries[0]) + AllBytes(entries[1..])
  {
    hide EntryBytes;
  }

  lemma WholeStep(entries: seq<Raw>, n: nat)
    requires AllLegal(entries) && entries != [] && Legal(entries[0]) && AllLegal(entries[1..]) && n >= |EntryBytes(entries[0])|
    ensures entries[..Whole(entries, n)] == [entries[0]] + entries[1..][..Whole(entries[1..], n - |EntryBytes(entries[0])|)]
  {
    hide EntryBytes;
  }

  lemma {:induction false} NoneWhole(entries: seq<Raw>, n: nat)
    requires AllLegal(entries) && entries != [] && Legal(entries[0]) && n < |EntryBytes(entries[0])|
    requires n <= |AllBytes(entries)| && FirstEntry(AllBytes(entries)[..n]) == None
    ensures ReadEntries(AllBytes(entries)[..n], |entries|) == entries[..Whole(entries, n)]
  {
    hide EntryBytes, FirstEntry;
  }

  lemma {:induction false} ReadOneMore(e: Raw, tail: seq<byte>, count: nat)
    requires Legal(e) && count > 0 && FirstEntry(EntryBytes(e) + tail) == Some((e, |EntryBytes(e)|))
    ensures ReadEntries(EntryBytes(e) + tail, count) == [e] + ReadEntries(tail, count - 1)
  {
    hide EntryBytes, FirstEntry;
    var bytes := EntryBytes(e);
    assert (bytes + tail)[|bytes|..] == tail;
  }

  lemma PrefixOfBoth<T>(a: seq<T>, b: seq<T>, n: nat)
    requires |a| <= n <= |a| + |b|
    ensures (a + b)[..n] == a + b[..n - |a|]
  {
  }

  lemma PrefixOfFirst<T>(a: seq<T>, b: seq<T>, n: nat)
    requires n <= |a|
    ensures (a + b)[..n] == a[..n]
  {
  }

  lemma CountOfLong(n: nat, rest: seq<byte>)
    requires n <= 0xFFFF_FFFF
    ensures Count(Long(n) + rest) == n
  {
    var raw := Long(n) + rest;
    var h, l := n / 0x1_0000, n % 0x1_0000;
    assert raw[0] == h / 0x100 && raw[1] == h % 0x100 && raw[2] == l / 0x100 && raw[3] == l % 0x100;
  }

  /**
    Any truncation of a table parses to exactly the entries that lie wholly within it; the whole
    table parses to all of them.
  */
  lemma {:induction false} ParseTruncated(entries: seq<Raw>, n: nat)
    requires AllLegal(entries) && |entries| <= 0xFFFF_FFFF && n <= |Table(entries)|
    ensures Parsed(Table(entries)[..n]) == if n < 4 then [] else entries[..Whole(entries, n - 4)]
  {
    var bytes := AllBytes(entries);
    if n >= 4 {
      var head: seq<byte> := Long(|entries|);
      var tail := bytes[..n - 4];
      assert Table(entries)[..n] == head + tail;
      CountOfLong(|entries|, tail);
      assert (head + tail)[4..] == tail;
      hide Long, Count, ReadEntries, AllBytes, Whole;
      ReadTruncated(entries, n - 4, |entries|);
    }
  }

  lemma ParseWhole(entries: seq<Raw>)
    requires AllLegal(entries) && |entries| <= 0xFFFF_FFFF
    ensures Parsed(Table(entries)) == entries
  {
    var table := Table(entries);
    ParseTruncated(entries, |table|);
    WholeIsLongest(entries, |table| - 4);
    var k := Whole(entries, |table| - 4);
    assert table[..|table|] == table;
    if k < |entries| {
      assert entries == entries[..k + 1] + entries[k + 1..];
      AllBytesAppend(entries[..k + 1], entries[k + 1..]);
    }
    assert entries[..|entries|] == entries;
  }

  // ----- Entries as the subtitle code knows them -----

  function Encoded(entries: seq<Drawings.Entry>): (r: seq<Raw>)
    ensures |r| == |entries|
  {
    if entries == [] then []
    else [Raw(EncodeUtf8(entries[0].data), EncodeUtf8(entries[0].ch), entries[0].flags)] + Encoded(entries[1..])
  }

  // The strings decoded; well-formed ones only.
  function Decoded(entries: seq<Raw>): Option<seq<Drawings.Entry>> {
    if entries == [] then Some([])
    else
      var data, ch, rest := DecodeUtf8(entries[0].data), DecodeUtf8(entries[0].ch), Decoded(entries[1..]);
      if data.None? || ch.None? || rest.None? then None
      else Some([Drawings.Entry(data.value, ch.value, entries[0].flags)] + rest.value)
  }

  lemma {:induction false} DecodedEncoded(entries: seq<Drawings.Entry>)
    ensures Decoded(Encoded(entries)) == Some(entries)
  {
    if entries != [] {
      Utf8Decodes(entries[0].data);
      Utf8Decodes(entries[0].ch);
      hide EncodeUtf8, DecodeUtf8;
      DecodedEncoded(entries[1..]);
      assert entries == [entries[0]] + entries[1..];
    }
  }

  /** The drawings a font was made with are the ones read out of it. */
  lemma {:induction false} DrawingsComeBack(entries: seq<Drawings.Entry>)
    requires AllLegal(Encoded(entries)) && |entries| <= 0xFFFF_FFFF
    ensures Decoded(Parsed(Table(Encoded(entries)))) == Some(entries)
  {
    ParseWhole(Encoded(entries));
    DecodedEncoded(entries);
  }

  // ----- The layout -----

  // The number bytes spell, most significant first.
  function BigEndian(b: seq<byte>): int {
    if b == [] then 0
    else
      var last: int := b[|b| - 1];
      BigEndian(b[..|b| - 1]) * 0x100 + last
  }

  lemma {:induction false} TwoBytes(b: seq<byte>)
    requires |b| == 2
    ensures var x: int, y: int := b[0], b[1]; BigEndian(b) == x * 0x100 + y
  {
    assert b[..1][..0] == [];
    assert BigEndian(b[..1]) == BigEndian(b[..1][..0]) * 0x100 + b[0] as int;
  }

  lemma {:induction false} FourBytes(b: seq<byte>)
    requires |b| == 4
    ensures var w: int, x: int, y: int, z: int := b[0], b[1], b[2], b[3];
            BigEndian(b) == ((w * 0x100 + x) * 0x100 + y) * 0x100 + z
  {
    TwoBytes(b[..2]);
    assert b[..3][..2] == b[..2];
    assert BigEndian(b[..3]) == BigEndian(b[..2]) * 0x100 + b[2] as int;
  }

  /** An entry: the length of the drawing as two bytes, the drawing, the length of its character, the character, the flags. */
  lemma EntryLayout(e: Raw)
    requires Legal(e)
    ensures var b, n := EntryBytes(e), |e.data|;
            && |b| == n + |e.ch| + 4 && BigEndian(b[..2]) == n && b[2..2 + n] == e.data
            && b[2 + n] as int == |e.ch| && b[3 + n..3 + n + |e.ch|] == e.ch && b[|b| - 1] as int == e.flags
  {
    var b := EntryBytes(e);
    TwoBytes(b[..2]);
  }

  /** A table: the number of entries as four bytes, most significant first, then the entries in order. */
  lemma {:induction false} TableLayout(entries: seq<Raw>, k: nat)
    requires AllLegal(entries) && |entries| <= 0xFFFF_FFFF && k < |entries|
    ensures var t := Table(entries);
            && |t| >= 4 && BigEndian(t[..4]) == |entries|
            && AllLegal(entries[..k]) && AllLegal(entries[k + 1..])
            && t[4..] == AllBytes(entries[..k]) + EntryBytes(entries[k]) + AllBytes(entries[k + 1..])
  {
    var t := Table(entries);
    FourBytes(t[..4]);
    assert t[..4] == Long(|entries|) && t[4..] == AllBytes(entries);
    hide Long, EntryBytes, BigEndian;
    assert entries == entries[..k] + ([entries[k]] + entries[k + 1..]);
    AllBytesAppend(entries[..k], [entries[k]] + entries[k + 1..]);
    assert ([entries[k]] + entries[k + 1..])[1..] == entries[k + 1..];
    AssocSeq(AllBytes(entries[..k]), EntryBytes(entries[k]), AllBytes(entries[k + 1..]));
  }
}
