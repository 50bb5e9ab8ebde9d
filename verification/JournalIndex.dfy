/** The journal's index on disk: a header, then each entry with its lengths in front. */
module JournalIndex {
  import opened Bytes
  import opened Prefixes

  const MAGIC := 0x4A52_4E4C
  const VERSION: byte := 1
  const COUNT_LIMIT := 0x1_0000_0000

  type Uint32 = x: int | 0 <= x < 0x1_0000_0000

  datatype Entry = Entry(filename: seq<byte>, mtime: Uint32, snippet: seq<byte>, truncated: bool)

  function Take(s: seq<byte>, n: nat): (r: seq<byte>)
    ensures r <= s && |r| == if |s| <= n then |s| else n
  {
    if |s| <= n then s else s[..n]
  }

  function One(b: byte): seq<byte> { [b] }

  /** What of an entry fits the length fields. */
  function Cut(e: Entry): Entry { e.(filename := Take(e.filename, 255), snippet := Take(e.snippet, 65535)) }

  function CutAll(es: seq<Entry>): (r: seq<Entry>)
    ensures |r| == |es|
  {
    seq(|es|, i requires 0 <= i < |es| => Cut(es[i]))
  }

  function WriteEntry(e: Entry): seq<byte> {
    var name, snip := Take(e.filename, 255), Take(e.snippet, 65535);
    U32(e.mtime) + (One(|name|) + (name + (U16(|snip|) + (snip + One(if e.truncated then 1 else 0)))))
  }

  function WriteEntries(es: seq<Entry>): seq<byte> {
    if es == [] then [] else WriteEntry(es[0]) + WriteEntries(es[1..])
  }

  /** The count field keeps the low 32 bits. */
  function Header(n: nat): seq<byte> { U32(MAGIC) + (One(VERSION) + U32(n % COUNT_LIMIT)) }

  function Write(es: seq<Entry>): seq<byte> { Header(|es|) + WriteEntries(es) }

  /** The header's bytes: the letters LNRJ, the version, and the count from its low byte up. */
  lemma HeaderLayout(n: nat)
    ensures var b := Header(n);
            |b| == 9 && b[..5] == [0x4C, 0x4E, 0x52, 0x4A, 1] &&
            b[5] as int + 256 * b[6] as int + 65536 * b[7] as int + 16777216 * b[8] as int == n % 0x1_0000_0000
  {
    LowFirst(MAGIC);
    LowFirst(n % COUNT_LIMIT);
    hide U32;
    assert Header(n)[5..] == U32(n % COUNT_LIMIT);
    MagicBytes();
  }

  lemma MagicBytes()
    ensures U32(MAGIC) == [0x4C, 0x4E, 0x52, 0x4A]
  {
  }

  /** An entry's bytes: stamp, name behind its length, snippet behind its two bytes of length, and 1 if it is cut. */
  lemma EntryLayout(e: Entry)
    ensures var b, n, m := WriteEntry(e), |Take(e.filename, 255)|, |Take(e.snippet, 65535)|;
            |b| == 8 + n + m &&
            b[0] as int + 256 * b[1] as int + 65536 * b[2] as int + 16777216 * b[3] as int == e.mtime &&
            b[4] == n && b[5..5 + n] == e.filename[..n] && b[5 + n] as int + 256 * b[6 + n] as int == m &&
            b[7 + n..7 + n + m] == e.snippet[..m] && b[7 + n + m] == if e.truncated then 1 else 0
  {
    var name, snip := Take(e.filename, 255), Take(e.snippet, 65535);
    var stamp, len := U32(e.mtime), U16(|snip|);
    LowFirst(e.mtime);
    LowFirst(|snip|);
    EntryParts(WriteEntry(e), stamp, name, len, snip, if e.truncated then 1 else 0);
    hide U32, U16, Take;
  }

  lemma EntryParts(b: seq<byte>, stamp: seq<byte>, name: seq<byte>, len: seq<byte>, snip: seq<byte>, end: byte)
    requires |stamp| == 4 && |name| < 256 && |len| == 2
    requires b == stamp + (One(|name|) + (name + (len + (snip + One(end)))))
    ensures var n, m := |name|, |snip|;
            |b| == 8 + n + m && b[4] == n && b[5..5 + n] == name && b[7 + n..7 + n + m] == snip && b[7 + n + m] == end
    ensures b[0] == stamp[0] && b[1] == stamp[1] && b[2] == stamp[2] && b[3] == stamp[3]
    ensures b[5 + |name|] == len[0] && b[6 + |name|] == len[1]
  {
    hide Stands, Ends;
    EntryStands(b, stamp, One(|name|), name, len, snip, One(end));
    Last(b, 7 + |name| + |snip|, One(end));
    Stood(b, 0, stamp);
    Stood(b, 4, One(|name|));
    Stood(b, 5, name);
    Stood(b, 5 + |name|, len);
    Stood(b, 7 + |name|, snip);
  }

  lemma EntryStands(
    b: seq<byte>, stamp: seq<byte>, size: seq<byte>, name: seq<byte>, len: seq<byte>, snip: seq<byte>, end: seq<byte>)
    requires |stamp| == 4 && |size| == 1 && |len| == 2
    requires b == stamp + (size + (name + (len + (snip + end))))
    ensures Stands(b, 0, stamp) && Stands(b, 4, size) && Stands(b, 5, name) && Stands(b, 5 + |name|, len)
    ensures Stands(b, 7 + |name|, snip) && Ends(b, 7 + |name| + |snip|, end)
  {
    hide Stands, Ends;
    Whole(b);
    Part(b, 0, stamp, size + (name + (len + (snip + end))));
    Part(b, 4, size, name + (len + (snip + end)));
    Part(b, 5, name, len + (snip + end));
    Part(b, 5 + |name|, len, snip + end);
    Part(b, 7 + |name|, snip, end);
  }

  ghost predicate Stands(b: seq<byte>, i: nat, part: seq<byte>) {
    i + |part| <= |b| && b[i..i + |part|] == part
  }

  ghost predicate Ends(b: seq<byte>, i: nat, tail: seq<byte>) { i <= |b| && b[i..] == tail }

  lemma Whole(b: seq<byte>)
    ensures Ends(b, 0, b)
  {
  }

  lemma Part(b: seq<byte>, i: nat, part: seq<byte>, tail: seq<byte>)
    requires Ends(b, i, part + tail)
    ensures Stands(b, i, part) && Ends(b, i + |part|, tail)
  {
    assert |b| == i + |part| + |tail|;
    assert forall k :: 0 <= k < |part| + |tail| ==> b[i..][k] == b[i + k];
  }

  lemma Stood(b: seq<byte>, i: nat, part: seq<byte>)
    requires Stands(b, i, part)
    ensures i + |part| <= |b| && b[i..i + |part|] == part
    ensures |part| > 0 ==> b[i] == part[0]
    ensures |part| > 1 ==> b[i + 1] == part[1]
    ensures |part| > 3 ==> b[i + 2] == part[2] && b[i + 3] == part[3]
  {
    var s := b[i..i + |part|];
    if |part| > 0 { assert s[0] == b[i]; }
    if |part| > 1 { assert s[1] == b[i + 1]; }
    if |part| > 3 { assert s[2] == b[i + 2] && s[3] == b[i + 3]; }
  }

  lemma Last(b: seq<byte>, i: nat, tail: seq<byte>)
    requires Ends(b, i, tail) && |tail| == 1
    ensures |b| == i + 1 && b[i] == tail[0]
  {
    assert b[i..][0] == b[i];
  }

  /** One entry and where the next one starts, if the bytes last. */
  datatype Parsed = Parsed(entry: Entry, next: nat) | TooShort

  function ReadEntry(raw: seq<byte>, pos: nat): (p: Parsed)
    ensures p.Parsed? ==> pos + 8 <= p.next <= |raw| && Cut(p.entry) == p.entry
  {
    if pos + 5 > |raw| then TooShort else
    var name := pos + 5;
    var snip := name + raw[pos + 4];
    if snip + 2 > |raw| then TooShort else
    var len := U16At(raw, snip);
    if snip + 2 + len + 1 > |raw| then TooShort else
    Parsed(Entry(raw[name..snip], U32At(raw, pos), raw[snip + 2..snip + 2 + len], raw[snip + 2 + len] != 0),
      snip + 2 + len + 1)
  }

  /** Reading stops at the first entry that is not all there, and keeps what it has. */
  datatype Index = Index(ok: bool, entries: seq<Entry>)

  function ReadEntries(raw: seq<byte>, pos: nat, count: nat): (r: Index)
    decreases count
  {
    if count == 0 then Index(true, []) else
    match ReadEntry(raw, pos)
    case TooShort => Index(false, [])
    case Parsed(e, next) => var r := ReadEntries(raw, next, count - 1); Index(r.ok, [e] + r.entries)
  }

  function Read(raw: seq<byte>): Index {
    if |raw| < 9 || U32At(raw, 0) != MAGIC || raw[4] != VERSION then Index(false, [])
    else ReadEntries(raw, 9, U32At(raw, 5))
  }

  // ---- Reading what was written, whole or cut off ----

  lemma U32Here(raw: seq<byte>, pos: nat, n: Uint32, w: seq<byte>)
    requires Begins(raw, pos, U32(n) + w) && pos + 4 <= |raw|
    ensures U32At(raw, pos) == n
  {
    BeginsWith(raw, pos, U32(n), w);
    U32RoundTrip(n);
    var s := raw[pos..pos + 4];
    assert s[0] == raw[pos] && s[1] == raw[pos + 1] && s[2] == raw[pos + 2] && s[3] == raw[pos + 3];
    hide U32, Begins;
  }

  lemma U16Here(raw: seq<byte>, pos: nat, n: nat, w: seq<byte>)
    requires n < 0x1_0000 && Begins(raw, pos, U16(n) + w) && pos + 2 <= |raw|
    ensures U16At(raw, pos) == n
  {
    BeginsWith(raw, pos, U16(n), w);
    U16RoundTrip(n);
    var s := raw[pos..pos + 2];
    assert s[0] == raw[pos] && s[1] == raw[pos + 1];
    hide U16, Begins;
  }

  lemma NameHere(raw: seq<byte>, pos: nat, mtime: Uint32, name: seq<byte>, w: seq<byte>)
    requires |name| <= 255 && Begins(raw, pos, U32(mtime) + (One(|name|) + (name + w))) && pos <= |raw|
    ensures Begins(raw, pos + 5 + |name|, w)
    ensures pos + 5 <= |raw| ==> U32At(raw, pos) == mtime && raw[pos + 4] == |name|
    ensures pos + 5 + |name| <= |raw| ==> raw[pos + 5..pos + 5 + |name|] == name
  {
    hide U32, U32At, Begins;
    var len := One(|name|);
    BeginsPast(raw, pos, U32(mtime), len + (name + w));
    BeginsPast(raw, pos + 4, len, name + w);
    BeginsPast(raw, pos + 5, name, w);
    if pos + 5 <= |raw| {
      U32Here(raw, pos, mtime, len + (name + w));
      BeginsAt(raw, pos + 4, len + (name + w), pos + 4);
    }
    if pos + 5 + |name| <= |raw| { BeginsWith(raw, pos + 5, name, w); }
  }

  lemma SnippetHere(raw: seq<byte>, pos: nat, snip: seq<byte>, flag: byte, w: seq<byte>)
    requires |snip| <= 65535 && Begins(raw, pos, U16(|snip|) + (snip + (One(flag) + w)))
    ensures Begins(raw, pos + 3 + |snip|, w)
    ensures pos + 2 <= |raw| ==> U16At(raw, pos) == |snip|
    ensures pos + 3 + |snip| <= |raw| ==> raw[pos + 2..pos + 2 + |snip|] == snip && raw[pos + 2 + |snip|] == flag
  {
    hide U16, U16At, Begins;
    var end := One(flag);
    BeginsPast(raw, pos, U16(|snip|), snip + (end + w));
    BeginsPast(raw, pos + 2, snip, end + w);
    BeginsPast(raw, pos + 2 + |snip|, end, w);
    if pos + 2 <= |raw| { U16Here(raw, pos, |snip|, snip + (end + w)); }
    if pos + 3 + |snip| <= |raw| {
      BeginsWith(raw, pos + 2, snip, end + w);
      BeginsAt(raw, pos + 2 + |snip|, end + w, pos + 2 + |snip|);
    }
  }

  /** An entry is read back as it was written, or not at all. */
  lemma EntryHere(raw: seq<byte>, pos: nat, e: Entry, w: seq<byte>)
    requires Begins(raw, pos, WriteEntry(e) + w) && pos <= |raw|
    ensures Begins(raw, pos + |WriteEntry(e)|, w)
    ensures ReadEntry(raw, pos) ==
      if pos + |WriteEntry(e)| <= |raw| then Parsed(Cut(e), pos + |WriteEntry(e)|) else TooShort
  {
    var c := Cut(e);
    var name, snip, flag: byte := c.filename, c.snippet, if e.truncated then 1 else 0;
    assert WriteEntry(e) == U32(e.mtime) + (One(|name|) + (name + (U16(|snip|) + (snip + One(flag)))));
    assert |WriteEntry(e)| == 8 + |name| + |snip|;
    hide Begins, WriteEntry, U16, U32, U16At, U32At, Take;
    Regroup(U32(e.mtime), One(|name|), name, U16(|snip|), snip, One(flag), w);
    NameHere(raw, pos, e.mtime, name, U16(|snip|) + (snip + (One(flag) + w)));
    SnippetHere(raw, pos + 5 + |name|, snip, flag, w);
  }

  lemma Regroup(a: seq<byte>, b: seq<byte>, c: seq<byte>, d: seq<byte>, e: seq<byte>, f: seq<byte>, w: seq<byte>)
    ensures a + (b + (c + (d + (e + f)))) + w == a + (b + (c + (d + (e + (f + w)))))
  {
  }

  /** All that was wanted; or, of what is cut off, a refusal with less than that. */
  predicate Comes(r: Index, whole: bool, want: seq<Entry>) {
    if whole then r == Index(true, want) else !r.ok && |r.entries| < |want| && r.entries == want[..|r.entries|]
  }

  lemma ComesAfter(e: Entry, r: Index, whole: bool, want: seq<Entry>)
    requires Comes(r, whole, want)
    ensures Comes(Index(r.ok, [e] + r.entries), whole, [e] + want)
  {
  }

  lemma {:induction false} EntriesHere(raw: seq<byte>, pos: nat, es: seq<Entry>, w: seq<byte>)
    requires Begins(raw, pos, WriteEntries(es) + w) && pos <= |raw|
    ensures Comes(ReadEntries(raw, pos, |es|), pos + |WriteEntries(es)| <= |raw|, CutAll(es))
    decreases |es|
  {
    hide *;
    if es == [] {
      NoEntryHere(raw, pos, es);
    } else {
      Unfold(raw, pos, es, w);
      NoneComes(CutAll(es));
      EntryHere(raw, pos, es[0], WriteEntries(es[1..]) + w);
      var next := pos + |WriteEntry(es[0])|;
      if next <= |raw| {
        EntriesHere(raw, next, es[1..], w);
        ComesAfter(Cut(es[0]), ReadEntries(raw, next, |es| - 1), pos + |WriteEntries(es)| <= |raw|, CutAll(es[1..]));
      }
    }
  }

  lemma NoEntryHere(raw: seq<byte>, pos: nat, es: seq<Entry>)
    requires es == [] && pos <= |raw|
    ensures Comes(ReadEntries(raw, pos, |es|), pos + |WriteEntries(es)| <= |raw|, CutAll(es))
  {
  }

  lemma NoneComes(want: seq<Entry>)
    requires want != []
    ensures Comes(Index(false, []), false, want)
  {
  }

  lemma Unfold(raw: seq<byte>, pos: nat, es: seq<Entry>, w: seq<byte>)
    requires es != []
    ensures WriteEntries(es) + w == WriteEntry(es[0]) + (WriteEntries(es[1..]) + w)
    ensures |WriteEntries(es)| == |WriteEntry(es[0])| + |WriteEntries(es[1..])|
    ensures CutAll(es) == [Cut(es[0])] + CutAll(es[1..])
    ensures var p := ReadEntry(raw, pos);
            ReadEntries(raw, pos, |es|) ==
            if p.TooShort? then Index(false, [])
            else Index(ReadEntries(raw, p.next, |es| - 1).ok, [p.entry] + ReadEntries(raw, p.next, |es| - 1).entries)
  {
    hide WriteEntry, ReadEntry, Cut;
    UnfoldWrite(es, w);
    UnfoldCut(es);
    hide WriteEntries, CutAll;
  }

  lemma UnfoldWrite(es: seq<Entry>, w: seq<byte>)
    requires es != []
    ensures WriteEntries(es) + w == WriteEntry(es[0]) + (WriteEntries(es[1..]) + w)
    ensures |WriteEntries(es)| == |WriteEntry(es[0])| + |WriteEntries(es[1..])|
  {
    hide WriteEntry;
  }

  lemma UnfoldCut(es: seq<Entry>)
    requires es != []
    ensures CutAll(es) == [Cut(es[0])] + CutAll(es[1..])
  {
    hide Cut;
  }

  lemma HeaderHere(raw: seq<byte>, n: nat, w: seq<byte>)
    requires Begins(raw, 0, Header(n) + w)
    ensures Begins(raw, 9, w)
    ensures |raw| >= 9 ==> U32At(raw, 0) == MAGIC && raw[4] == VERSION && U32At(raw, 5) == n % COUNT_LIMIT
  {
    var m: Uint32 := n % COUNT_LIMIT;
    assert Header(n) + w == U32(MAGIC) + (One(VERSION) + (U32(m) + w));
    assert |One(VERSION)| == 1 && One(VERSION)[0] == VERSION;
    hide Begins, U32, U32At, One, Header;
    BeginsPast(raw, 0, U32(MAGIC), One(VERSION) + (U32(m) + w));
    BeginsPast(raw, 4, One(VERSION), U32(m) + w);
    BeginsPast(raw, 5, U32(m), w);
    if |raw| >= 9 {
      U32Here(raw, 0, MAGIC, One(VERSION) + (U32(m) + w));
      BeginsAt(raw, 4, One(VERSION) + (U32(m) + w), 4);
      U32Here(raw, 5, m, w);
    }
  }

  /** The entries that the count field covers: all of them, below 2^32. */
  function Counted(es: seq<Entry>): seq<Entry> { es[..|es| % COUNT_LIMIT] }

  lemma {:induction false} WriteSplit(es: seq<Entry>, n: nat)
    requires n <= |es|
    ensures WriteEntries(es) == WriteEntries(es[..n]) + WriteEntries(es[n..])
  {
    hide WriteEntry;
    if n > 0 {
      WriteSplit(es[1..], n - 1);
      assert es[..n][1..] == es[1..][..n - 1] && es[1..][n - 1..] == es[n..];
    } else {
      assert es[..n] == [] && es[n..] == es;
    }
  }

  /**
   An index read back, from a file that may be cut off anywhere or go on after it: while its bytes are all
   there the entries come back as far as they fit their fields; one byte less and it is refused, with no
   more than some first entries read.
   */
  lemma ReadWrite(raw: seq<byte>, es: seq<Entry>, w: seq<byte>)
    requires Begins(raw, 0, Write(es) + w)
    ensures var need, r := 9 + |WriteEntries(Counted(es))|, Read(raw);
            if need <= |raw| then r == Index(true, CutAll(Counted(es)))
            else !r.ok && r.entries <= CutAll(Counted(es))
  {
    var n := |es| % COUNT_LIMIT;
    var first, more := es[..n], WriteEntries(es[n..]);
    WriteSplit(es, n);
    assert Write(es) + w == Header(|es|) + (WriteEntries(first) + (more + w));
    assert |es[..n]| == n;
    hide WriteEntries, Header, Begins, Cut, ReadEntries;
    HeaderHere(raw, |es|, WriteEntries(first) + (more + w));
    if |raw| >= 9 { EntriesHere(raw, 9, first, more + w); }
  }

  predicate Fits(e: Entry) { |e.filename| <= 255 && |e.snippet| <= 65535 }

  /** Nothing is lost of fewer than 2^32 entries whose names and snippets fit; and no shorter file passes for them. */
  lemma RoundTrip(es: seq<Entry>, k: nat)
    requires |es| < COUNT_LIMIT && (forall i :: 0 <= i < |es| ==> Fits(es[i])) && k <= |Write(es)|
    ensures Read(Write(es)) == Index(true, es)
    ensures k < |Write(es)| ==> !Read(Write(es)[..k]).ok
  {
    assert es[..|es|] == es && |es| % COUNT_LIMIT == |es|;
    forall i | 0 <= i < |es| ensures CutAll(es)[i] == es[i] {
      assert Fits(es[i]);
    }
    var all := Write(es);
    assert all + [] == all && all[..|all|] == all;
    assert |all| == 9 + |WriteEntries(es)|;
    PrefixBegins(all, all);
    PrefixBegins(all[..k], all);
    hide Write, Read, Begins, Cut, WriteEntries;
    ReadWrite(all, es, []);
    ReadWrite(all[..k], es, []);
  }

  // ---- The loops ----

  method SaveIndex(es: seq<Entry>) returns (buf: seq<byte>)
    ensures buf == Write(es)
  {
    hide U32, WriteEntry;
    buf := U32(MAGIC);
    buf := buf + One(VERSION);
    buf := buf + U32(|es| % COUNT_LIMIT);
    assert buf == Header(|es|);
    hide Header;
    for i := 0 to |es|
      invariant buf == Header(|es|) + WriteEntries(es[..i])
    {
      WriteNext(es, i);
      buf := AppendEntry(buf, es[i]);
    }
    assert es[..|es|] == es;
  }

  method AppendEntry(was: seq<byte>, e: Entry) returns (buf: seq<byte>)
    ensures buf == was + WriteEntry(e)
  {
    hide U32, U16;
    buf := was + U32(e.mtime);
    var name := Take(e.filename, 255);
    buf := buf + One(|name|);
    buf := buf + name;
    var snip := Take(e.snippet, 65535);
    hide Take, One;
    buf := buf + U16(|snip|);
    buf := buf + snip;
    buf := buf + One(if e.truncated then 1 else 0);
  }

  lemma WriteNext(es: seq<Entry>, i: nat)
    requires i < |es|
    ensures WriteEntries(es[..i + 1]) == WriteEntries(es[..i]) + WriteEntry(es[i])
  {
    hide WriteEntry;
    WriteSplit(es[..i + 1], i);
    assert es[..i + 1][..i] == es[..i] && es[..i + 1][i..] == [es[i]];
    assert [es[i]][1..] == [];
  }

  function After(out: seq<Entry>, r: Index): Index { Index(r.ok, out + r.entries) }

  lemma ReadNext(raw: seq<byte>, pos: nat, count: nat, out: seq<Entry>)
    requires count > 0
    ensures var p := ReadEntry(raw, pos);
            After(out, ReadEntries(raw, pos, count)) ==
            if p.TooShort? then Index(false, out) else After(out + [p.entry], ReadEntries(raw, p.next, count - 1))
  {
    hide ReadEntry;
    var p := ReadEntry(raw, pos);
    if p.TooShort? {
      assert out + [] == out;
    } else {
      var more := ReadEntries(raw, p.next, count - 1).entries;
      assert out + ([p.entry] + more) == out + [p.entry] + more;
    }
  }

  method LoadIndex(raw: seq<byte>) returns (ok: bool, out: seq<Entry>)
    ensures Index(ok, out) == Read(raw)
  {
    hide ReadEntry, U16At, U32At;
    out := [];
    if |raw| < 9 { return false, out; }
    var pos: nat := 0;
    var magic := U32At(raw, pos);
    pos := pos + 4;
    if magic != MAGIC || raw[pos] != VERSION { return false, out; }
    pos := pos + 1;
    var count := U32At(raw, pos);
    pos := pos + 4;
    assert [] + ReadEntries(raw, pos, count).entries == ReadEntries(raw, pos, count).entries;
    hide Read;
    for i := 0 to count
      invariant Read(raw) == After(out, ReadEntries(raw, pos, count - i))
    {
      ReadNext(raw, pos, count - i, out);
      hide *;
      var p := LoadEntry(raw, pos);
      if p.TooShort? { return false, out; }
      out := out + [p.entry];
      pos := p.next;
    }
    assert out + [] == out;
    ok := true;
  }

  /** The body of the loading loop: the position moves past one field after the other. */
  method LoadEntry(raw: seq<byte>, start: nat) returns (p: Parsed)
    ensures p == ReadEntry(raw, start)
  {
    hide U16At, U32At;
    var pos := start;
    if pos + 4 > |raw| { return TooShort; }
    var mtime := U32At(raw, pos);
    pos := pos + 4;
    if pos >= |raw| { return TooShort; }
    var nameLen := raw[pos];
    pos := pos + 1;
    if pos + nameLen > |raw| { return TooShort; }
    var filename := raw[pos..pos + nameLen];
    pos := pos + nameLen;
    if pos + 2 > |raw| { return TooShort; }
    var snipLen := U16At(raw, pos);
    pos := pos + 2;
    if pos + snipLen + 1 > |raw| { return TooShort; }
    var snippet := raw[pos..pos + snipLen];
    pos := pos + snipLen;
    var truncated := raw[pos] != 0;
    pos := pos + 1;
    p := Parsed(Entry(filename, mtime, snippet, truncated), pos);
  }
}
