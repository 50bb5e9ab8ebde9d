/** The Telegram favourites as two stored strings: the ids with commas, and a record for each title. */
module Favourites {
  import opened Strings
  import opened Numerals

  const RS := '\U{1E}'
  const US := '\U{1F}'

  datatype Fav = Fav(id: Int64, title: string)

  /** The parts a separator leaves; nothing after a last separator is no part. */
  function Parts(s: string, c: char): seq<string>
    decreases |s|
  {
    if s == "" then [] else
    var j := Find(s, c, 0);
    [s[..j]] + if j == |s| then [] else Parts(s[j + 1..], c)
  }

  /** An id that is 0 or does not parse is not a chat. */
  function ReadIds(parts: seq<string>): (favs: seq<Fav>)
    ensures forall i :: 0 <= i < |favs| ==> favs[i].id != 0 && favs[i].title == ""
  {
    if parts == [] then [] else
    var id := Strtoll(parts[|parts| - 1]);
    ReadIds(parts[..|parts| - 1]) + if id != 0 then [Fav(id, "")] else []
  }

  function SetTitle(favs: seq<Fav>, id: int, title: string): (r: seq<Fav>)
    ensures |r| == |favs|
    ensures forall i :: 0 <= i < |favs| ==> r[i] == if favs[i].id == id then Fav(favs[i].id, title) else favs[i]
  {
    seq(|favs|, i requires 0 <= i < |favs| => if favs[i].id == id then favs[i].(title := title) else favs[i])
  }

  function ReadTitle(favs: seq<Fav>, rec: string): (r: seq<Fav>)
    ensures |r| == |favs|
  {
    var sep := Find(rec, US, 0);
    if sep == |rec| then favs else SetTitle(favs, Strtoll(rec[..sep]), rec[sep + 1..])
  }

  function ReadTitles(favs: seq<Fav>, recs: seq<string>): (r: seq<Fav>)
    ensures |r| == |favs|
  {
    if recs == [] then favs else ReadTitle(ReadTitles(favs, recs[..|recs| - 1]), recs[|recs| - 1])
  }

  function Decode(ids: string, titles: string): seq<Fav> {
    ReadTitles(ReadIds(Parts(ids, ',')), Parts(titles, RS))
  }

  function WriteIds(favs: seq<Fav>): string {
    if favs == [] then "" else
    var front := WriteIds(favs[..|favs| - 1]);
    (if front == "" then "" else front + ",") + Print(favs[|favs| - 1].id)
  }

  function Record(f: Fav): string { Print(f.id) + [US] + f.title }

  function WriteTitles(favs: seq<Fav>): string {
    if favs == [] then "" else
    var last := favs[|favs| - 1];
    WriteTitles(favs[..|favs| - 1]) + if last.title == "" then "" else Record(last) + [RS]
  }

  // ---- What the format can hold ----

  predicate Sound(f: Fav) { f.id != 0 && RS !in f.title }

  /** No 0 for an id, no record separator in a title, and one title for one id. */
  ghost predicate WellFormed(favs: seq<Fav>) {
    (forall i :: 0 <= i < |favs| ==> Sound(favs[i])) &&
    forall i, j :: 0 <= i < |favs| && 0 <= j < |favs| && favs[i].id == favs[j].id ==> favs[i].title == favs[j].title
  }

  lemma {:induction false} PartsHaveNone(s: string, c: char)
    ensures forall i :: 0 <= i < |Parts(s, c)| ==> c !in Parts(s, c)[i]
    decreases |s|
  {
    if s != "" {
      var j := Find(s, c, 0);
      if j < |s| { PartsHaveNone(s[j + 1..], c); }
    }
  }

  lemma {:induction false} ReadTitlesSound(favs: seq<Fav>, recs: seq<string>)
    requires WellFormed(favs) && forall i :: 0 <= i < |recs| ==> RS !in recs[i]
    ensures WellFormed(ReadTitles(favs, recs))
  {
    hide Strtoll, Find;
    if recs != [] { ReadTitlesSound(favs, recs[..|recs| - 1]); }
  }

  /** Whatever is stored, what is read is well formed. */
  lemma DecodeWellFormed(ids: string, titles: string)
    ensures WellFormed(Decode(ids, titles))
  {
    PartsHaveNone(titles, RS);
    ReadTitlesSound(ReadIds(Parts(ids, ',')), Parts(titles, RS));
  }

  // ---- Reading what was written ----

  lemma {:induction false} FindFirst(s: string, c: char, j: nat, i: nat)
    requires i <= j < |s| && s[j] == c && c !in s[i..j]
    ensures Find(s, c, i) == j
    decreases j - i
  {
    if i < j {
      assert s[i] == s[i..j][0] && s[i + 1..j] == s[i..j][1..];
      FindFirst(s, c, j, i + 1);
    }
  }

  lemma FirstPart(x: string, c: char, t: string)
    requires Lacks(x, c)
    ensures Parts(x + [c] + t, c) == [x] + Parts(t, c)
  {
    var s := x + [c] + t;
    FindFirst(s, c, |x|, 0);
    hide Find;
    assert s[..|x|] == x && s[|x| + 1..] == t;
  }

  lemma OnlyPart(x: string, c: char)
    requires Lacks(x, c) && x != ""
    ensures Parts(x, c) == [x]
  {
    assert x[..|x|] == x;
  }

  lemma LastPart(x: string, c: char)
    requires Lacks(x, c)
    ensures Parts(x + [c], c) == [x]
  {
    assert x + [c] + "" == x + [c];
    FirstPart(x, c, "");
  }

  lemma SplitAt(x: string, c: char) returns (a: string, b: string)
    requires c in x
    ensures x == a + [c] + b && Lacks(a, c)
  {
    var j := Find(x, c, 0);
    a, b := x[..j], x[j + 1..];
  }

  lemma Joined(a: string, c: char, b: string, t: string)
    ensures a + [c] + b + [c] + t == a + [c] + (b + [c] + t)
    ensures a + [c] + b + [c] == a + [c] + (b + [c])
  {
  }

  lemma {:induction false} PartsJoin(x: string, c: char, t: string)
    ensures Parts(x + [c] + t, c) == Parts(x + [c], c) + Parts(t, c)
    decreases |x|
  {
    if c in x {
      var a, b := SplitAt(x, c);
      hide Parts, Lacks;
      Joined(a, c, b, t);
      FirstPart(a, c, b + [c] + t);
      FirstPart(a, c, b + [c]);
      PartsJoin(b, c, t);
      Grouped(a, Parts(b + [c], c), Parts(t, c));
    } else {
      hide Parts;
      FirstPart(x, c, t);
      LastPart(x, c);
    }
  }

  lemma Grouped(a: string, p: seq<string>, q: seq<string>)
    ensures [a] + (p + q) == [a] + p + q
  {
  }

  function Printed(favs: seq<Fav>): seq<string> { seq(|favs|, i requires 0 <= i < |favs| => Print(favs[i].id)) }

  lemma {:induction false} IdsParts(favs: seq<Fav>)
    requires favs != []
    ensures WriteIds(favs) != "" && Parts(WriteIds(favs) + ",", ',') == Printed(favs) == Parts(WriteIds(favs), ',')
  {
    hide Parts, Print;
    var n := |favs| - 1;
    var w, p := WriteIds(favs[..n]), Print(favs[n].id);
    PrintChars(favs[n].id, ',');
    LastPart(p, ',');
    OnlyPart(p, ',');
    assert Printed(favs) == Printed(favs[..n]) + [p];
    if n > 0 {
      IdsParts(favs[..n]);
      PartsJoin(w, ',', p);
      PartsJoin(w, ',', p + ",");
      hide Printed, WriteIds;
      assert w + "," + p + "," == w + "," + (p + ",");
    } else {
      assert favs[..n] == [] && "" + p == p;
    }
  }

  function Blank(favs: seq<Fav>): seq<Fav> { seq(|favs|, i requires 0 <= i < |favs| => Fav(favs[i].id, "")) }

  lemma {:induction false} ReadPrintedIds(favs: seq<Fav>)
    requires forall i :: 0 <= i < |favs| ==> favs[i].id != 0
    ensures ReadIds(Printed(favs)) == Blank(favs)
  {
    hide Strtoll, Print;
    if favs != [] {
      var n := |favs| - 1;
      ReadPrintedIds(favs[..n]);
      ReadPrint(favs[n].id);
      assert Printed(favs)[..n] == Printed(favs[..n]);
      assert Blank(favs) == Blank(favs[..n]) + [Fav(favs[n].id, "")];
    }
  }

  function Records(favs: seq<Fav>): seq<string> {
    if favs == [] then [] else
    var last := favs[|favs| - 1];
    Records(favs[..|favs| - 1]) + if last.title == "" then [] else [Record(last)]
  }

  lemma {:induction false} TitlesParts(favs: seq<Fav>)
    requires forall i :: 0 <= i < |favs| ==> RS !in favs[i].title
    ensures Parts(WriteTitles(favs), RS) == Records(favs)
    ensures WriteTitles(favs) != "" ==> WriteTitles(favs)[|WriteTitles(favs)| - 1] == RS
  {
    if favs != [] {
      var n := |favs| - 1;
      TitlesParts(favs[..n]);
      WriteLast(favs);
      NoSeparator(favs[n]);
      hide Parts, Record, WriteTitles, Records, Lacks;
      if favs[n].title != "" { NextRecord(WriteTitles(favs[..n]), Record(favs[n])); }
    }
  }

  lemma WriteLast(favs: seq<Fav>)
    requires favs != []
    ensures var n := |favs| - 1;
            if favs[n].title == "" then WriteTitles(favs) == WriteTitles(favs[..n]) &&
              Records(favs) == Records(favs[..n])
            else WriteTitles(favs) == WriteTitles(favs[..n]) + (Record(favs[n]) + [RS]) &&
                 Records(favs) == Records(favs[..n]) + [Record(favs[n])]
  {
    hide Record;
    var n := |favs| - 1;
    assert WriteTitles(favs[..n]) + "" == WriteTitles(favs[..n]) && Records(favs[..n]) + [] == Records(favs[..n]);
  }

  lemma NoSeparator(f: Fav)
    requires RS !in f.title
    ensures Lacks(Record(f), RS)
  {
    PrintChars(f.id, RS);
  }

  lemma NextRecord(w: string, rec: string)
    requires Lacks(rec, RS) && (w == "" || w[|w| - 1] == RS)
    ensures Parts(w + (rec + [RS]), RS) == Parts(w, RS) + [rec]
  {
    LastPart(rec, RS);
    assert Parts("", RS) == [];
    hide Parts, Lacks;
    if w == "" {
      assert w + (rec + [RS]) == rec + [RS];
    } else {
      PartsJoin(w[..|w| - 1], RS, rec + [RS]);
      LastOff(w, RS);
    }
  }

  lemma LastOff(w: string, c: char)
    requires w != "" && w[|w| - 1] == c
    ensures w[..|w| - 1] + [c] == w
  {
  }

  /** What is stored: the ids with commas between, and each title behind its id, closed by a record separator. */
  lemma StoredForm(favs: seq<Fav>)
    requires forall i :: 0 <= i < |favs| ==> RS !in favs[i].title
    ensures favs == [] <==> WriteIds(favs) == ""
    ensures favs != [] ==> Parts(WriteIds(favs), ',') == Printed(favs)
    ensures Parts(WriteTitles(favs), '\U{1E}') == Records(favs)
    ensures forall i :: 0 <= i < |favs| ==> Record(favs[i]) == Print(favs[i].id) + "\U{1F}" + favs[i].title
  {
    if favs != [] { IdsParts(favs); }
    TitlesParts(favs);
    hide Parts, Print, Printed, Records, WriteTitles;
  }

  lemma ReadRecord(favs: seq<Fav>, f: Fav)
    ensures ReadTitle(favs, Record(f)) == SetTitle(favs, f.id, f.title)
  {
    PrintChars(f.id, US);
    FindFirst(Record(f), US, |Print(f.id)|, 0);
    ReadPrint(f.id);
    hide Find, Print, Strtoll;
    assert Record(f)[..|Print(f.id)|] == Print(f.id);
    assert Record(f)[|Print(f.id)| + 1..] == f.title;
  }

  /** Some of the first k favourites has a title to store for this id. */
  predicate Named(favs: seq<Fav>, k: nat, id: int)
    requires k <= |favs|
  {
    exists j :: 0 <= j < k && favs[j].id == id && favs[j].title != ""
  }

  /** After the first k records: a title is back if one of them had it. */
  ghost predicate Filled(favs: seq<Fav>, k: nat, r: seq<Fav>) {
    k <= |favs| && |r| == |favs| &&
    forall i :: 0 <= i < |favs| ==> r[i] == Fav(favs[i].id, if Named(favs, k, favs[i].id) then favs[i].title else "")
  }

  lemma FilledNext(favs: seq<Fav>, k: nat, r: seq<Fav>)
    requires WellFormed(favs) && k < |favs| && Filled(favs, k, r)
    ensures Filled(favs, k + 1, if favs[k].title == "" then r else SetTitle(r, favs[k].id, favs[k].title))
  {
    forall i | 0 <= i < |favs|
      ensures Named(favs, k + 1, favs[i].id) <==>
        Named(favs, k, favs[i].id) || (favs[k].id == favs[i].id && favs[k].title != "")
    {
    }
  }

  lemma {:induction false} TitlesComeBack(favs: seq<Fav>, k: nat)
    requires WellFormed(favs) && k <= |favs|
    ensures Filled(favs, k, ReadTitles(Blank(favs), Records(favs[..k])))
  {
    if k > 0 {
      TitlesComeBack(favs, k - 1);
      assert favs[..k][..k - 1] == favs[..k - 1];
      WriteLast(favs[..k]);
      hide Filled, WellFormed, Records, Record, ReadTitle, ReadTitles, SetTitle, WriteTitles;
      var recs := Records(favs[..k - 1]);
      var r := ReadTitles(Blank(favs), recs);
      FilledNext(favs, k - 1, r);
      ReadRecord(r, favs[k - 1]);
      ReadTitlesLast(Blank(favs), recs, Record(favs[k - 1]));
    } else {
      hide WellFormed, Sound;
      assert favs[..k] == [];
    }
  }

  lemma ReadTitlesLast(favs: seq<Fav>, recs: seq<string>, rec: string)
    ensures ReadTitles(favs, recs + [rec]) == ReadTitle(ReadTitles(favs, recs), rec)
  {
    hide ReadTitle;
    assert (recs + [rec])[..|recs|] == recs;
  }

  /** The stored form gives the list back exactly when the list is well formed. */
  lemma RoundTrip(favs: seq<Fav>)
    ensures Decode(WriteIds(favs), WriteTitles(favs)) == favs <==> WellFormed(favs)
  {
    hide WriteIds, WriteTitles, WellFormed;
    if WellFormed(favs) { ComesBack(favs); }
    DecodeWellFormed(WriteIds(favs), WriteTitles(favs));
  }

  lemma ComesBack(favs: seq<Fav>)
    requires WellFormed(favs)
    ensures Decode(WriteIds(favs), WriteTitles(favs)) == favs
  {
    TitlesParts(favs);
    assert favs == [] ==> Parts(WriteIds(favs), ',') == [] == Printed(favs);
    if favs != [] { IdsParts(favs); }
    ReadPrintedIds(favs);
    hide Parts, Records, WriteIds, WriteTitles, ReadTitles, Printed, ReadIds, Blank, Sound;
    AllTitles(favs);
  }

  lemma AllTitles(favs: seq<Fav>)
    requires WellFormed(favs)
    ensures ReadTitles(Blank(favs), Records(favs)) == favs
  {
    hide Records, ReadTitles;
    TitlesComeBack(favs, |favs|);
    assert favs[..|favs|] == favs;
  }

  /** Storing again what was read changes nothing that is read. */
  lemma DecodeEncodeDecode(ids: string, titles: string)
    ensures var favs := Decode(ids, titles); Decode(WriteIds(favs), WriteTitles(favs)) == favs
  {
    DecodeWellFormed(ids, titles);
    RoundTrip(Decode(ids, titles));
  }

  // ---- The loops ----

  function Rest(s: string, i: nat): string { if i <= |s| then s[i..] else "" }

  /** w is a, and then, unless that is all, the separator and b. */
  predicate Cut(w: string, a: string, c: char, b: string) {
    Lacks(a, c) && w != "" && (w == a + [c] + b || (w == a && b == ""))
  }

  lemma CutAt(s: string, c: char, i: nat)
    requires i < |s|
    ensures var j := Find(s, c, i); Cut(s[i..], s[i..j], c, Rest(s, j + 1))
  {
    var j := Find(s, c, i);
    if j < |s| { assert s[i..] == s[i..j] + [c] + s[j + 1..]; } else { assert s[i..j] == s[i..]; }
  }

  lemma CutParts(w: string, a: string, c: char, b: string)
    requires Cut(w, a, c, b)
    ensures Parts(w, c) == [a] + Parts(b, c)
  {
    if w == a + [c] + b {
      FirstPart(a, c, b);
    } else {
      OnlyPart(a, c);
    }
  }

  lemma NextPart(s: string, c: char, i: nat)
    requires i < |s|
    ensures var j := Find(s, c, i); Parts(s[i..], c) == [s[i..j]] + Parts(Rest(s, j + 1), c)
  {
    var j := Find(s, c, i);
    CutAt(s, c, i);
    hide Cut, Parts, Find, Rest, Lacks;
    CutParts(s[i..], s[i..j], c, Rest(s, j + 1));
  }

  lemma ReadIdsLast(parts: seq<string>, part: string)
    ensures ReadIds(parts + [part]) ==
      ReadIds(parts) + if Strtoll(part) != 0 then [Fav(Strtoll(part), "")] else []
  {
    hide Strtoll;
    assert (parts + [part])[..|parts|] == parts;
  }

  method DecodeFavourites(ids: string, titles: string) returns (out: seq<Fav>)
    ensures out == Decode(ids, titles)
  {
    hide Find, Strtoll, Parts, ReadIds, ReadTitle, ReadTitles;
    out := DecodeIds(ids);
    var i := 0;
    ghost var done: seq<string>, was := [], out;
    assert titles[0..] == titles && done + Parts(titles, RS) == Parts(titles, RS);
    assert ReadTitles(out, []) == out by { NoTitles(out); }
    while i < |titles|
      invariant done + Parts(Rest(titles, i), RS) == Parts(titles, RS)
      invariant out == ReadTitles(was, done)
    {
      var end := Find(titles, RS, i);
      NextPart(titles, RS, i);
      ReadTitlesLast(was, done, titles[i..end]);
      After(done, titles[i..end], Parts(Rest(titles, end + 1), RS));
      out := PatchTitle(out, titles[i..end]);
      done := done + [titles[i..end]];
      i := end + 1;
    }
    NoMoreParts(titles, i, done);
  }

  lemma NoTitles(out: seq<Fav>)
    ensures ReadTitles(out, []) == out && ReadIds([]) == []
  {
  }

  lemma NoMoreParts(s: string, i: nat, done: seq<string>)
    requires i >= |s|
    ensures forall c :: done + Parts(Rest(s, i), c) == done
  {
  }

  lemma After(done: seq<string>, x: string, more: seq<string>)
    ensures done + ([x] + more) == done + [x] + more
  {
  }

  method DecodeIds(ids: string) returns (out: seq<Fav>)
    ensures out == ReadIds(Parts(ids, ','))
  {
    hide Find, Strtoll, Parts, ReadIds;
    out := [];
    var i := 0;
    ghost var done: seq<string> := [];
    NoTitles([]);
    assert ids[0..] == ids && done + Parts(ids, ',') == Parts(ids, ',');
    while i < |ids|
      invariant done + Parts(Rest(ids, i), ',') == Parts(ids, ',')
      invariant out == ReadIds(done)
    {
      var j := Find(ids, ',', i);
      NextPart(ids, ',', i);
      ReadIdsLast(done, ids[i..j]);
      After(done, ids[i..j], Parts(Rest(ids, j + 1), ','));
      var id := Strtoll(ids[i..j]);
      if id != 0 { out := out + [Fav(id, "")]; }
      done := done + [ids[i..j]];
      i := j + 1;
    }
    NoMoreParts(ids, i, done);
  }

  /** A record's title goes to every favourite with its id. */
  method PatchTitle(favs: seq<Fav>, rec: string) returns (out: seq<Fav>)
    ensures out == ReadTitle(favs, rec)
  {
    hide Strtoll;
    out := favs;
    var sep := Find(rec, US, 0);
    if sep != |rec| {
      var id := Strtoll(rec[..sep]);
      for i := 0 to |out|
        invariant |out| == |favs|
        invariant forall k :: 0 <= k < |favs| ==>
          out[k] == if k < i && favs[k].id == id then Fav(favs[k].id, rec[sep + 1..]) else favs[k]
      {
        if out[i].id == id { out := out[i := out[i].(title := rec[sep + 1..])]; }
      }
      assert out == SetTitle(favs, id, rec[sep + 1..]);
    }
  }

  method Encode(favs: seq<Fav>) returns (ids: string, titles: string)
    ensures ids == WriteIds(favs) && titles == WriteTitles(favs)
    ensures Decode(ids, titles) == favs <==> WellFormed(favs)
  {
    hide Print, WellFormed, Decode;
    ids, titles := "", "";
    for i := 0 to |favs|
      invariant ids == WriteIds(favs[..i]) && titles == WriteTitles(favs[..i])
    {
      var b := Print(favs[i].id);
      assert favs[..i + 1][..i] == favs[..i];
      if ids != "" { ids := ids + ","; }
      ids := ids + b;
      WriteLast(favs[..i + 1]);
      if favs[i].title == "" { continue; }
      titles := titles + (b + [US] + favs[i].title + [RS]);
    }
    assert favs[..|favs|] == favs;
    RoundTrip(favs);
  }
}
