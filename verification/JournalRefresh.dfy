/** The journal's rescan: keep what has not changed, read the rest, and the result is a full scan. */
module JournalRefresh {
  import opened Bytes
  import opened JournalIndex

  type Name = seq<byte>

  /** A note as a scan sees it: its stamp, and what reading the beginning of it gives. */
  datatype File = File(stamp: Uint32, snippet: seq<byte>, truncated: bool)

  type Files = map<Name, File>

  const SLASH: byte := 47
  const TASKS: Name := [116, 97, 115, 107, 115, 46, 116, 120, 116]

  predicate IsTasks(n: Name) { (if n != [] && n[0] == SLASH then n[1..] else n) == TASKS }

  /** The to-do file: its nine letters, with a slash before them or without. */
  lemma TasksNames(n: Name)
    ensures IsTasks(n) <==> n == TASKS || n == [47] + TASKS
    ensures |TASKS| == 9 && forall i :: 0 <= i < 9 ==> TASKS[i] as int == "tasks.txt"[i] as int
  {
    if n != [] { assert n == [n[0]] + n[1..]; }
  }

  function EntryOf(n: Name, f: File): Entry { Entry(n, f.stamp, f.snippet, f.truncated) }

  // ---- Order of names ----

  predicate Less(a: Name, b: Name) {
    b != [] && (a == [] || a[0] < b[0] || (a[0] == b[0] && Less(a[1..], b[1..])))
  }

  /** The first byte in which two names differ decides, and a name comes before any that goes on after it. */
  predicate DiffersAt(a: Name, b: Name, k: nat) {
    k <= |a| && k < |b| && a[..k] == b[..k] && (k == |a| || a[k] < b[k])
  }

  lemma {:induction false} LessWhen(a: Name, b: Name)
    ensures Less(a, b) <==> exists k: nat :: DiffersAt(a, b, k)
  {
    if a != [] && b != [] && a[0] == b[0] {
      LessWhen(a[1..], b[1..]);
      if k: nat :| DiffersAt(a[1..], b[1..], k) {
        assert a[..k + 1] == [a[0]] + a[1..][..k] && b[..k + 1] == [b[0]] + b[1..][..k];
        assert DiffersAt(a, b, k + 1);
      }
      if k: nat :| DiffersAt(a, b, k) {
        assert k > 0;
        assert a[1..][..k - 1] == a[..k][1..] && b[1..][..k - 1] == b[..k][1..];
        assert DiffersAt(a[1..], b[1..], k - 1);
      }
    } else {
      if Less(a, b) { assert DiffersAt(a, b, 0); }
      if k: nat :| DiffersAt(a, b, k) { SameFirst(a, b, k); }
    }
  }

  lemma SameFirst(a: Name, b: Name, k: nat)
    requires DiffersAt(a, b, k)
    ensures k > 0 ==> a[0] == b[0]
  {
    if k > 0 { assert a[0] == a[..k][0] && b[0] == b[..k][0]; }
  }

  lemma {:induction false} LessTotal(a: Name, b: Name)
    ensures a == b || Less(a, b) || Less(b, a)
    ensures !(Less(a, b) && Less(b, a)) && !Less(a, a)
  {
    if a != [] && b != [] {
      assert a == [a[0]] + a[1..] && b == [b[0]] + b[1..];
      LessTotal(a[1..], b[1..]);
      LessTotal(a[1..], a[1..]);
    } else if a != [] {
      LessTotal(a[1..], a[1..]);
    }
  }

  lemma {:induction false} LessTrans(a: Name, b: Name, c: Name)
    requires Less(a, b) && Less(b, c)
    ensures Less(a, c)
  {
    if a != [] && a[0] == b[0] == c[0] { LessTrans(a[1..], b[1..], c[1..]); }
  }

  // ---- What a scan should give ----

  /** The notes of the file system, the to-do file left out, newest name first, each as it is now. */
  ghost predicate IsScan(fs: Files, es: seq<Entry>) {
    (forall i :: 0 <= i < |es| ==> IsNow(fs, es[i])) &&
    (forall i, j :: 0 <= i < j < |es| ==> Less(es[j].filename, es[i].filename)) &&
    forall n :: n in fs && !IsTasks(n) ==> Has(es, n)
  }

  predicate IsNow(fs: Files, e: Entry) {
    e.filename in fs && !IsTasks(e.filename) && e == EntryOf(e.filename, fs[e.filename])
  }

  predicate Has(es: seq<Entry>, n: Name) { exists i :: 0 <= i < |es| && es[i].filename == n }

  /** The same notes with the same contents, under the same stamps. */
  ghost predicate SameNotes(a: Files, b: Files) {
    forall n :: !IsTasks(n) ==> (n in a <==> n in b) && (n in a ==> EntryOf(n, a[n]) == EntryOf(n, b[n]))
  }

  /** A scan of some files is one of others exactly when their notes are the same. */
  lemma ScanOfSame(a: Files, b: Files, es: seq<Entry>)
    requires IsScan(a, es)
    ensures IsScan(b, es) <==> SameNotes(a, b)
  {
    hide Less, IsTasks, EntryOf;
    if IsScan(b, es) {
      forall n | !IsTasks(n) && (n in a || n in b)
        ensures n in a && n in b && EntryOf(n, a[n]) == EntryOf(n, b[n])
      {
        var i :| 0 <= i < |es| && es[i].filename == n;
        assert IsNow(a, es[i]) && IsNow(b, es[i]);
      }
    }
    if SameNotes(a, b) {
      forall i | 0 <= i < |es| ensures IsNow(b, es[i]) {
        assert IsNow(a, es[i]);
      }
    }
  }

  /** There is only one such list. */
  lemma ScanUnique(fs: Files, a: seq<Entry>, b: seq<Entry>)
    requires IsScan(fs, a) && IsScan(fs, b)
    ensures a == b
  {
    hide IsTasks;
    forall i | 0 <= i < |a| ensures Has(b, a[i].filename) {
      assert IsNow(fs, a[i]);
    }
    forall i | 0 <= i < |b| ensures Has(a, b[i].filename) {
      assert IsNow(fs, b[i]);
    }
    SameScan(fs, a, b, 0);
  }

  lemma {:induction false} SameScan(fs: Files, a: seq<Entry>, b: seq<Entry>, k: nat)
    requires (forall i :: 0 <= i < |a| ==> IsNow(fs, a[i])) && (forall i :: 0 <= i < |b| ==> IsNow(fs, b[i]))
    requires forall i, j :: 0 <= i < j < |a| ==> Less(a[j].filename, a[i].filename)
    requires forall i, j :: 0 <= i < j < |b| ==> Less(b[j].filename, b[i].filename)
    requires forall i :: 0 <= i < |a| ==> Has(b, a[i].filename)
    requires forall i :: 0 <= i < |b| ==> Has(a, b[i].filename)
    requires k <= |a| && k <= |b| && a[..k] == b[..k]
    ensures a == b
    decreases |a| - k
  {
    if k < |a| && k < |b| {
      NextSame(a, b, k);
      assert IsNow(fs, a[k]) && IsNow(fs, b[k]);
      assert a[..k + 1] == a[..k] + [a[k]] && b[..k + 1] == b[..k] + [b[k]];
      SameScan(fs, a, b, k + 1);
    } else if k < |a| {
      NoExtra(a, b, k);
    } else if k < |b| {
      NoExtra(b, a, k);
    } else {
      assert a == a[..k] && b == b[..k];
    }
  }

  lemma NoExtra(a: seq<Entry>, b: seq<Entry>, k: nat)
    requires k < |a| && k == |b| && a[..k] == b[..k]
    requires forall i, j :: 0 <= i < j < |a| ==> Less(a[j].filename, a[i].filename)
    ensures !Has(b, a[k].filename)
  {
    forall i | 0 <= i < |b| ensures b[i].filename != a[k].filename {
      assert b[i] == b[..k][i] == a[..k][i] == a[i];
      LessTotal(a[k].filename, a[i].filename);
    }
  }

  lemma NextSame(a: seq<Entry>, b: seq<Entry>, k: nat)
    requires k < |a| && k < |b| && a[..k] == b[..k] && Has(b, a[k].filename) && Has(a, b[k].filename)
    requires forall i, j :: 0 <= i < j < |a| ==> Less(a[j].filename, a[i].filename)
    requires forall i, j :: 0 <= i < j < |b| ==> Less(b[j].filename, b[i].filename)
    ensures a[k].filename == b[k].filename
  {
    NotBelow(a, b, k);
    NotBelow(b, a, k);
    LessTotal(a[k].filename, b[k].filename);
  }

  lemma NotBelow(a: seq<Entry>, b: seq<Entry>, k: nat)
    requires k < |a| && k < |b| && a[..k] == b[..k] && Has(b, a[k].filename)
    requires forall i, j :: 0 <= i < j < |a| ==> Less(a[j].filename, a[i].filename)
    requires forall i, j :: 0 <= i < j < |b| ==> Less(b[j].filename, b[i].filename)
    ensures !Less(b[k].filename, a[k].filename)
  {
    var i :| 0 <= i < |b| && b[i].filename == a[k].filename;
    if i < k {
      assert b[i] == b[..k][i] == a[..k][i] == a[i];
      LessTotal(a[k].filename, a[i].filename);
    } else {
      LessTotal(b[k].filename, b[i].filename);
    }
  }

  // ---- The listing ----

  datatype Listed = Listed(name: Name, stamp: Uint32)

  predicate HasName(l: seq<Listed>, n: Name) { exists i :: 0 <= i < |l| && l[i].name == n }

  predicate IsListed(fs: Files, x: Listed) { x.name in fs && x.stamp == fs[x.name].stamp }

  ghost predicate Distinct(l: seq<Listed>) { forall i, j :: 0 <= i < j < |l| ==> l[i].name != l[j].name }

  /** A listing of the file system: every file once, in any order. */
  ghost predicate Lists(l: seq<Listed>, fs: Files) {
    Distinct(l) && (forall i :: 0 <= i < |l| ==> IsListed(fs, l[i])) && forall n :: n in fs ==> HasName(l, n)
  }

  ghost predicate Descending(l: seq<Listed>) { forall i, j :: 0 <= i < j < |l| ==> Less(l[j].name, l[i].name) }

  /** A listing with the to-do file taken out, newest name first. */
  ghost predicate SortedNotes(l: seq<Listed>, fs: Files) {
    Descending(l) && (forall i :: 0 <= i < |l| ==> IsListed(fs, l[i]) && !IsTasks(l[i].name)) &&
    forall n :: n in fs && !IsTasks(n) ==> HasName(l, n)
  }

  method RemoveTasks(l: seq<Listed>, ghost fs: Files) returns (r: seq<Listed>)
    requires Lists(l, fs)
    ensures Distinct(r) && forall i :: 0 <= i < |r| ==> IsListed(fs, r[i]) && !IsTasks(r[i].name)
    ensures forall n :: n in fs && !IsTasks(n) ==> HasName(r, n)
  {
    hide IsTasks, IsListed;
    r := [];
    for i := 0 to |l|
      invariant Distinct(r)
      invariant forall k :: 0 <= k < |r| ==> IsListed(fs, r[k]) && !IsTasks(r[k].name)
      invariant forall k :: 0 <= k < |r| ==> HasName(l[..i], r[k].name)
      invariant forall k :: 0 <= k < i && !IsTasks(l[k].name) ==> HasName(r, l[k].name)
    {
      assert l[..i + 1] == l[..i] + [l[i]];
      MoreNames(l[..i], l[i]);
      if !IsTasks(l[i].name) {
        MoreNames(r, l[i]);
        r := r + [l[i]];
      }
    }
    forall n | n in fs && !IsTasks(n) ensures HasName(r, n) {
      var i :| 0 <= i < |l| && l[i].name == n;
    }
  }

  lemma MoreNames(l: seq<Listed>, x: Listed)
    ensures HasName(l + [x], x.name)
    ensures forall n :: HasName(l, n) ==> HasName(l + [x], n)
  {
    assert (l + [x])[|l|] == x;
    forall n | HasName(l, n) ensures HasName(l + [x], n) {
      var i :| 0 <= i < |l| && l[i].name == n;
      assert (l + [x])[i].name == n;
    }
  }

  ghost predicate SameMembers(a: seq<Listed>, b: seq<Listed>) {
    (forall i :: 0 <= i < |a| ==> a[i] in b) && forall i :: 0 <= i < |b| ==> b[i] in a
  }

  method SortDescending(l: seq<Listed>) returns (r: seq<Listed>)
    requires Distinct(l)
    ensures Descending(r) && SameMembers(l, r)
  {
    hide Less;
    r := [];
    for i := 0 to |l|
      invariant Descending(r) && SameMembers(l[..i], r)
    {
      var x, pos := l[i], 0;
      ghost var was := r;
      NotThere(l, i, r);
      while pos < |r| && Less(x.name, r[pos].name)
        invariant 0 <= pos <= |r| && forall k :: 0 <= k < pos ==> Less(x.name, r[k].name)
      {
        pos := pos + 1;
      }
      Inserted(r, x, pos);
      r := r[..pos] + [x] + r[pos..];
      assert l[..i + 1] == l[..i] + [x];
      InsertedMembers(l[..i], was, x, pos);
    }
    assert l[..|l|] == l;
  }

  lemma NotThere(l: seq<Listed>, i: nat, r: seq<Listed>)
    requires Distinct(l) && i < |l| && SameMembers(l[..i], r)
    ensures forall k :: 0 <= k < |r| ==> r[k].name != l[i].name
  {
    forall k | 0 <= k < |r| ensures r[k].name != l[i].name {
      var j :| 0 <= j < i && l[..i][j] == r[k];
    }
  }

  lemma Inserted(r: seq<Listed>, x: Listed, pos: nat)
    requires Descending(r) && pos <= |r| && (forall k :: 0 <= k < |r| ==> r[k].name != x.name)
    requires (forall k :: 0 <= k < pos ==> Less(x.name, r[k].name)) && (pos < |r| ==> !Less(x.name, r[pos].name))
    ensures Descending(r[..pos] + [x] + r[pos..])
  {
    forall k | pos <= k < |r| ensures Less(r[k].name, x.name) {
      LessTotal(x.name, r[pos].name);
      hide Less;
      if k > pos { LessTrans(r[k].name, r[pos].name, x.name); }
    }
    hide Less;
  }

  lemma InsertedMembers(a: seq<Listed>, r: seq<Listed>, x: Listed, pos: nat)
    requires SameMembers(a, r) && pos <= |r|
    ensures SameMembers(a + [x], r[..pos] + [x] + r[pos..])
  {
    var b := r[..pos] + [x] + r[pos..];
    assert forall e :: e in b <==> e in r || e == x by {
      assert r == r[..pos] + r[pos..];
    }
  }

  lemma SortedIs(l: seq<Listed>, r: seq<Listed>, fs: Files)
    requires Descending(r) && SameMembers(l, r)
    requires forall i :: 0 <= i < |l| ==> IsListed(fs, l[i]) && !IsTasks(l[i].name)
    requires forall n :: n in fs && !IsTasks(n) ==> HasName(l, n)
    ensures SortedNotes(r, fs)
  {
    hide Less, IsTasks, IsListed, Descending;
    forall i | 0 <= i < |r| ensures IsListed(fs, r[i]) && !IsTasks(r[i].name) {
      assert r[i] in l;
      var k :| 0 <= k < |l| && l[k] == r[i];
    }
    forall n | n in fs && !IsTasks(n) ensures HasName(r, n) {
      var i :| 0 <= i < |l| && l[i].name == n;
      assert l[i] in r;
      var k :| 0 <= k < |r| && r[k] == l[i];
      assert r[k].name == n;
    }
  }

  // ---- Keeping what has not changed ----

  /** The entry of this name, the last one if there are several, or -1. */
  function Find(es: seq<Entry>, n: Name): (i: int)
    ensures -1 <= i < |es|
    ensures i >= 0 ==> es[i].filename == n
    ensures forall k :: i < k < |es| ==> es[k].filename != n
  {
    if es == [] then -1
    else if es[|es| - 1].filename == n then |es| - 1
    else Find(es[..|es| - 1], n)
  }

  /** The list has an entry of this name and stamp, so the note is not read again. */
  predicate Known(es: seq<Entry>, x: Listed) { Find(es, x.name) >= 0 && es[Find(es, x.name)].mtime == x.stamp }

  /** A stamp fixes what a note says: an entry with its file's stamp has its file's contents. */
  ghost predicate Truthful(es: seq<Entry>, fs: Files) {
    forall i :: 0 <= i < |es| ==> TrueOf(es[i], fs)
  }

  predicate TrueOf(e: Entry, fs: Files) {
    e.filename in fs && fs[e.filename].stamp == e.mtime ==> e == EntryOf(e.filename, fs[e.filename])
  }

  /** What reading the beginning of a note gives; nothing if it is gone. */
  function ReadNote(fs: Files, n: Name): (seq<byte>, bool) {
    if n in fs then (fs[n].snippet, fs[n].truncated) else ([], false)
  }

  function NextEntry(es: seq<Entry>, x: Listed, fs: Files): Entry {
    if Known(es, x) then es[Find(es, x.name)]
    else Entry(x.name, x.stamp, ReadNote(fs, x.name).0, ReadNote(fs, x.name).1)
  }

  lemma NextEntryIsNow(es: seq<Entry>, x: Listed, fs: Files)
    requires Truthful(es, fs) && IsListed(fs, x)
    ensures NextEntry(es, x, fs) == EntryOf(x.name, fs[x.name])
  {
    if Known(es, x) { assert TrueOf(es[Find(es, x.name)], fs); }
  }

  /** One entry for each note listed: the one there was, if its stamp is still the same. */
  method Rebuild(current: seq<Listed>, existing: seq<Entry>, fs: Files)
    returns (next: seq<Entry>, dirty: bool, read: seq<Name>)
    ensures |next| == |current| && forall k :: 0 <= k < |next| ==> next[k] == NextEntry(existing, current[k], fs)
    ensures dirty <==> |existing| != |current| || read != []
    ensures forall n :: n in read <==>
      exists k :: 0 <= k < |current| && current[k].name == n && !Known(existing, current[k])
  {
    var byName := MapNames(existing);
    hide Find;
    next, read := [], [];
    dirty := |existing| != |current|;
    for k := 0 to |current|
      invariant |next| == k && forall j :: 0 <= j < k ==> next[j] == NextEntry(existing, current[j], fs)
      invariant dirty <==> |existing| != |current| || read != []
      invariant forall n :: n in read <==>
        exists j :: 0 <= j < k && current[j].name == n && !Known(existing, current[j])
    {
      var x := current[k];
      if x.name in byName && existing[byName[x.name]].mtime == x.stamp {
        next := next + [existing[byName[x.name]]];
      } else {
        var note := ReadNote(fs, x.name);
        next := next + [Entry(x.name, x.stamp, note.0, note.1)];
        read := read + [x.name];
        dirty := true;
      }
    }
  }

  method MapNames(es: seq<Entry>) returns (m: map<Name, nat>)
    ensures forall n :: n in m <==> Find(es, n) >= 0
    ensures forall n :: n in m ==> m[n] == Find(es, n)
  {
    m := map[];
    for i := 0 to |es|
      invariant forall n :: n in m <==> Find(es[..i], n) >= 0
      invariant forall n :: n in m ==> m[n] == Find(es[..i], n)
    {
      assert es[..i + 1][..i] == es[..i];
      m := m[es[i].filename := i];
    }
    assert es[..|es|] == es;
  }

  /** Notes taken from the sorted listing make a scan. */
  lemma RebuiltIsScan(fs: Files, current: seq<Listed>, existing: seq<Entry>, next: seq<Entry>)
    requires SortedNotes(current, fs) && Truthful(existing, fs)
    requires |next| == |current| && forall k :: 0 <= k < |next| ==> next[k] == NextEntry(existing, current[k], fs)
    ensures IsScan(fs, next)
  {
    hide Less, IsTasks, Truthful, Find;
    forall k | 0 <= k < |next| ensures NowAt(fs, current, next, k) {
      assert IsListed(fs, current[k]);
      NextEntryIsNow(existing, current[k], fs);
    }
    NowIsScan(fs, current, next);
  }

  predicate NowAt(fs: Files, current: seq<Listed>, next: seq<Entry>, k: nat)
    requires k < |next| && k < |current|
  {
    current[k].name in fs && next[k] == EntryOf(current[k].name, fs[current[k].name])
  }

  lemma NowIsScan(fs: Files, current: seq<Listed>, next: seq<Entry>)
    requires SortedNotes(current, fs)
    requires |next| == |current| && forall k :: 0 <= k < |next| ==> NowAt(fs, current, next, k)
    ensures IsScan(fs, next)
  {
    hide Less, IsTasks;
    forall k | 0 <= k < |next| ensures IsNow(fs, next[k]) && next[k].filename == current[k].name {
      assert IsListed(fs, current[k]) && NowAt(fs, current, next, k);
    }
    forall n | n in fs && !IsTasks(n) ensures Has(next, n) {
      assert HasName(current, n);
      var k :| 0 <= k < |current| && current[k].name == n;
      assert next[k].filename == n;
    }
  }

  /** When nothing had to be read and the number is the same, the old entries are the new ones. */
  lemma {:induction false} KeptIsPermutation(fs: Files, current: seq<Listed>, existing: seq<Entry>, next: seq<Entry>)
    requires |existing| == |next| == |current| && Descending(current)
    requires forall k :: 0 <= k < |next| ==>
               Known(existing, current[k]) && next[k] == existing[Find(existing, current[k].name)]
    ensures multiset(next) == multiset(existing)
  {
    hide Less;
    forall i, j | 0 <= i < j < |next| ensures next[i] != next[j] {
      LessTotal(current[j].name, current[i].name);
    }
    forall e | e in multiset(next) ensures multiset(next)[e] <= multiset(existing)[e] {
      assert e in next;
      Once(next, e);
      var k :| 0 <= k < |next| && next[k] == e;
      assert e in existing;
    }
    NoneLeft(existing, next);
  }

  lemma NoneLeft(a: seq<Entry>, b: seq<Entry>)
    requires |a| == |b| && forall e :: e in multiset(b) ==> multiset(b)[e] <= multiset(a)[e]
    ensures multiset(b) == multiset(a)
  {
    var rest := multiset(a) - multiset(b);
    assert multiset(a) == multiset(b) + rest;
    assert |rest| == 0;
  }

  lemma {:induction false} Once(s: seq<Entry>, e: Entry)
    requires forall i, j :: 0 <= i < j < |s| ==> s[i] != s[j]
    ensures multiset(s)[e] <= 1
  {
    if s != [] {
      var front := s[..|s| - 1];
      assert s == front + [s[|s| - 1]];
      Once(front, e);
      if s[|s| - 1] == e {
        assert e !in front;
      }
    }
  }

  /**
   The rescan. The list it starts from is the one in memory, or the index when that is empty. Notes are read
   only when new or changed; unchanged lists are not saved again.
   */
  method Refresh(fs: Files, listing: seq<Listed>, entries: seq<Entry>, index: seq<Entry>)
    returns (next: seq<Entry>, dirty: bool, read: seq<Name>)
    requires Lists(listing, fs) && Truthful(if entries == [] then index else entries, fs)
    ensures IsScan(fs, next)
    ensures var existing := if entries == [] then index else entries;
            (forall n :: n in read <==> n in fs && !IsTasks(n) && !Known(existing, Listed(n, fs[n].stamp))) &&
            (dirty <==> |existing| != |next| || read != []) &&
            (!dirty ==> multiset(next) == multiset(existing))
  {
    hide IsTasks, Less, Find, Truthful;
    var current := RemoveTasks(listing, fs);
    ghost var notes := current;
    current := SortDescending(current);
    SortedIs(notes, current, fs);
    var existing := if entries == [] then index else entries;
    next, dirty, read := Rebuild(current, existing, fs);
    RebuiltIsScan(fs, current, existing, next);
    ReadIs(fs, current, existing, read);
    if !dirty {
      AllKnown(current, existing, read);
      KeptIsPermutation(fs, current, existing, next);
    }
  }

  lemma ReadIs(fs: Files, current: seq<Listed>, existing: seq<Entry>, read: seq<Name>)
    requires SortedNotes(current, fs)
    requires forall n :: n in read <==>
      exists k :: 0 <= k < |current| && current[k].name == n && !Known(existing, current[k])
    ensures forall n :: n in read <==> n in fs && !IsTasks(n) && !Known(existing, Listed(n, fs[n].stamp))
  {
    hide IsTasks, Less, Known;
    forall n ensures n in read <==> n in fs && !IsTasks(n) && !Known(existing, Listed(n, fs[n].stamp)) {
      if n in read {
        var k :| 0 <= k < |current| && current[k].name == n && !Known(existing, current[k]);
        assert IsListed(fs, current[k]);
      }
      if n in fs && !IsTasks(n) {
        assert HasName(current, n);
        var k :| 0 <= k < |current| && current[k].name == n;
        assert IsListed(fs, current[k]) && current[k] == Listed(n, fs[n].stamp);
      }
    }
  }

  lemma AllKnown(current: seq<Listed>, existing: seq<Entry>, read: seq<Name>)
    requires read == []
    requires forall n :: n in read <==>
      exists k :: 0 <= k < |current| && current[k].name == n && !Known(existing, current[k])
    ensures forall k :: 0 <= k < |current| ==> Known(existing, current[k])
  {
    hide Known;
    forall k | 0 <= k < |current| ensures Known(existing, current[k]) {
      assert current[k].name !in read;
    }
  }
}
