/** The journal's state on the UI thread, and the callbacks that change it. */
module JournalPage {
  import opened JournalIndex
  import opened JournalRefresh

  const WORD := 0x1_0000_0000

  function NextGen(gen: Uint32): Uint32 { (gen + 1) % WORD }

  /** What a refresh worker hands back: its list, and the counters as they were when it was started. */
  datatype Result = Result(entries: seq<Entry>, entriesGen: Uint32, fsGen: Uint32, savedIndex: bool)

  datatype Page = Page(
    entries: seq<Entry>, cacheValid: bool, entriesGen: Uint32,
    running: bool, detached: bool,
    firstRun: bool, timer: bool, open: bool, fsDirty: bool)

  function Without(es: seq<Entry>, n: Name): (r: seq<Entry>)
    ensures forall i :: 0 <= i < |r| ==> r[i] in es && r[i].filename != n
  {
    if es == [] then [] else (if es[0].filename == n then [] else [es[0]]) + Without(es[1..], n)
  }

  /** The notes are locked: the plain text of encrypted notes must go. */
  function Locked(p: Page, encrypted: bool): Page {
    if encrypted then p.(entries := [], cacheValid := false, entriesGen := NextGen(p.entriesGen)) else p
  }

  /** The user deleted a note. */
  function Deleted(p: Page, n: Name): Page {
    p.(entries := Without(p.entries, n), entriesGen := NextGen(p.entriesGen), cacheValid := true,
       fsDirty := p.running && p.fsDirty)
  }

  /** A result is dropped when the list was replaced or edited since its snapshot; else it becomes the list. */
  function Applies(p: Page, r: Result): bool { r.entriesGen == p.entriesGen }

  /** A result arrives. The list is fresh when the file system's generation has not moved since the snapshot. */
  function Refreshed(p: Page, r: Result, fsGen: Uint32): Page {
    if !Applies(p, r) then p.(firstRun := false, timer := p.timer || (p.firstRun && p.open))
    else
      var clean := fsGen == r.fsGen;
      p.(firstRun := false, entries := r.entries, entriesGen := NextGen(p.entriesGen), cacheValid := clean,
         fsDirty := p.fsDirty && !(clean && r.savedIndex))
  }

  /** The page is built, unless it is there: from the list in memory, or else from what the index gives. */
  function Built(p: Page, loaded: seq<Entry>): Page {
    if p.open then p
    else
      var load := p.entries == [] && loaded != [];
      var entries := if load then loaded else p.entries;
      var valid := !p.fsDirty && (p.cacheValid || load);
      var first := !valid && entries == [];
      p.(entries := entries, entriesGen := if load then NextGen(p.entriesGen) else p.entriesGen,
         cacheValid := valid, open := true, fsDirty := false,
         firstRun := first || (p.firstRun && p.running), timer := !valid)
  }

  /** The page is left; a running worker is let go of. */
  function Left(p: Page): Page {
    p.(timer := false, detached := p.detached || p.running, firstRun := false, open := false)
  }

  /** Starting the worker: one that is still running is taken back instead. */
  function Started(p: Page, spawned: bool): Page {
    if p.running then p.(detached := false) else p.(detached := false, running := spawned)
  }

  /** An applied result shows: the page is built again when that changes it, and redone when it may be stale. */
  function AfterRefresh(p: Page, r: Result, fsGen: Uint32, sig: seq<Entry> -> Uint32, loaded: seq<Entry>): Page {
    var q := Refreshed(p, r, fsGen);
    if !p.open || !Applies(p, r) then q
    else if sig(q.entries) != sig(p.entries) then Built(q.(open := false), loaded)
    else q.(timer := q.timer || !q.cacheValid)
  }

  /** The page is built again and loads the index, because the result is empty. */
  predicate LoadsIndex(p: Page, r: Result, sig: seq<Entry> -> Uint32, loaded: seq<Entry>) {
    Applies(p, r) && p.open && sig(r.entries) != sig(p.entries) && r.entries == [] && loaded != []
  }

  /** What the page is left with: the list there was, what the index gives, or the result. */
  lemma AfterRefreshIs(p: Page, r: Result, fsGen: Uint32, sig: seq<Entry> -> Uint32, loaded: seq<Entry>)
    ensures var q := AfterRefresh(p, r, fsGen, sig, loaded);
            q.running == p.running &&
            if !Applies(p, r) then
              q.entries == p.entries && q.cacheValid == p.cacheValid && q.entriesGen == p.entriesGen
            else if LoadsIndex(p, r, sig, loaded) then
              q.entries == loaded && q.entriesGen == NextGen(NextGen(p.entriesGen))
            else
              q.entries == r.entries && q.entriesGen == NextGen(p.entriesGen) && (q.cacheValid ==> fsGen == r.fsGen)
  {
    hide NextGen, Built;
    var q := Refreshed(p, r, fsGen);
    BuiltIs(q.(open := false), loaded);
  }

  lemma BuiltIs(p: Page, loaded: seq<Entry>)
    requires !p.open
    ensures var q, load := Built(p, loaded), p.entries == [] && loaded != [];
            q.running == p.running && q.entries == (if load then loaded else p.entries) &&
            q.entriesGen == (if load then NextGen(p.entriesGen) else p.entriesGen) &&
            (q.cacheValid ==> p.cacheValid || load)
  {
    hide NextGen;
  }

  /** The job hands its result over, unless nobody wants it any more. */
  function Delivered(p: Page, r: Result, fsGen: Uint32, sig: seq<Entry> -> Uint32, loaded: seq<Entry>): Page {
    var q := p.(running := false, detached := false);
    if p.detached then q else AfterRefresh(q, r, fsGen, sig, loaded)
  }

  class Journal {
    var entries: seq<Entry>
    var cacheValid: bool
    var entriesGen: Uint32
    var running: bool
    var detached: bool
    var firstRun: bool
    var timer: bool
    var open: bool
    var fsDirty: bool

    ghost function State(): Page
      reads this
    {
      Page(entries, cacheValid, entriesGen, running, detached, firstRun, timer, open, fsDirty)
    }

    method OnLock(encrypted: bool)
      modifies this
      ensures State() == Locked(old(State()), encrypted)
    {
      if !encrypted { return; }
      entries := [];
      cacheValid := false;
      entriesGen := NextGen(entriesGen);
    }

    method DeleteConfirmed(path: Name) returns (index: seq<Entry>)
      modifies this
      ensures State() == Deleted(old(State()), path) && index == entries
    {
      entries := Without(entries, path);
      entriesGen := NextGen(entriesGen);
      index := entries;
      cacheValid := true;
      if !running { fsDirty := false; }
    }

    /** Hand a snapshot to the worker; without a task (not spawned) the caller runs the pass itself. */
    method StartBgRefresh(fsGen: Uint32, spawned: bool) returns (seed: seq<Result>)
      modifies this
      ensures State() == Started(old(State()), spawned)
      ensures seed == if old(running) then [] else [Result(old(entries), old(entriesGen), fsGen, false)]
    {
      seed := [Result(entries, entriesGen, fsGen, false)];
      if running {
        detached := false;
        return [];
      }
      detached := false;
      running := true;
      if !spawned { running := false; }
    }

    method Deliver(r: Result, fsGen: Uint32, sig: seq<Entry> -> Uint32, loaded: seq<Entry>)
      modifies this
      ensures State() == Delivered(old(State()), r, fsGen, sig, loaded)
    {
      running := false;
      var drop := detached;
      detached := false;
      if !drop { BgRefreshDone(r, fsGen, sig, loaded); }
    }

    /** Apply a result; if that changes what is shown the page is built again, if it may be stale it is redone. */
    method BgRefreshDone(r: Result, fsGen: Uint32, sig: seq<Entry> -> Uint32, loaded: seq<Entry>)
      modifies this
      ensures State() == AfterRefresh(old(State()), r, fsGen, sig, loaded)
    {
      var wasFirst := firstRun;
      firstRun := false;
      if r.entriesGen != entriesGen {
        if wasFirst && open { timer := true; }
        return;
      }
      var before := sig(entries);
      entries := r.entries;
      entriesGen := NextGen(entriesGen);
      var clean := fsGen == r.fsGen;
      cacheValid := clean;
      if clean && r.savedIndex { fsDirty := false; }
      if !open { return; }
      if sig(entries) != before {
        open := false;
        Build(loaded);
      } else if !clean {
        timer := true;
      }
    }

    method Build(loaded: seq<Entry>)
      modifies this
      ensures State() == Built(old(State()), loaded)
    {
      if open { return; }
      timer := false;
      if !running { firstRun := false; }
      var wasDirty := fsDirty;
      if wasDirty { fsDirty := false; }
      if entries == [] && loaded != [] {
        entries := loaded;
        entriesGen := NextGen(entriesGen);
        if !wasDirty { cacheValid := true; }
      }
      if wasDirty { cacheValid := false; }
      open := true;
      if !cacheValid {
        timer := true;
        if entries == [] { firstRun := true; }
      }
    }

    method Exit()
      modifies this
      ensures State() == Left(old(State()))
    {
      timer := false;
      if running { detached := true; }
      firstRun := false;
      open := false;
    }
  }
}
