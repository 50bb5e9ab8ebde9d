/** Runs of the journal's refresh in which a list that is taken for fresh is stale. */
module JournalRuns {
  import opened Bytes
  import opened Wrappers
  import opened JournalIndex
  import opened JournalRefresh
  import opened JournalPage
  import opened NoteWriters
  import opened JournalWorker

  /** The page as it is built when there is nothing to show, and its worker runs. */
  const SCANNING := Page([], false, 0, true, false, true, true, true, false)

  // ---- Each step of such a run, from what it asks for and what it changes ----

  lemma ByStart(s: System, t: System)
    requires !s.page.running && s.worker.None? && Quiet(s.writes)
    requires t == s.(page := s.page.(detached := false, running := true), started := s.started + 1,
                     worker := Some(Worker(s.started, s.page.entries, s.edits, s.bumps, true, false, Starting)))
    ensures Follows(s, t, true) && Follows(s, t, false)
  {
    hide Quiet, ReadsHot;
    assert Takes(s, t, true, Start(true)) && Takes(s, t, false, Start(true));
  }

  lemma ByWait(s: System, t: System)
    requires s.worker.Some? && s.worker.value.phase.Starting? &&
      t == s.(worker := Some(s.worker.value.(phase := Waited)))
    requires forall k :: 0 <= k < |s.writes| ==> !s.writes[k].gated
    ensures Follows(s, t, true) && Follows(s, t, false)
  {
    hide Announced, ReadsHot;
    assert Takes(s, t, true, Wait) && Takes(s, t, false, Wait);
  }

  lemma ByList(s: System, t: System, l: seq<Listed>)
    requires s.worker.Some? && s.worker.value.phase.Waited? && SortedNotes(l, s.fs)
    requires var es := s.worker.value.snapshot;
             t == s.(worker := Some(s.worker.value.(phase := Reading(l, es, [], |es| != |l|))))
    ensures Follows(s, t, true) && Follows(s, t, false)
  {
    hide SortedNotes, ReadsHot;
    assert Takes(s, t, true, List(l, 0)) && Takes(s, t, false, List(l, 0));
  }

  lemma ByRead(s: System, t: System, e: Entry)
    requires HasNext(s) && (forall k :: 0 <= k < |s.writes| ==> !s.writes[k].gated)
    requires var ph := s.worker.value.phase;
             ph.next == [] && e == NextEntry(ph.existing, NextNote(s), s.fs) &&
               (ph.changed || Known(ph.existing, NextNote(s))) &&
             t == s.(worker := Some(s.worker.value.(phase := ph.(next := [e]))))
    ensures Follows(s, t, false)
  {
    assert s.worker.value.phase.next + [e] == [e];
    hide HotRead, ReadsHot, NextEntry, Known;
    assert Takes(s, t, false, ReadNext);
  }

  lemma ByFinish(s: System, t: System)
    requires InPhase(s, true) && !HasNext(s)
    requires var ph := s.worker.value.phase;
             t == s.(worker := Some(s.worker.value.(phase := Finished(ph.next, ph.changed))),
                     index := if ph.changed then ph.next else s.index)
    ensures Follows(s, t, true) && Follows(s, t, false)
  {
    hide ReadsHot;
    assert Takes(s, t, true, Finish) && Takes(s, t, false, Finish);
  }

  lemma ByOpen(s: System, t: System, plan: seq<Event>, gated: bool)
    requires WellPlanned(plan) && t == s.(writes := s.writes + [Writing(plan, 0, gated)])
    ensures Follows(s, t, true) && Follows(s, t, false)
  {
    hide WellPlanned, ReadsHot;
    assert Takes(s, t, true, Open(plan, gated)) && Takes(s, t, false, Open(plan, gated));
  }

  lemma ByWrite(s: System, t: System)
    requires |s.writes| == 1 && s.writes[0].at < |s.writes[0].plan|
    requires var w := s.writes[0];
             (w.plan[w.at].Touch? ==> s.stamps < WORD) && t == Done(s, w.plan[w.at]).(writes := [Advanced(w)])
    ensures Follows(s, t, true) && Follows(s, t, false)
  {
    hide Done, ReadsHot, Advanced;
    assert Takes(s, t, true, Write(0)) && Takes(s, t, false, Write(0));
  }

  /** The page is built from nothing. */
  lemma ByBuild(s: System, t: System)
    requires UiFree(s) && s.page.entries == [] && s.index == [] && t == s.(page := Built(s.page.(open := false), []))
    ensures Follows(s, t, true) && Follows(s, t, false)
  {
    hide Built, ReadsHot;
    assert Takes(s, t, true, Build(0)) && Takes(s, t, false, Build(0));
  }

  /** Or from what the index gives. */
  lemma ByLoad(s: System, t: System)
    requires UiFree(s) && s.page.entries == [] && s.index != []
    requires t == s.(page := Built(s.page.(open := false), s.index), edits := s.edits + 1)
    ensures Follows(s, t, true) && Follows(s, t, false)
  {
    hide Built, ReadsHot;
    assert s.index[..|s.index|] == s.index;
    assert Takes(s, t, true, Build(|s.index|)) && Takes(s, t, false, Build(|s.index|));
  }

  lemma RunsJoin(a: seq<System>, b: seq<System>, clean: bool)
    requires IsRun(a, clean) && IsRun(b, clean) && Follows(a[|a| - 1], b[0], clean)
    ensures IsRun(a + b, clean)
  {
    hide Follows;
    forall i | 0 <= i < |a + b| - 1 ensures Follows((a + b)[i], (a + b)[i + 1], clean) {
      if i < |a| - 1 { assert Follows(a[i], a[i + 1], clean); }
      else if i >= |a| { assert Follows(b[i - |a|], b[i - |a| + 1], clean); }
    }
  }

  // ---- A write that raises the generation last ----

  /** A scan lists no notes; then a note comes over the link, and the scan ends before the generation is raised. */
  function LateRun(n: Name): seq<System> {
    var plan, w := LinkWritePlan(n, [], false), Worker(0, [], 0, 0, true, false, Starting);
    var s0 := System(CLOSED, 0, map[], map[], 1, 0, [], [], None, 0);
    var s1 := s0.(page := SCANNING.(running := false));
    var s2 := s1.(page := SCANNING, started := 1, worker := Some(w));
    var s3 := s2.(worker := Some(w.(phase := Waited)));
    var s4 := s2.(worker := Some(w.(phase := Reading([], [], [], false))));
    var s5 := s2.(worker := Some(w.(phase := Finished([], false))));
    var s6 := s5.(writes := [Writing(plan, 0, false)]);
    var s7 := s5.(writes := [Writing(plan, 1, false)]);
    [s0, s1, s2, s3, s4, s5, s6, s7]
  }

  /**
   A link write raises the generation last: this clean run, begun with nothing announced, leaves a list that is
   taken for fresh, and the note that has its file by then is not in it.
   */
  lemma LateRunIsStale(n: Name, sig: seq<Entry> -> Uint32)
    requires !IsTasks(n)
    ensures var s := LateRun(n)[7];
            IsRun(LateRun(n), true) && Initial(LateRun(n)[0]) && Enabled(s, Write(0)) &&
            var t := Next(s, Write(0));
            Enabled(t, Deliver(sig, 0)) && Lands(t) && t.worker.value.quiet && Arrived(t, sig, 0).cacheValid &&
            !IsScan(t.fs, Arrived(t, sig, 0).entries)
  {
    LateRunRuns(n);
    var s := LateRun(n)[7];
    assert Initial(LateRun(n)[0]);
    assert IsScan(s.fs, []);
    LateWriteIsMissed(s, 0, sig, 0);
    hide IsRun, Initial, IsScan;
  }

  lemma LateRunRuns(n: Name)
    ensures IsRun(LateRun(n), true)
  {
    LateRunScans(n);
    LateRunWrites(n);
    hide Follows;
  }

  lemma LateRunScans(n: Name)
    ensures var run := LateRun(n);
            Follows(run[0], run[1], true) && Follows(run[1], run[2], true) && Follows(run[2], run[3], true) &&
            Follows(run[3], run[4], true)
  {
    var run := LateRun(n);
    ByBuild(run[0], run[1]);
    ByStart(run[1], run[2]);
    ByWait(run[2], run[3]);
    assert SortedNotes([], map[]) by { hide IsTasks, Less; }
    ByList(run[3], run[4], []);
    hide Follows, SortedNotes, LinkWritePlan;
  }

  lemma LateRunWrites(n: Name)
    ensures var run := LateRun(n);
            Follows(run[4], run[5], true) && Follows(run[5], run[6], true) && Follows(run[6], run[7], true)
  {
    var run := LateRun(n);
    ByFinish(run[4], run[5]);
    LinkPlansAreWell(n, [], false, n);
    ByOpen(run[5], run[6], LinkWritePlan(n, [], false), false);
    ByWrite(run[6], run[7]);
    hide Follows, WellPlanned;
  }

  // ---- A note that is read between its stamp and its text ----

  /** A scan is under way and the page is left. */
  function ScanBegins(n: Name, before: seq<byte>): seq<System> {
    var w := Worker(0, [], 0, 0, true, false, Starting);
    var s0 := System(CLOSED, 0, map[n := File(0, before, false)], map[], 1, 0, [], [], None, 0);
    var s1 := s0.(page := SCANNING.(running := false));
    var s2 := s1.(page := SCANNING, started := 1, worker := Some(w));
    var s3 := s2.(worker := Some(w.(phase := Waited)));
    [s0, s1, s2, s3]
  }

  const LEFT := SCANNING.(timer := false, detached := true, firstRun := false, open := false)

  /** A note is saved in line, up to its stamp; the scan lists it. */
  function SaveBegins(n: Name, before: seq<byte>, text: seq<byte>): seq<System> {
    var plan, w := QueuedSavePlan(n, text, false), Worker(0, [], 0, 0, true, false, Waited);
    var s0 := System(LEFT, 0, map[n := File(0, before, false)], map[], 1, 0, [], [], Some(w), 1);
    var s1 := s0.(writes := [Writing(plan, 0, false)]);
    var s2 := s0.(writes := [Writing(plan, 1, false)], bumps := 1, page := LEFT.(fsDirty := true));
    var s3 := s2.(writes := [Writing(plan, 2, false)], bumps := 2);
    var s4 := s3.(writes := [Writing(plan, 3, false)], stamps := 2, marks := map[n := 1],
                  fs := map[n := File(1, before, false)]);
    [s0, s1, s2, s3, s4]
  }

  /** The scan reads it, and only then it has its text; the page is opened again, and the result arrives. */
  function TornScan(n: Name, before: seq<byte>, text: seq<byte>): seq<System> {
    var plan, l, e := QueuedSavePlan(n, text, false), [Listed(n, 1)], EntryOf(n, File(1, before, false));
    var w := Worker(0, [], 0, 0, true, false, Reading(l, [], [], true));
    var s0 := System(
                LEFT.(fsDirty := true), 0, map[n := File(1, before, false)], map[n := 1], 2, 2,
                [Writing(plan, 3, false)], [], Some(w), 1);
    var s1 := s0.(worker := Some(w.(phase := Reading(l, [], [e], true))));
    var s2 := s1.(writes := [Writing(plan, 4, false)], fs := map[n := File(1, text, false)]);
    var s3 := s2.(page := SCANNING.(detached := true));
    var s4 := s2.(page := SCANNING);
    var s5 := s4.(worker := Some(w.(phase := Finished([e], true))), index := [e]);
    [s0, s1, s2, s3, s4, s5]
  }

  /** The next scan, with nothing being written. */
  function NextScan(n: Name, before: seq<byte>, text: seq<byte>): seq<System> {
    var plan, l, e := QueuedSavePlan(n, text, false), [Listed(n, 1)], EntryOf(n, File(1, before, false));
    var page := Page([e], false, 1, false, false, false, true, true, false);
    var w := Worker(1, [e], 1, 2, true, false, Starting);
    var s0 := System(
                page, 1, map[n := File(1, text, false)], map[n := 1], 2, 2, [Writing(plan, 4, false)], [e], None, 1);
    var s1 := s0.(page := page.(running := true), started := 2, worker := Some(w));
    var s2 := s1.(worker := Some(w.(phase := Waited)));
    var s3 := s1.(worker := Some(w.(phase := Reading(l, [e], [], false))));
    var s4 := s1.(worker := Some(w.(phase := Reading(l, [e], [e], false))));
    var s5 := s1.(worker := Some(w.(phase := Finished([e], false))));
    [s0, s1, s2, s3, s4, s5]
  }

  lemma ScanBeginsRuns(n: Name, before: seq<byte>)
    ensures IsRun(ScanBegins(n, before), false) && Initial(ScanBegins(n, before)[0])
  {
    var run := ScanBegins(n, before);
    ByBuild(run[0], run[1]);
    ByStart(run[1], run[2]);
    ByWait(run[2], run[3]);
    hide Follows;
  }

  lemma SaveBeginsRuns(n: Name, before: seq<byte>, text: seq<byte>)
    ensures IsRun(SaveBegins(n, before, text), false)
    ensures Follows(ScanBegins(n, before)[3], SaveBegins(n, before, text)[0], false)
  {
    var run := SaveBegins(n, before, text);
    PageIsLeft(n, before, text);
    EarlyPlansAreWell(n, text, false, []);
    ByOpen(run[0], run[1], QueuedSavePlan(n, text, false), false);
    ByWrite(run[1], run[2]);
    ByWrite(run[2], run[3]);
    ByWrite(run[3], run[4]);
    hide Follows, WellPlanned, ScanBegins;
  }

  lemma PageIsLeft(n: Name, before: seq<byte>, text: seq<byte>)
    ensures Follows(ScanBegins(n, before)[3], SaveBegins(n, before, text)[0], false)
  {
    assert Takes(ScanBegins(n, before)[3], SaveBegins(n, before, text)[0], false, Leave);
  }

  lemma OneListed(n: Name, f: File)
    requires !IsTasks(n)
    ensures SortedNotes([Listed(n, f.stamp)], map[n := f])
  {
    hide IsTasks;
    assert [Listed(n, f.stamp)][0].name == n;
  }

  lemma TornScanRuns(n: Name, before: seq<byte>, text: seq<byte>)
    requires !IsTasks(n)
    ensures IsRun(TornScan(n, before, text), false)
  {
    var run := TornScan(n, before, text);
    ByRead(run[0], run[1], EntryOf(n, File(1, before, false)));
    ByWrite(run[1], run[2]);
    ByBuild(run[2], run[3]);
    assert Takes(run[3], run[4], false, Start(true)) by { hide QueuedSavePlan, ReadsHot; }
    ByFinish(run[4], run[5]);
    hide Takes, IsTasks;
  }

  lemma TornScanLists(n: Name, before: seq<byte>, text: seq<byte>)
    requires !IsTasks(n)
    ensures Follows(SaveBegins(n, before, text)[4], TornScan(n, before, text)[0], false)
  {
    OneListed(n, File(1, before, false));
    ByList(SaveBegins(n, before, text)[4], TornScan(n, before, text)[0], [Listed(n, 1)]);
    hide Follows, SortedNotes, IsTasks, QueuedSavePlan;
  }

  lemma NextScanRuns(n: Name, before: seq<byte>, text: seq<byte>)
    requires !IsTasks(n)
    ensures IsRun(NextScan(n, before, text), false)
  {
    var run, e := NextScan(n, before, text), EntryOf(n, File(1, before, false));
    OneListed(n, File(1, text, false));
    ByStart(run[0], run[1]);
    ByWait(run[1], run[2]);
    ByList(run[2], run[3], [Listed(n, 1)]);
    ByRead(run[3], run[4], e);
    ByFinish(run[4], run[5]);
    hide Follows, SortedNotes, IsTasks;
  }

  /**
   What such a read brought in stays: the next scan, with nothing being written from its start to its end, takes
   its entry over, and the list with the text before the save in it is taken for fresh.
   */
  lemma TornReadStays(n: Name, before: seq<byte>, text: seq<byte>, sig: seq<Entry> -> Uint32)
    requires !IsTasks(n) && before != text
    ensures var run, s := Torn(n, before, text), NextScan(n, before, text)[5];
            IsRun(run, false) && Initial(run[0]) && run[|run| - 1] == s && Enabled(s, Deliver(sig, 0)) && Lands(s) &&
            s.worker.value.quiet && !AnyBegun(s.writes) && s.bumps == s.worker.value.bumps &&
            Arrived(s, sig, 0).cacheValid && !IsScan(s.fs, Arrived(s, sig, 0).entries)
  {
    TornRuns(n, before, text, sig);
    TornIsStale(n, before, text, sig);
    hide IsRun, Initial, Enabled, Lands, AnyBegun, Arrived, IsScan;
  }

  function Torn(n: Name, before: seq<byte>, text: seq<byte>): seq<System> {
    ScanBegins(n, before) + SaveBegins(n, before, text) + TornScan(n, before, text) + NextScan(n, before, text)
  }

  lemma TornRuns(n: Name, before: seq<byte>, text: seq<byte>, sig: seq<Entry> -> Uint32)
    requires !IsTasks(n)
    ensures IsRun(Torn(n, before, text), false) && Initial(Torn(n, before, text)[0])
  {
    var a, b := ScanBegins(n, before), SaveBegins(n, before, text);
    var c, d := TornScan(n, before, text), NextScan(n, before, text);
    ScanBeginsRuns(n, before);
    SaveBeginsRuns(n, before, text);
    TornScanLists(n, before, text);
    TornScanRuns(n, before, text);
    TornArrives(n, before, text, sig);
    NextScanRuns(n, before, text);
    RunsJoin(a, b, false);
    RunsJoin(a + b, c, false);
    RunsJoin(a + b + c, d, false);
    hide IsRun, Follows, Initial;
  }

  lemma TornArrives(n: Name, before: seq<byte>, text: seq<byte>, sig: seq<Entry> -> Uint32)
    ensures Follows(TornScan(n, before, text)[5], NextScan(n, before, text)[0], false)
  {
    assert Takes(TornScan(n, before, text)[5], NextScan(n, before, text)[0], false, Deliver(sig, 0)) by {
      hide QueuedSavePlan, ReadsHot;
    }
  }

  lemma TornIsStale(n: Name, before: seq<byte>, text: seq<byte>, sig: seq<Entry> -> Uint32)
    requires before != text
    ensures var s := NextScan(n, before, text)[5];
            Enabled(s, Deliver(sig, 0)) && Lands(s) &&
            s.worker.value.quiet && !AnyBegun(s.writes) && s.bumps == s.worker.value.bumps &&
            Arrived(s, sig, 0).cacheValid && !IsScan(s.fs, Arrived(s, sig, 0).entries)
  {
    var s := NextScan(n, before, text)[5];
    var es := Arrived(s, sig, 0).entries;
    assert !IsNow(s.fs, es[0]);
    hide IsNow, Less, IsTasks;
  }

  // ---- A write that is given up ----

  /** A scan has read a note; a link write removes it and cannot put the new one there; the scan ends. */
  function FailedRun(n: Name): seq<System> {
    var plan, l, e := LinkWritePlan(n, [], false)[..1], [Listed(n, 0)], EntryOf(n, File(0, [], false));
    var w := Worker(0, [], 0, 0, true, false, Starting);
    var s0 := System(CLOSED, 0, map[n := File(0, [], false)], map[], 1, 0, [], [], None, 0);
    var s1 := s0.(page := SCANNING.(running := false));
    var s2 := s1.(page := SCANNING, started := 1, worker := Some(w));
    var s3 := s2.(worker := Some(w.(phase := Waited)));
    var s4 := s2.(worker := Some(w.(phase := Reading(l, [], [], true))));
    var s5 := s2.(worker := Some(w.(phase := Reading(l, [], [e], true))));
    var s6 := s5.(writes := [Writing(plan, 0, false)]);
    var s7 := s5.(writes := [Writing(plan, 1, false)], fs := map[]);
    var s8 := s7.(worker := Some(w.(phase := Finished([e], true))), index := [e]);
    [s0, s1, s2, s3, s4, s5, s6, s7, s8]
  }

  lemma FailedRunReads(n: Name)
    requires !IsTasks(n)
    ensures var run := FailedRun(n);
            Initial(run[0]) && Follows(run[0], run[1], false) && Follows(run[1], run[2], false) &&
            Follows(run[2], run[3], false) && Follows(run[3], run[4], false) && Follows(run[4], run[5], false)
  {
    var run := FailedRun(n);
    ByBuild(run[0], run[1]);
    ByStart(run[1], run[2]);
    ByWait(run[2], run[3]);
    OneListed(n, File(0, [], false));
    ByList(run[3], run[4], [Listed(n, 0)]);
    ByRead(run[4], run[5], EntryOf(n, File(0, [], false)));
    hide Follows, SortedNotes, IsTasks;
  }

  lemma FailedRunEnds(n: Name)
    ensures var run := FailedRun(n);
            Follows(run[5], run[6], false) && Follows(run[6], run[7], false) && Follows(run[7], run[8], false)
  {
    var run := FailedRun(n);
    assert Takes(run[5], run[6], false, Open(LinkWritePlan(n, [], false)[..1], false)) by { hide Orderly; }
    assert run[7].fs == map[n := File(0, [], false)] - {n};
    ByWrite(run[6], run[7]);
    ByFinish(run[7], run[8]);
    hide Takes;
  }

  /**
   A link write that fails after its remove raises nothing: begun with nothing announced, and with no write to bump
   any more, this run leaves a list that is taken for fresh, with a note in it that is not there.
   */
  lemma FailedRunIsStale(n: Name, sig: seq<Entry> -> Uint32)
    requires !IsTasks(n)
    ensures var s := FailedRun(n)[8];
            IsRun(FailedRun(n), false) && Initial(FailedRun(n)[0]) && Enabled(s, Deliver(sig, 0)) && Lands(s) &&
            s.worker.value.quiet && !AnyBegun(s.writes) && s.bumps == s.worker.value.bumps &&
            Arrived(s, sig, 0).cacheValid && !IsScan(s.fs, Arrived(s, sig, 0).entries)
  {
    assert IsRun(FailedRun(n), false) && Initial(FailedRun(n)[0]) by {
      FailedRunReads(n);
      FailedRunEnds(n);
      hide Follows, Initial;
    }
    FailedRunLeaves(n, sig);
    hide *;
  }

  lemma FailedRunLeaves(n: Name, sig: seq<Entry> -> Uint32)
    ensures var s := FailedRun(n)[8];
            Enabled(s, Deliver(sig, 0)) && Lands(s) &&
            s.worker.value.quiet && !AnyBegun(s.writes) && s.bumps == s.worker.value.bumps &&
            Arrived(s, sig, 0).cacheValid && !IsScan(s.fs, Arrived(s, sig, 0).entries)
  {
    var s := FailedRun(n)[8];
    var es := Arrived(s, sig, 0).entries;
    assert !IsNow(s.fs, es[0]);
    hide IsNow, Less, IsTasks;
  }

  // ---- A restart ----

  /** A note is saved that the index has, in the state of an earlier day, without a stamp. */
  function SavedNote(n: Name, before: seq<byte>, text: seq<byte>): seq<System> {
    var plan, e := QueuedSavePlan(n, text, false), EntryOf(n, File(0, before, false));
    var s0 := System(CLOSED, 0, map[n := File(0, before, false)], map[], 1, 0, [], [e], None, 0);
    var s1 := s0.(writes := [Writing(plan, 0, true)]);
    var s2 := s0.(writes := [Writing(plan, 1, true)], bumps := 1);
    var s3 := s0.(writes := [Writing(plan, 2, true)], bumps := 2);
    var s4 := s3.(writes := [Writing(plan, 3, true)], stamps := 2, marks := map[n := 1],
                  fs := map[n := File(1, before, false)]);
    var s5 := s4.(writes := [Writing(plan, 4, true)], fs := map[n := File(1, text, false)]);
    [s0, s1, s2, s3, s4, s5]
  }

  /** The device is started anew, and the journal is opened. */
  function NextDay(n: Name, before: seq<byte>, text: seq<byte>): seq<System> {
    var l, e := [Listed(n, 0)], EntryOf(n, File(0, before, false));
    var page := Page([e], false, 1, false, false, false, true, true, false);
    var w := Worker(0, [e], 1, 0, true, false, Starting);
    var s0 := System(CLOSED, 0, map[n := File(0, text, false)], map[], 2, 0, [], [e], None, 0);
    var s1 := s0.(page := page, edits := 1);
    var s2 := s1.(page := page.(running := true), started := 1, worker := Some(w));
    var s3 := s2.(worker := Some(w.(phase := Waited)));
    var s4 := s2.(worker := Some(w.(phase := Reading(l, [e], [], false))));
    var s5 := s2.(worker := Some(w.(phase := Reading(l, [e], [e], false))));
    var s6 := s2.(worker := Some(w.(phase := Finished([e], false))));
    [s0, s1, s2, s3, s4, s5, s6]
  }

  lemma SavedNoteRuns(n: Name, before: seq<byte>, text: seq<byte>)
    ensures IsRun(SavedNote(n, before, text), true) && Initial(SavedNote(n, before, text)[0])
  {
    var run := SavedNote(n, before, text);
    EarlyPlansAreWell(n, text, false, []);
    ByOpen(run[0], run[1], QueuedSavePlan(n, text, false), true);
    ByWrite(run[1], run[2]);
    ByWrite(run[2], run[3]);
    ByWrite(run[3], run[4]);
    ByWrite(run[4], run[5]);
    hide Follows, WellPlanned;
  }

  lemma DayEnds(n: Name, before: seq<byte>, text: seq<byte>)
    ensures Follows(SavedNote(n, before, text)[5], NextDay(n, before, text)[0], false)
    ensures before != text ==> !Settled(SavedNote(n, before, text)[5])
  {
    var s, t := SavedNote(n, before, text)[5], NextDay(n, before, text)[0];
    assert Unstamped(s.fs) == t.fs;
    assert Takes(s, t, false, Restart(true)) by { hide Orderly; }
    if before != text { assert !Says(s.index[0], s.fs[n]); }
  }

  lemma NextDayRuns(n: Name, before: seq<byte>, text: seq<byte>)
    requires !IsTasks(n)
    ensures IsRun(NextDay(n, before, text), false)
  {
    var run, e := NextDay(n, before, text), EntryOf(n, File(0, before, false));
    ByLoad(run[0], run[1]);
    ByStart(run[1], run[2]);
    ByWait(run[2], run[3]);
    OneListed(n, File(0, text, false));
    ByList(run[3], run[4], [Listed(n, 0)]);
    ByRead(run[4], run[5], e);
    ByFinish(run[5], run[6]);
    hide Follows, SortedNotes, IsTasks;
  }

  lemma NextDayLeaves(n: Name, before: seq<byte>, text: seq<byte>, sig: seq<Entry> -> Uint32)
    requires before != text
    ensures var s := NextDay(n, before, text)[6];
            Enabled(s, Deliver(sig, 0)) && Lands(s) &&
            s.worker.value.quiet && s.writes == [] && s.bumps == s.worker.value.bumps &&
            Arrived(s, sig, 0).cacheValid && !IsScan(s.fs, Arrived(s, sig, 0).entries)
  {
    var s := NextDay(n, before, text)[6];
    var es := Arrived(s, sig, 0).entries;
    assert !IsNow(s.fs, es[0]);
    hide IsNow, Less, IsTasks;
  }

  /**
   A note saved and not listed again before the device restarts has stamp 0 afterwards, as it had when the index was
   written: with nothing being written, the text from before the save is taken for fresh.
   */
  lemma RestartIsStale(n: Name, before: seq<byte>, text: seq<byte>, sig: seq<Entry> -> Uint32)
    requires !IsTasks(n) && before != text
    ensures var run, s := SavedNote(n, before, text) + NextDay(n, before, text), NextDay(n, before, text)[6];
            IsRun(run, false) && Initial(run[0]) && run[|run| - 1] == s && Enabled(s, Deliver(sig, 0)) && Lands(s) &&
            s.worker.value.quiet && s.writes == [] && s.bumps == s.worker.value.bumps &&
            Arrived(s, sig, 0).cacheValid && !IsScan(s.fs, Arrived(s, sig, 0).entries)
  {
    var a, b := SavedNote(n, before, text), NextDay(n, before, text);
    SavedNoteRuns(n, before, text);
    CleanIsRun(a);
    DayEnds(n, before, text);
    NextDayRuns(n, before, text);
    RunsJoin(a, b, false);
    NextDayLeaves(n, before, text, sig);
    hide *;
  }

  lemma CleanIsRun(run: seq<System>)
    requires IsRun(run, true)
    ensures IsRun(run, false)
  {
    hide Enabled, Next, Orderly;
    forall i | 0 <= i < |run| - 1 ensures Follows(run[i], run[i + 1], false) {
      assert Follows(run[i], run[i + 1], true);
      var step :| Takes(run[i], run[i + 1], true, step);
      assert Takes(run[i], run[i + 1], false, step);
    }
  }
}
