/** What a lock, a delete and leaving the page do to the list in memory, over whole runs. */
module JournalEdits {
  import opened Bytes
  import opened Wrappers
  import opened JournalIndex
  import opened JournalRefresh
  import opened JournalPage
  import opened NoteWriters
  import opened JournalWorker

  // ---- A lock ----

  /** A lock of encrypted notes empties the list; of plain ones it does nothing; it touches nothing else. */
  lemma LockForgets(s: System, encrypted: bool)
    requires Enabled(s, Lock(encrypted))
    ensures var t := Next(s, Lock(encrypted));
            if encrypted then
              t.page.entries == [] && !t.page.cacheValid && t.page.entriesGen == NextGen(s.page.entriesGen) &&
              t == s.(edits := s.edits + 1, page := s.page.(entries := [], cacheValid := false,
                                                            entriesGen := t.page.entriesGen))
            else t == s
  {
  }

  /** The steps that put notes into an empty list: the page loads the index, or a result lands. */
  ghost predicate Fills(s: System, step: Step)
    requires Enabled(s, step)
  {
    match step
    case Build(readable) => s.index[..readable] != []
    case Deliver(sig, readable) =>
      Lands(s) && if Reloads(s, sig, readable) then s.index[..readable] != [] else s.worker.value.phase.entries != []
    case _ => false
  }

  /** The steps that take a list for fresh: those, an empty result that lands on time, and a delete. */
  ghost predicate Freshens(s: System, step: Step)
    requires Enabled(s, step)
  {
    match step
    case Build(readable) => s.page.entries == [] && s.index[..readable] != [] && !s.page.fsDirty
    case Deliver(_, _) => Lands(s)
    case Delete(_) => true
    case _ => false
  }

  /** An empty list is filled by such steps only, and one that is not fresh is taken for fresh by such steps only. */
  lemma EmptyStays(s: System, step: Step)
    requires Enabled(s, step)
    ensures s.page.entries == [] ==> (Next(s, step).page.entries != [] <==> Fills(s, step))
    ensures !s.page.cacheValid && Next(s, step).page.cacheValid ==> Freshens(s, step)
  {
    if step.Deliver? {
      ArrivedIs(s, step.sig, step.readable);
      hide Arrived, Lands;
    } else if step.Build? {
      BuiltIs(s.page.(open := false), s.index[..step.readable]);
      FreshBuild(s.page.(open := false), s.index[..step.readable]);
      hide Built;
    }
    hide Low, NextGen, AfterRefresh, Quiet, NextEntry, Known, SortedNotes, HotRead, Announced;
  }

  lemma FreshBuild(p: Page, loaded: seq<Entry>)
    requires !p.open
    ensures Built(p, loaded).cacheValid <==> !p.fsDirty && (p.cacheValid || (p.entries == [] && loaded != []))
  {
  }

  /** Between s and t the list was filled. */
  ghost predicate Filled(s: System, t: System, clean: bool) {
    exists step :: Takes(s, t, clean, step) && Fills(s, step)
  }

  ghost predicate Freshened(s: System, t: System, clean: bool) {
    exists step :: Takes(s, t, clean, step) && Freshens(s, step)
  }

  ghost predicate LocksAt(run: seq<System>, clean: bool, i: nat) {
    i + 1 < |run| && Takes(run[i], run[i + 1], clean, Lock(true))
  }

  /**
   In any run, after a lock the list in memory is empty until a step that loads the index or lands a result, and
   it is not taken for fresh until such a step or a delete.
   */
  lemma {:induction false} LockedStaysEmpty(run: seq<System>, clean: bool, i: nat, k: nat)
    requires IsRun(run, clean) && LocksAt(run, clean, i) && i < k < |run|
    ensures run[k].page.entries == [] || exists j :: i < j < k && Filled(run[j], run[j + 1], clean)
    ensures !run[k].page.cacheValid || exists j :: i < j < k && Freshened(run[j], run[j + 1], clean)
    decreases k
  {
    hide Next, Enabled, Fills, Freshens, Orderly;
    if k == i + 1 {
      LockForgets(run[i], true);
    } else {
      LockedStaysEmpty(run, clean, i, k - 1);
      assert Follows(run[k - 1], run[k - 1 + 1], clean);
      var step :| Takes(run[k - 1], run[k], clean, step);
      EmptyStays(run[k - 1], step);
      var j := k - 1;
      if Fills(run[j], step) { assert Filled(run[j], run[j + 1], clean); }
      if Freshens(run[j], step) { assert Freshened(run[j], run[j + 1], clean); }
    }
  }

  // ---- A delete ----

  predicate Named(e: Entry, n: Name) { e.filename == n }

  /** Taking a name out keeps every other entry, as often as it was there, and none of that name. */
  lemma {:induction false} WithoutIs(es: seq<Entry>, n: Name, e: Entry)
    ensures multiset(Without(es, n))[e] == if Named(e, n) then 0 else multiset(es)[e]
  {
    if es != [] {
      var rest := es[1..];
      WithoutIs(rest, n, e);
      assert es == [es[0]] + rest;
      assert multiset(es) == multiset{es[0]} + multiset(rest);
      assert multiset(Without(es, n)) ==
        (if Named(es[0], n) then multiset{} else multiset{es[0]}) + multiset(Without(rest, n));
    }
  }

  /** And keeps their order: what is left of two lists in a row is what is left of each, in a row. */
  lemma {:induction false} WithoutJoin(a: seq<Entry>, b: seq<Entry>, n: Name)
    ensures Without(a + b, n) == Without(a, n) + Without(b, n)
  {
    if a == [] {
      assert a + b == b;
    } else {
      assert (a + b)[1..] == a[1..] + b;
      WithoutJoin(a[1..], b, n);
    }
  }

  /** The list without the name, which the index then holds as well; the worker goes on with what it has. */
  lemma DeleteTakesOut(s: System, n: Name, before: seq<Entry>, e: Entry, after: seq<Entry>)
    requires Enabled(s, Delete(n)) && s.page.entries == before + [e] + after
    ensures var t := Next(s, Delete(n));
            t.index == t.page.entries && t.page.cacheValid && t.worker == s.worker && t.fs == s.fs &&
            t.page.entries == Without(before, n) + (if Named(e, n) then [] else [e]) + Without(after, n) &&
            (t.page.fsDirty <==> s.page.running && s.page.fsDirty) &&
            t.page == s.page.(entries := t.page.entries, entriesGen := NextGen(s.page.entriesGen), cacheValid := true,
                              fsDirty := t.page.fsDirty)
  {
    DeletedIs(s, n);
    WithoutAround(before, e, after, n);
    hide Next, Without, Named;
  }

  lemma WithoutAround(before: seq<Entry>, e: Entry, after: seq<Entry>, n: Name)
    ensures Without(before + [e] + after, n) ==
            Without(before, n) + (if Named(e, n) then [] else [e]) + Without(after, n)
  {
    WithoutJoin(before + [e], after, n);
    WithoutJoin(before, [e], n);
    WithoutOne(e, n);
    hide Without, Named;
  }

  lemma WithoutOne(e: Entry, n: Name)
    ensures Without([e], n) == if Named(e, n) then [] else [e]
  {
    assert [e][1..] == [];
  }

  lemma DeletedIs(s: System, n: Name)
    requires Enabled(s, Delete(n))
    ensures var t := Next(s, Delete(n));
            t.index == t.page.entries && t.page.cacheValid && t.worker == s.worker && t.fs == s.fs &&
            t.page.entries == Without(s.page.entries, n) && (t.page.fsDirty <==> s.page.running && s.page.fsDirty) &&
            t.page == s.page.(entries := t.page.entries, entriesGen := NextGen(s.page.entriesGen), cacheValid := true,
                              fsDirty := t.page.fsDirty)
  {
    hide Without, NextGen;
  }

  // ---- Leaving ----

  /** Nobody has asked for the worker's result since the page was left. */
  ghost predicate Asked(s: System, t: System, clean: bool) {
    exists spawned :: Takes(s, t, clean, Start(spawned))
  }

  ghost predicate LeavesAt(run: seq<System>, clean: bool, i: nat) {
    i + 1 < |run| && Takes(run[i], run[i + 1], clean, Leave)
  }

  predicate Runs(s: System, id: nat) { s.worker.Some? && s.worker.value.id == id && !s.worker.value.inLine }

  /** A worker that was let go of stays so, unless it is asked for again or is done. */
  lemma StaysDetached(s: System, step: Step, id: nat)
    requires Enabled(s, step) && s.started > id && (Runs(s, id) ==> s.page.detached)
    ensures var t := Next(s, step);
            t.started > id && (Runs(t, id) ==> t.page.detached || step.Start?)
  {
    hide Low, NextGen, Without, Lands, Reloads, Quiet, Arrived, NextEntry, Known, Unstamped, NextNote, HotRead,
      SortedNotes;
  }

  /** In any run, the result of a worker that was running when the page was left does not land unless asked for. */
  lemma {:induction false} LeftStaysAway(run: seq<System>, clean: bool, i: nat, k: nat, id: nat)
    requires IsRun(run, clean) && Initial(run[0]) && LeavesAt(run, clean, i) && i < k < |run| && Runs(run[i], id)
    ensures run[k].started > id
    ensures (Runs(run[k], id) ==> run[k].page.detached) || exists j :: i < j < k && Asked(run[j], run[j + 1], clean)
    decreases k
  {
    hide Next, Enabled, Orderly, Initial;
    if k == i + 1 {
      RunNumbered(run, clean, i);
      LeaveLetsGo(run[i]);
    } else {
      LeftStaysAway(run, clean, i, k - 1, id);
      var j := k - 1;
      assert Follows(run[k - 1], run[k - 1 + 1], clean);
      var step :| Takes(run[j], run[k], clean, step);
      if step.Start? {
        assert Takes(run[j], run[j + 1], clean, Start(step.spawned));
        assert Asked(run[j], run[j + 1], clean);
      }
      StartedGrows(run[j], step);
      if Runs(run[j], id) ==> run[j].page.detached { StaysDetached(run[j], step, id); }
    }
  }

  lemma StartedGrows(s: System, step: Step)
    requires Enabled(s, step)
    ensures s.started <= Next(s, step).started
  {
    StepOnward(s, step);
    hide Next, Enabled;
  }

  lemma LeaveLetsGo(s: System)
    requires Numbered(s) && Enabled(s, Leave)
    ensures var t := Next(s, Leave);
            (s.page.running ==> t.page.detached) && !t.page.open && t.worker == s.worker && t.started == s.started &&
            t.page.entries == s.page.entries
  {
  }

  lemma LeftNeverLands(run: seq<System>, clean: bool, i: nat, k: nat, id: nat, sig: seq<Entry> -> Uint32, readable: nat)
    requires IsRun(run, clean) && Initial(run[0]) && LeavesAt(run, clean, i) && i < k < |run| && Runs(run[i], id)
    requires Enabled(run[k], Deliver(sig, readable)) && Runs(run[k], id) && Lands(run[k])
    ensures exists j :: i < j < k && Asked(run[j], run[j + 1], clean)
  {
    LeftStaysAway(run, clean, i, k, id);
    hide IsRun, Initial, Enabled, Next;
  }

  /** Asking for a refresh takes a running worker back, or starts one on the list there is. */
  lemma StartTakesBack(s: System, spawned: bool)
    requires Enabled(s, Start(spawned))
    ensures var t := Next(s, Start(spawned));
            !t.page.detached && t.page.entries == s.page.entries && t.page.cacheValid == s.page.cacheValid &&
            if s.page.running then t.worker == s.worker && t.page.running
            else
              t.worker.Some? && t.page.running == spawned &&
              var w := t.worker.value;
              w.snapshot == s.page.entries && w.edits == s.edits && w.bumps == s.bumps && w.phase.Starting? &&
              w.inLine == !spawned && w.id == s.started
  {
    hide Quiet;
  }

  /** A first refresh whose result is dropped, with the page up, is tried again. */
  lemma FirstRunIsRetried(s: System, sig: seq<Entry> -> Uint32, readable: nat)
    requires Enabled(s, Deliver(sig, readable)) && !Lands(s) && (s.worker.value.inLine || !s.page.detached)
    ensures var t := Next(s, Deliver(sig, readable));
            !t.page.firstRun && t.page.open == s.page.open && (s.page.firstRun && s.page.open ==> t.page.timer)
  {
    hide Low;
  }

  // ---- The page is redone while it may be stale ----

  /** A page that is up and not taken for fresh has its refresh ahead of it. */
  predicate WillRefresh(p: Page) { p.open && !p.cacheValid ==> p.timer }

  /** Every step but a lock keeps that, and after a lock building the page again restores it. */
  lemma StalePageIsRedone(s: System, step: Step)
    requires Enabled(s, step)
    ensures WillRefresh(s.page) && step != Lock(true) ==> WillRefresh(Next(s, step).page)
    ensures step.Build? || step.Leave? || step.Restart? ==> WillRefresh(Next(s, step).page)
  {
    if step.Deliver? {
      var p, r, loaded := s.page, ResultOf(s.worker.value), s.index[..step.readable];
      if WillRefresh(p) {
        AfterRefreshRedone(p, r, Low(s.bumps), step.sig, loaded);
        AfterRefreshRedone(p.(running := false, detached := false), r, Low(s.bumps), step.sig, loaded);
      }
      hide Low, AfterRefresh, Lands, Reloads, ResultOf;
    } else {
      hide Low, NextGen, Without, Quiet, NextEntry, Known, Unstamped;
    }
  }

  lemma AfterRefreshRedone(p: Page, r: Result, fsGen: Uint32, sig: seq<Entry> -> Uint32, loaded: seq<Entry>)
    requires WillRefresh(p)
    ensures WillRefresh(AfterRefresh(p, r, fsGen, sig, loaded))
  {
    hide NextGen;
  }

  /** The note that the files have changed is dropped only when that is dealt with, and raised by a bump only. */
  lemma DirtyUntilDealtWith(s: System, step: Step)
    requires Enabled(s, step)
    ensures var t := Next(s, step);
            (s.page.fsDirty && !t.page.fsDirty ==>
               ((step.Build? || step.Deliver?) && !t.page.cacheValid) || (step.Delete? && !s.page.running) ||
               (step.Deliver? && Lands(s) && Low(s.bumps) == Low(s.worker.value.bumps) &&
                ResultOf(s.worker.value).savedIndex)) &&
            (!s.page.fsDirty && t.page.fsDirty ==>
               (step.Write? && s.writes[step.k].plan[s.writes[step.k].at].Bump?) || step.Restart?)
  {
    if step.Deliver? {
      var p, r, loaded := s.page, ResultOf(s.worker.value), s.index[..step.readable];
      DirtyAfterRefresh(p, r, Low(s.bumps), step.sig, loaded);
      DirtyAfterRefresh(p.(running := false, detached := false), r, Low(s.bumps), step.sig, loaded);
      hide Low, AfterRefresh, Reloads;
    } else {
      hide Low, NextGen, Without, Quiet, NextEntry, Known, Unstamped;
    }
  }

  lemma DirtyAfterRefresh(p: Page, r: Result, fsGen: Uint32, sig: seq<Entry> -> Uint32, loaded: seq<Entry>)
    ensures var q := AfterRefresh(p, r, fsGen, sig, loaded);
            (q.fsDirty ==> p.fsDirty) &&
            (p.fsDirty && !q.fsDirty ==> !q.cacheValid || (Applies(p, r) && fsGen == r.fsGen && r.savedIndex))
  {
    hide NextGen;
  }

  // ---- What each way of writing leaves ----

  /** All events of a plan, one after the other. */
  function Doing(s: System, plan: seq<Event>): System
    requires s.stamps + |plan| <= WORD
    decreases |plan|
  {
    if plan == [] then s else Doing(Done(s, plan[0]), plan[1..])
  }

  /** A save, in line, queued or over the link, leaves the note with its text and a stamp of its own. */
  lemma SavesLeave(s: System, n: Name, snippet: seq<byte>, truncated: bool)
    requires s.stamps + 4 <= WORD
    ensures var fs, marks := s.fs[n := File(s.stamps, snippet, truncated)], s.marks[n := s.stamps];
            var a := Doing(s, SavePlan(n, snippet, truncated));
            var b := Doing(s, QueuedSavePlan(n, snippet, truncated));
            var c := Doing(s, LinkWritePlan(n, snippet, truncated));
            a.fs == b.fs == c.fs == fs && a.marks == b.marks == c.marks == marks &&
            a.bumps == c.bumps == s.bumps + 1 && b.bumps == s.bumps + 2
  {
    SaveLeaves(s, n, snippet, truncated);
    SaveLeaves(Done(s, Event.Bump), n, snippet, truncated);
    LinkWriteLeaves(s, n, snippet, truncated);
    var plan := QueuedSavePlan(n, snippet, truncated);
    assert plan == [Event.Bump] + SavePlan(n, snippet, truncated);
    DoingNext(s, Event.Bump, SavePlan(n, snippet, truncated));
    hide Doing, SavePlan, QueuedSavePlan, LinkWritePlan;
  }

  lemma SaveLeaves(s: System, n: Name, snippet: seq<byte>, truncated: bool)
    requires s.stamps + 3 <= WORD
    ensures var t := Doing(s, SavePlan(n, snippet, truncated));
            t.fs == s.fs[n := File(s.stamps, snippet, truncated)] && t.marks == s.marks[n := s.stamps] &&
            t.bumps == s.bumps + 1
  {
    var touch, put := Touch(n), Put(n, snippet, truncated);
    Doing3(s, Event.Bump, touch, put);
    hide Doing;
  }

  lemma LinkWriteLeaves(s: System, n: Name, snippet: seq<byte>, truncated: bool)
    requires s.stamps + 4 <= WORD
    ensures var t := Doing(s, LinkWritePlan(n, snippet, truncated));
            t.fs == s.fs[n := File(s.stamps, snippet, truncated)] && t.marks == s.marks[n := s.stamps] &&
            t.bumps == s.bumps + 1
  {
    var drop, put, touch := Event.Remove(n), Put(n, snippet, truncated), Touch(n);
    DoingNext(s, drop, [put, touch, Event.Bump]);
    assert LinkWritePlan(n, snippet, truncated) == [drop] + [put, touch, Event.Bump];
    hide *;
    DoneRemove(s, n);
    PutLeaves(Done(s, drop), n, snippet, truncated);
    assert (s.fs - {n})[n := File(s.stamps, snippet, truncated)] == s.fs[n := File(s.stamps, snippet, truncated)];
  }

  lemma DoneRemove(s: System, n: Name)
    ensures var t := Done(s, Event.Remove(n));
            t.fs == s.fs - {n} && t.marks == s.marks && t.stamps == s.stamps && t.bumps == s.bumps
  {
  }

  lemma PutLeaves(s: System, n: Name, snippet: seq<byte>, truncated: bool)
    requires s.stamps + 3 <= WORD
    ensures var t := Doing(s, [Put(n, snippet, truncated), Touch(n), Event.Bump]);
            t.fs == s.fs[n := File(s.stamps, snippet, truncated)] && t.marks == s.marks[n := s.stamps] &&
            t.bumps == s.bumps + 1
  {
    hide *;
    var put := Put(n, snippet, truncated);
    Doing3(s, put, Touch(n), Event.Bump);
    DonePut(s, n, snippet, truncated);
    DoneTouch(Done(s, put), n);
    DoneBump(Done(Done(s, put), Touch(n)));
  }

  lemma DoneBump(s: System)
    ensures var t := Done(s, Event.Bump);
            t.fs == s.fs && t.marks == s.marks && t.stamps == s.stamps && t.bumps == s.bumps + 1
  {
  }

  lemma DoneTouch(s: System, n: Name)
    requires s.stamps < WORD
    ensures var t := Done(s, Touch(n));
            t.fs == (if n in s.fs then s.fs[n := s.fs[n].(stamp := s.stamps)] else s.fs) &&
            t.marks == s.marks[n := s.stamps] && t.stamps == s.stamps + 1 && t.bumps == s.bumps
  {
  }

  lemma DonePut(s: System, n: Name, snippet: seq<byte>, truncated: bool)
    ensures var t := Done(s, Put(n, snippet, truncated));
            t.fs == s.fs[n := File(Mark(s.marks, n), snippet, truncated)] && t.marks == s.marks &&
            t.stamps == s.stamps && t.bumps == s.bumps
  {
  }

  lemma DoingNext(s: System, e: Event, rest: seq<Event>)
    requires s.stamps + |rest| + 1 <= WORD
    ensures Done(s, e).stamps <= s.stamps + 1 && Doing(s, [e] + rest) == Doing(Done(s, e), rest)
  {
    assert ([e] + rest)[1..] == rest;
  }

  lemma Doing3(s: System, a: Event, b: Event, c: Event)
    requires s.stamps + 3 <= WORD
    ensures Done(s, a).stamps <= s.stamps + 1 && Done(Done(s, a), b).stamps <= s.stamps + 2
    ensures Doing(s, [a, b, c]) == Done(Done(Done(s, a), b), c)
  {
    assert [a] + [b, c] == [a, b, c] && [b] + [c] == [b, c] && [c] + [] == [c];
    DoingNext(s, a, [b, c]);
    DoingNext(Done(s, a), b, [c]);
    DoingNext(Done(Done(s, a), b), c, []);
    DoingNone(Done(Done(Done(s, a), b), c));
    hide Done, Doing;
  }

  lemma DoingNone(s: System)
    requires s.stamps <= WORD
    ensures Doing(s, []) == s
  {
  }

  /** A delete leaves everything but the note, and its name a new stamp. */
  lemma DeletesLeave(s: System, n: Name)
    requires s.stamps + 3 <= WORD
    ensures var a, b := Doing(s, DeletePlan(n)), Doing(s, LinkDeletePlan(n));
            a.fs == b.fs == s.fs - {n} && a.marks == b.marks == s.marks[n := s.stamps] &&
            a.bumps == b.bumps == s.bumps + 1
  {
    Doing3(s, Event.Bump, Touch(n), Event.Remove(n));
    Doing3(s, Event.Remove(n), Touch(n), Event.Bump);
    hide Doing;
  }

  /** A rename leaves the note's text under the other name, with a stamp of its own. */
  lemma RenameLeaves(s: System, from: Name, to: Name)
    requires s.stamps + 4 <= WORD && from in s.fs
    ensures var t, f := Doing(s, LinkRenamePlan(from, to)), s.fs[from];
            t.fs == (s.fs - {from})[to := f.(stamp := s.stamps + 1)] && t.bumps == s.bumps + 1 &&
            t.marks == s.marks[from := s.stamps][to := s.stamps + 1]
  {
    var move := Event.Move(from, to);
    DoingNext(s, move, [Touch(from), Touch(to), Event.Bump]);
    assert LinkRenamePlan(from, to) == [move] + [Touch(from), Touch(to), Event.Bump];
    hide *;
    MoveLeaves(s, from, to);
    TwoStamps(Done(s, move), from, to);
    Restamped(s.fs - {from}, from, to, s.fs[from].(stamp := Mark(s.marks, to)), s.stamps);
  }

  lemma TwoStamps(s: System, from: Name, to: Name)
    requires s.stamps + 3 <= WORD && to in s.fs
    ensures var t := Doing(s, [Touch(from), Touch(to), Event.Bump]);
            var fs := if from in s.fs then s.fs[from := s.fs[from].(stamp := s.stamps)] else s.fs;
            t.fs == fs[to := fs[to].(stamp := s.stamps + 1)] && t.bumps == s.bumps + 1 &&
            t.marks == s.marks[from := s.stamps][to := s.stamps + 1]
  {
    hide *;
    var a := Done(s, Touch(from));
    Doing3(s, Touch(from), Touch(to), Event.Bump);
    DoneTouch(s, from);
    DoneTouch(a, to);
    DoneBump(Done(a, Touch(to)));
  }

  lemma MoveLeaves(s: System, from: Name, to: Name)
    requires from in s.fs
    ensures var t := Done(s, Event.Move(from, to));
            t.fs == (s.fs - {from})[to := s.fs[from].(stamp := Mark(s.marks, to))] && t.marks == s.marks &&
            t.stamps == s.stamps && t.bumps == s.bumps
  {
  }

  lemma Restamped(fs: Files, from: Name, to: Name, f: File, stamp: Uint32)
    requires from !in fs && stamp + 1 < WORD
    ensures var a := fs[to := f];
            var b := if from in a then a[from := a[from].(stamp := stamp)] else a;
            b[to := b[to].(stamp := stamp + 1)] == fs[to := f.(stamp := stamp + 1)]
  {
  }

  /** Deleting paths leaves everything but them, and gives no stamps. */
  lemma {:induction false} DeletePathsLeave(s: System, names: seq<Name>)
    requires s.stamps + |names| + 1 <= WORD
    ensures var t := Doing(s, DeletePathPlan(names));
            t.fs == s.fs - (set n | n in names) && t.marks == s.marks && t.bumps == s.bumps + 1
  {
    var removes := seq(|names|, i requires 0 <= i < |names| => Event.Remove(names[i]));
    DoingNext(s, Event.Bump, removes);
    RemovesLeave(Done(s, Event.Bump), names, removes);
    hide Doing;
  }

  lemma {:induction false} RemovesLeave(s: System, names: seq<Name>, removes: seq<Event>)
    requires s.stamps + |names| <= WORD && |removes| == |names|
    requires forall i :: 0 <= i < |names| ==> removes[i] == Event.Remove(names[i])
    ensures var t := Doing(s, removes);
            t.fs == s.fs - (set n | n in names) && t.marks == s.marks && t.bumps == s.bumps
    decreases |names|
  {
    if names != [] {
      RemovesLeave(Done(s, removes[0]), names[1..], removes[1..]);
      assert names == [names[0]] + names[1..];
      assert (set n | n in names) == {names[0]} + (set n | n in names[1..]);
    }
  }
}
