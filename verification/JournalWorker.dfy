/**
 The journal's background refresh as a protocol: the UI thread, one worker that scans in many steps, and
 other threads that write notes, each in the order of its own.
 */
module JournalWorker {
  import opened Bytes
  import opened Wrappers
  import opened JournalIndex
  import opened JournalRefresh
  import opened JournalPage
  import opened NoteWriters

  /** Where a scan is: begun, past the wait for queued saves, part way down the listing, or finished. */
  datatype Phase =
    | Starting
    | Waited
    | Reading(listing: seq<Listed>, existing: seq<Entry>, next: seq<Entry>, changed: bool)
    | Finished(entries: seq<Entry>, saved: bool)

  /**
   A scan and what it was started with: the list, how many edits of the list and bumps of the file system's
   generation there had been, and whether the writers were quiet. Without a task of its own it runs in line,
   and the UI waits.
   */
  datatype Worker = Worker(
    id: nat, snapshot: seq<Entry>, edits: nat, bumps: nat, quiet: bool, inLine: bool, phase: Phase)

  /** Counters are kept whole here; the code sees their low 32 bits. Marks are the stamps given to names so far. */
  datatype System = System(
    page: Page, edits: nat, fs: Files, marks: map<Name, Uint32>, stamps: nat, bumps: nat, writes: seq<Writing>,
    index: seq<Entry>, worker: Option<Worker>, started: nat)

  datatype Step =
    | Open(plan: seq<Event>, gated: bool)
    | Write(k: nat)
    | Wait
    | List(listing: seq<Listed>, loaded: nat)
    | ReadNext
    | Finish
    | Start(spawned: bool)
    | Deliver(sig: seq<Entry> -> Uint32, readable: nat)
    | Lock(encrypted: bool)
    | Delete(name: Name)
    | Build(readable: nat)
    | Leave
    | Restart(dirty: bool)

  function Low(n: nat): Uint32 { n % WORD }

  /** A name that was never touched has stamp 0. */
  function Mark(marks: map<Name, Uint32>, n: Name): Uint32 { if n in marks then marks[n] else 0 }

  predicate UiFree(s: System) { s.worker.None? || !s.worker.value.inLine }

  predicate InPhase(s: System, reading: bool) {
    s.worker.Some? && if reading then s.worker.value.phase.Reading? else s.worker.value.phase.Finished?
  }

  /** The note the worker looks at next. */
  predicate HasNext(s: System) {
    InPhase(s, true) && |s.worker.value.phase.next| < |s.worker.value.phase.listing|
  }

  function NextNote(s: System): Listed
    requires HasNext(s)
  {
    s.worker.value.phase.listing[|s.worker.value.phase.next|]
  }

  /** The worker is about to read a note under the stamp of a write whose text is still to come. */
  predicate HotRead(s: System, w: Writing)
    requires HasNext(s)
  {
    var x := NextNote(s);
    Hot(w, x.name) && x.stamp == Mark(s.marks, x.name) && !Known(s.worker.value.phase.existing, x)
  }

  /** No write is past its bumps with its work still to do; a queued save may be, for the scan waits for it. */
  predicate Quiet(writes: seq<Writing>) {
    forall k :: 0 <= k < |writes| ==> writes[k].gated || !Announced(writes[k])
  }

  predicate NoneAnnounced(writes: seq<Writing>) { forall k :: 0 <= k < |writes| ==> !Announced(writes[k]) }

  /** Some write has begun its work and is still to bump. */
  predicate AnyBegun(writes: seq<Writing>) { exists k :: 0 <= k < |writes| && Begun(writes[k]) }

  ghost predicate Enabled(s: System, step: Step) {
    match step
    case Open(_, _) => true
    case Write(k) =>
      k < |s.writes| && s.writes[k].at < |s.writes[k].plan| &&
        (s.writes[k].plan[s.writes[k].at].Touch? ==> s.stamps < WORD)
    case Wait =>
      s.worker.Some? && s.worker.value.phase.Starting? &&
      forall k :: 0 <= k < |s.writes| ==> !(s.writes[k].gated && Announced(s.writes[k]))
    case List(listing, loaded) =>
      s.worker.Some? && s.worker.value.phase.Waited? && SortedNotes(listing, s.fs) && loaded <= |s.index|
    case ReadNext => HasNext(s) && forall k :: 0 <= k < |s.writes| ==> !(s.writes[k].gated && HotRead(s, s.writes[k]))
    case Finish => InPhase(s, true) && !HasNext(s)
    case Start(_) => UiFree(s)
    case Deliver(_, readable) => InPhase(s, false) && readable <= |s.index|
    case Lock(_) => UiFree(s)
    case Delete(_) => UiFree(s)
    case Build(readable) => UiFree(s) && readable <= |s.index|
    case Leave => UiFree(s)
    case Restart(dirty) => s.page.fsDirty ==> dirty
  }

  /** One event of a write. */
  function Done(s: System, e: Event): System
    requires e.Touch? ==> s.stamps < WORD
  {
    match e
    case Bump => s.(bumps := s.bumps + 1, page := s.page.(fsDirty := true))
    case Touch(n) =>
      s.(marks := s.marks[n := s.stamps], stamps := s.stamps + 1,
         fs := if n in s.fs then s.fs[n := s.fs[n].(stamp := s.stamps)] else s.fs)
    case Put(n, snippet, truncated) => s.(fs := s.fs[n := File(Mark(s.marks, n), snippet, truncated)])
    case Remove(n) => s.(fs := s.fs - {n})
    case Move(from, to) =>
      if from in s.fs then s.(fs := (s.fs - {from})[to := s.fs[from].(stamp := Mark(s.marks, to))]) else s
  }

  const CLOSED := Page([], false, 0, false, false, false, false, false, true)

  /** What memory held is gone: files have no stamps again, and writes stay as far as they got. */
  function Restarted(s: System, dirty: bool): System {
    s.(page := CLOSED.(fsDirty := dirty), edits := 0, fs := Unstamped(s.fs), marks := map[], bumps := 0, writes := [],
       worker := None)
  }

  function Unstamped(fs: Files): Files { map n | n in fs :: fs[n].(stamp := 0) }

  function ResultOf(w: Worker): Result
    requires w.phase.Finished?
  {
    Result(w.phase.entries, Low(w.edits), Low(w.bumps), w.phase.saved)
  }

  /** The page as the callback leaves it; without a task the result goes straight there. */
  function Arrived(s: System, sig: seq<Entry> -> Uint32, readable: nat): Page
    requires InPhase(s, false) && readable <= |s.index|
  {
    var r := ResultOf(s.worker.value);
    if s.worker.value.inLine then AfterRefresh(s.page, r, Low(s.bumps), sig, s.index[..readable])
    else Delivered(s.page, r, Low(s.bumps), sig, s.index[..readable])
  }

  /** The result becomes the list. */
  predicate Lands(s: System)
    requires InPhase(s, false)
  {
    (s.worker.value.inLine || !s.page.detached) && Low(s.worker.value.edits) == s.page.entriesGen
  }

  /** And the page that is built again loads the index in its place. */
  predicate Reloads(s: System, sig: seq<Entry> -> Uint32, readable: nat)
    requires InPhase(s, false) && readable <= |s.index|
  {
    Lands(s) && LoadsIndex(s.page, ResultOf(s.worker.value), sig, s.index[..readable])
  }

  function Advance(s: System, w: Worker, step: Step): System
    requires s.worker == Some(w) && (step.Wait? || step.List? || step.ReadNext? || step.Finish?)
    requires step.ReadNext? ==> HasNext(s)
    requires step.Finish? ==> w.phase.Reading?
    requires step.List? ==> step.loaded <= |s.index|
  {
    match step
    case Wait => s.(worker := Some(w.(phase := Waited)))
    case List(listing, loaded) =>
      var existing := if w.snapshot == [] then s.index[..loaded] else w.snapshot;
      s.(worker := Some(w.(phase := Reading(listing, existing, [], |existing| != |listing|))))
    case ReadNext =>
      var x := NextNote(s);
      var e := NextEntry(w.phase.existing, x, s.fs);
      s.(worker := Some(w.(phase := w.phase.(next := w.phase.next + [e],
                                             changed := w.phase.changed || !Known(w.phase.existing, x)))))
    case Finish =>
      s.(worker := Some(w.(phase := Finished(w.phase.next, w.phase.changed))),
         index := if w.phase.changed then w.phase.next else s.index)
  }

  function Next(s: System, step: Step): System
    requires Enabled(s, step)
  {
    match step
    case Open(plan, gated) => s.(writes := s.writes + [Writing(plan, 0, gated)])
    case Write(k) =>
      var w := s.writes[k];
      Done(s, w.plan[w.at]).(writes := s.writes[k := Advanced(w)])
    case Wait => Advance(s, s.worker.value, step)
    case List(_, _) => Advance(s, s.worker.value, step)
    case ReadNext => Advance(s, s.worker.value, step)
    case Finish => Advance(s, s.worker.value, step)
    case Start(spawned) =>
      var page := Started(s.page, spawned);
      if s.page.running then s.(page := page)
      else
        s.(page := page, started := s.started + 1,
           worker := Some(Worker(s.started, s.page.entries, s.edits, s.bumps, Quiet(s.writes), !spawned, Starting)))
    case Deliver(sig, readable) =>
      s.(page := Arrived(s, sig, readable), worker := None,
         edits := s.edits + (if Lands(s) then 1 else 0) + (if Reloads(s, sig, readable) then 1 else 0))
    case Lock(encrypted) => s.(page := Locked(s.page, encrypted), edits := s.edits + (if encrypted then 1 else 0))
    case Delete(n) => var page := Deleted(s.page, n); s.(page := page, edits := s.edits + 1, index := page.entries)
    case Build(readable) =>
      // A page that is up is torn down first.
      s.(page := Built(s.page.(open := false), s.index[..readable]),
         edits := s.edits + (if s.page.entries == [] && s.index[..readable] != [] then 1 else 0))
    case Leave => s.(page := Left(s.page))
    case Restart(dirty) => Restarted(s, dirty)
  }

  // ---- What every step keeps ----

  /** No write has stamped the name and is still to give it its text. */
  predicate Cold(writes: seq<Writing>, n: Name) { forall k :: 0 <= k < |writes| ==> !Hot(writes[k], n) }

  /** Some write has changed the name's file and is still to stamp it. */
  predicate Owed(writes: seq<Writing>, n: Name) { exists k :: 0 <= k < |writes| && Owes(writes[k], n) }

  /**
   An entry has no stamp that is still to come. If it has its name's stamp, no text is under way under that
   stamp, and the entry says what the file says, unless the stamp is about to change.
   */
  ghost predicate Honest(e: Entry, fs: Files, marks: map<Name, Uint32>, stamps: nat, writes: seq<Writing>) {
    e.mtime < stamps &&
    (Mark(marks, e.filename) == e.mtime ==>
       Cold(writes, e.filename) &&
       (e.filename in fs ==> e == EntryOf(e.filename, fs[e.filename]) || Owed(writes, e.filename)))
  }

  ghost predicate AllHonest(es: seq<Entry>, s: System) {
    forall i :: 0 <= i < |es| ==> Honest(es[i], s.fs, s.marks, s.stamps, s.writes)
  }

  ghost predicate OldStamps(l: seq<Listed>, stamps: nat) { forall i :: 0 <= i < |l| ==> l[i].stamp < stamps }

  ghost predicate PhaseHonest(ph: Phase, s: System) {
    match ph
    case Starting => true
    case Waited => true
    case Reading(l, existing, next, _) =>
      |next| <= |l| && OldStamps(l, s.stamps) && AllHonest(existing, s) && AllHonest(next, s)
    case Finished(es, _) => AllHonest(es, s)
  }

  /** What is read so far is what a scan would give. */
  ghost predicate PhaseNow(ph: Phase, fs: Files) {
    match ph
    case Starting => true
    case Waited => true
    case Reading(l, _, next, _) =>
      |next| <= |l| && SortedNotes(l, fs) && forall k :: 0 <= k < |next| ==> NowAt(fs, l, next, k)
    case Finished(es, _) => IsScan(fs, es)
  }

  /** Nothing was announced when the scan was started, and nothing has been bumped since. */
  predicate Calm(s: System, w: Worker) { w.quiet && w.bumps == s.bumps }

  /** In a calm scan nothing is written behind its back, but for a write that is still to bump. */
  ghost predicate CalmNow(s: System, w: Worker) {
    Calm(s, w) && !AnyBegun(s.writes) ==>
      Quiet(s.writes) && (!w.phase.Starting? ==> NoneAnnounced(s.writes)) && PhaseNow(w.phase, s.fs)
  }

  /** A scan of a list that is not empty, with an empty result, has emptied the index. */
  ghost predicate EmptyIsSaved(s: System, w: Worker) {
    match w.phase
    case Starting => true
    case Waited => true
    case Reading(l, existing, next, changed) =>
      (w.snapshot != [] ==> existing != []) && (|existing| != |l| ==> changed)
    case Finished(es, _) => w.snapshot != [] && es == [] && w.edits == s.edits ==> s.index == []
  }

  ghost predicate WorkerValid(s: System, w: Worker) {
    (w.edits == s.edits ==> s.page.entries == w.snapshot) &&
    AllHonest(w.snapshot, s) && PhaseHonest(w.phase, s) && CalmNow(s, w) && EmptyIsSaved(s, w)
  }

  /** Every name's stamp has been given out, and is its file's. */
  ghost predicate Marked(fs: Files, marks: map<Name, Uint32>, stamps: nat) {
    1 <= stamps <= WORD && (forall n :: n in marks ==> marks[n] < stamps) &&
    forall n :: n in fs ==> fs[n].stamp == Mark(marks, n)
  }

  ghost predicate WritesGood(writes: seq<Writing>) { forall k :: 0 <= k < |writes| ==> Good(writes[k]) }

  /** The counters go on, and the page knows whether a worker of its own runs. */
  predicate Numbered(s: System) {
    s.page.entriesGen == Low(s.edits) &&
    (s.page.running <==> s.worker.Some? && !s.worker.value.inLine) &&
    (s.worker.Some? ==>
       var w := s.worker.value;
       w.id < s.started && w.edits <= s.edits && w.bumps <= s.bumps)
  }

  ghost predicate Valid(s: System) {
    Numbered(s) && Marked(s.fs, s.marks, s.stamps) && WritesGood(s.writes) &&
    AllHonest(s.page.entries, s) && AllHonest(s.index, s) &&
    (s.worker.Some? ==> WorkerValid(s, s.worker.value))
  }

  lemma LowNext(n: nat)
    ensures Low(n + 1) == NextGen(Low(n))
  {
  }

  lemma HonestPart(es: seq<Entry>, part: seq<Entry>, s: System)
    requires AllHonest(es, s) && forall i :: 0 <= i < |part| ==> part[i] in es
    ensures AllHonest(part, s)
  {
    hide Honest;
    forall i | 0 <= i < |part| ensures Honest(part[i], s.fs, s.marks, s.stamps, s.writes) {
      var k :| 0 <= k < |es| && es[k] == part[i];
    }
  }

  // ---- Writes ----

  lemma DoneMarked(s: System, e: Event)
    requires Marked(s.fs, s.marks, s.stamps) && (e.Touch? ==> s.stamps < WORD)
    ensures Marked(Done(s, e).fs, Done(s, e).marks, Done(s, e).stamps)
  {
  }

  /** What an event does to the stamp and the file of a name. */
  lemma DoneAt(s: System, e: Event, n: Name)
    requires Marked(s.fs, s.marks, s.stamps) && (e.Touch? ==> s.stamps < WORD)
    ensures var t := Done(s, e);
            s.stamps <= t.stamps && Mark(t.marks, n) == (if IsTouch(e, n) then s.stamps else Mark(s.marks, n)) &&
            (!IsTouch(e, n) && !Alters(e, n) ==> (n in t.fs <==> n in s.fs) && (n in s.fs ==> t.fs[n] == s.fs[n])) &&
            (Alters(e, n) && !Fills(e, n) ==> n !in t.fs || t.fs == s.fs)
  {
  }

  lemma AdvancedCold(writes: seq<Writing>, k: nat, n: Name)
    requires k < |writes| && writes[k].at < |writes[k].plan|
    ensures var e, ws := writes[k].plan[writes[k].at], writes[k := Advanced(writes[k])];
            (Cold(writes, n) && !IsTouch(e, n) ==> Cold(ws, n)) &&
            (Cold(writes, n) && Fills(e, n) ==> Owed(ws, n)) &&
            (Owed(writes, n) && !IsTouch(e, n) ==> Owed(ws, n))
  {
    var w := writes[k];
    var v := Advanced(w);
    var ws := writes[k := v];
    AdvancedAt(w, n);
    hide IsTouch, Fills, Alters, TouchesAfter, FillsAfter, AltersBefore, Advanced;
    assert ws[k] == v && forall j :: 0 <= j < |ws| && j != k ==> ws[j] == writes[j];
    if Owed(writes, n) && !IsTouch(w.plan[w.at], n) {
      var j :| 0 <= j < |writes| && Owes(writes[j], n);
      assert Owes(ws[j], n);
    }
    if Cold(writes, n) && Fills(w.plan[w.at], n) {
      assert Alters(w.plan[w.at], n) by { FillsAlters(w.plan[w.at], n); }
      assert !IsTouch(w.plan[w.at], n) by { FillsAlters(w.plan[w.at], n); }
      assert Owes(ws[k], n);
    }
  }

  lemma FillsAlters(e: Event, n: Name)
    requires Fills(e, n)
    ensures Alters(e, n) && !IsTouch(e, n)
  {
  }

  /** A write leaves every entry honest. */
  lemma WriteKeepsEntry(s: System, k: nat, e: Entry)
    requires Valid(s) && Enabled(s, Write(k)) && Honest(e, s.fs, s.marks, s.stamps, s.writes)
    ensures var t := Next(s, Write(k)); Honest(e, t.fs, t.marks, t.stamps, t.writes)
  {
    var w := s.writes[k];
    var ev := w.plan[w.at];
    var n := e.filename;
    DoneAt(s, ev, n);
    AdvancedCold(s.writes, k, n);
    if Fills(ev, n) { FillsAlters(ev, n); }
    hide Done, Cold, Owed, IsTouch, Fills, Alters, Advanced, Marked, AllHonest, WorkerValid, WritesGood, Low;
  }

  lemma WriteKeepsAll(s: System, k: nat, es: seq<Entry>)
    requires Valid(s) && Enabled(s, Write(k)) && AllHonest(es, s)
    ensures AllHonest(es, Next(s, Write(k)))
  {
    hide Valid, Enabled, Next, Honest;
    forall i | 0 <= i < |es|
      ensures var t := Next(s, Write(k)); Honest(es[i], t.fs, t.marks, t.stamps, t.writes)
    {
      WriteKeepsEntry(s, k, es[i]);
    }
  }

  lemma BegunStays(s: System, k: nat)
    requires Valid(s) && Enabled(s, Write(k)) && !s.writes[k].plan[s.writes[k].at].Bump?
    ensures AnyBegun(s.writes) || !Announced(s.writes[k]) ==> AnyBegun(Next(s, Write(k)).writes)
  {
    var v, t := s.writes[k], Next(s, Write(k));
    AdvancedWork(v);
    WritesAfter(s, k);
    hide Valid, Enabled, Next, BumpsAfter, WorksAfter, WorksBefore;
    if !Announced(v) {
      assert Begun(t.writes[k]);
    } else if j :| 0 <= j < |s.writes| && Begun(s.writes[j]) {
      assert Begun(t.writes[j]);
    }
  }

  /** In a calm scan a write that works is one that is still to bump, or one that the scan still waits for. */
  lemma WriteKeepsCalm(s: System, k: nat, w: Worker)
    requires Valid(s) && Enabled(s, Write(k)) && s.worker == Some(w)
    ensures CalmNow(Next(s, Write(k)), w)
  {
    WritesAfter(s, k);
    if !s.writes[k].plan[s.writes[k].at].Bump? {
      BegunStays(s, k);
      if Quiet(s.writes) { QuietAfter(s, k); }
    }
    hide Honest, AllHonest, Marked, WritesGood, PhaseHonest, EmptyIsSaved, Announced, Begun, Quiet, AnyBegun, Next, Low;
  }

  /** What an event leaves alone. */
  lemma DoneLeaves(s: System, e: Event)
    requires e.Touch? ==> s.stamps < WORD
    ensures var t := Done(s, e);
            t.bumps == (if e.Bump? then s.bumps + 1 else s.bumps) &&
            t.page == s.page.(fsDirty := s.page.fsDirty || e.Bump?) && t.edits == s.edits && t.started == s.started &&
            t.index == s.index && t.worker == s.worker
  {
    hide Mark;
  }

  /** What a write leaves alone. */
  lemma WritesAfter(s: System, k: nat)
    requires Enabled(s, Write(k))
    ensures var t, e := Next(s, Write(k)), s.writes[k].plan[s.writes[k].at];
            t.writes == s.writes[k := Advanced(s.writes[k])] && t.bumps == (if e.Bump? then s.bumps + 1 else s.bumps) &&
            t.page == s.page.(fsDirty := s.page.fsDirty || e.Bump?) && t.edits == s.edits && t.started == s.started &&
            t.index == s.index && t.worker == s.worker
  {
    DoneLeaves(s, s.writes[k].plan[s.writes[k].at]);
    hide Done, Advanced;
  }

  lemma QuietAfter(s: System, k: nat)
    requires Valid(s) && Enabled(s, Write(k)) && Quiet(s.writes) && !s.writes[k].plan[s.writes[k].at].Bump?
    ensures Quiet(Next(s, Write(k)).writes)
  {
    AdvancedWork(s.writes[k]);
    WritesAfter(s, k);
    hide Valid, BumpsAfter, WorksAfter, Done;
  }

  lemma WriteKeepsWorker(s: System, k: nat, w: Worker)
    requires Valid(s) && Enabled(s, Write(k)) && s.worker == Some(w)
    ensures WorkerValid(Next(s, Write(k)), w)
  {
    WritesAfter(s, k);
    WriteKeepsCalm(s, k, w);
    WriteKeepsAll(s, k, w.snapshot);
    StampsGrow(s, k);
    match w.phase {
      case Starting =>
      case Waited =>
      case Reading(l, existing, next, _) =>
        WriteKeepsAll(s, k, existing);
        WriteKeepsAll(s, k, next);
      case Finished(es, _) => WriteKeepsAll(s, k, es);
    }
    hide AllHonest, CalmNow, Marked, Low, WritesGood, Enabled, Next;
  }

  lemma StampsGrow(s: System, k: nat)
    requires Enabled(s, Write(k))
    ensures s.stamps <= Next(s, Write(k)).stamps
  {
  }

  lemma WriteKeeps(s: System, k: nat)
    requires Valid(s) && Enabled(s, Write(k))
    ensures Valid(Next(s, Write(k)))
  {
    WritesAfter(s, k);
    WritesStayGood(s, k);
    WriteKeepsMarks(s, k);
    WriteKeepsAll(s, k, s.page.entries);
    WriteKeepsAll(s, k, s.index);
    if s.worker.Some? { WriteKeepsWorker(s, k, s.worker.value); }
    hide AllHonest, Marked, Low, WritesGood, WorkerValid, Enabled, Next;
  }

  lemma WriteKeepsMarks(s: System, k: nat)
    requires Valid(s) && Enabled(s, Write(k))
    ensures var t := Next(s, Write(k)); Marked(t.fs, t.marks, t.stamps)
  {
    DoneMarked(s, s.writes[k].plan[s.writes[k].at]);
    hide AllHonest, Marked, WritesGood, WorkerValid, Done;
  }

  lemma WritesStayGood(s: System, k: nat)
    requires WritesGood(s.writes) && Enabled(s, Write(k))
    ensures WritesGood(s.writes[k := Advanced(s.writes[k])])
  {
    hide WellPlanned;
  }

  /** A new write changes nothing yet. */
  lemma OpenKeeps(s: System, step: Step)
    requires Valid(s) && Enabled(s, step) && step.Open? && WellPlanned(step.plan)
    ensures Valid(Next(s, step))
  {
    var v := Writing(step.plan, 0, step.gated);
    var t := Next(s, step);
    assert t.writes == s.writes + [v] && forall j :: 0 <= j < |s.writes| ==> t.writes[j] == s.writes[j];
    forall e: Entry | Honest(e, s.fs, s.marks, s.stamps, s.writes)
      ensures Honest(e, t.fs, t.marks, t.stamps, t.writes)
    {
      OpenKeepsEntry(s, v, e);
    }
    if s.worker.Some? {
      NewIsCold(v, []);
      OpenCalm(s, t, v, s.worker.value);
    }
    hide Honest, CalmNow, Marked, WellPlanned, Low;
  }

  lemma OpenKeepsEntry(s: System, v: Writing, e: Entry)
    requires Good(v) && v.at == 0 && Honest(e, s.fs, s.marks, s.stamps, s.writes)
    ensures Honest(e, s.fs, s.marks, s.stamps, s.writes + [v])
  {
    NewIsCold(v, e.filename);
    OpenHonest(s.writes, v, e.filename);
    hide Cold, Owed, Hot, Good;
  }

  lemma OpenHonest(writes: seq<Writing>, v: Writing, n: Name)
    requires !Hot(v, n)
    ensures Cold(writes, n) ==> Cold(writes + [v], n)
    ensures Owed(writes, n) ==> Owed(writes + [v], n)
  {
    hide Hot, Owes;
    if Owed(writes, n) {
      var j :| 0 <= j < |writes| && Owes(writes[j], n);
      assert Owes((writes + [v])[j], n);
    }
  }

  lemma OpenCalm(s: System, t: System, v: Writing, w: Worker)
    requires CalmNow(s, w) && t == s.(writes := s.writes + [v]) && !Announced(v)
    ensures CalmNow(t, w)
  {
    hide Announced, Begun, PhaseNow;
    if AnyBegun(s.writes) {
      var j :| 0 <= j < |s.writes| && Begun(s.writes[j]);
      assert Begun(t.writes[j]);
    }
  }

  // ---- The scan ----

  lemma WaitKeeps(s: System)
    requires Valid(s) && Enabled(s, Wait)
    ensures Valid(Next(s, Wait))
  {
    hide Honest, Marked, WritesGood, Announced, Low;
  }

  lemma ListKeeps(s: System, step: Step)
    requires Valid(s) && step.List? && Enabled(s, step)
    ensures Valid(Next(s, step))
  {
    HonestPart(s.index, s.index[..step.loaded], s);
    forall i | 0 <= i < |step.listing| ensures step.listing[i].stamp < s.stamps {
      assert IsListed(s.fs, step.listing[i]);
    }
    hide Honest, SortedNotes, Quiet, NoneAnnounced, AnyBegun, WritesGood, Low;
  }

  /** A note read under a stamp whose text is still to come says what the file no longer will. */
  predicate ReadsHot(s: System) { HasNext(s) && exists k :: 0 <= k < |s.writes| && HotRead(s, s.writes[k]) }

  lemma ReadHonest(s: System)
    requires Valid(s) && Enabled(s, ReadNext) && !ReadsHot(s)
    ensures Honest(NextEntry(s.worker.value.phase.existing, NextNote(s), s.fs), s.fs, s.marks, s.stamps, s.writes)
  {
    var x, existing := NextNote(s), s.worker.value.phase.existing;
    if Known(existing, x) {
      assert Honest(existing[Find(existing, x.name)], s.fs, s.marks, s.stamps, s.writes);
    } else if x.stamp == Mark(s.marks, x.name) {
      forall k | 0 <= k < |s.writes| ensures !Hot(s.writes[k], x.name) {
        assert !HotRead(s, s.writes[k]);
      }
    }
  }

  lemma ReadNow(s: System)
    requires Valid(s) && Enabled(s, ReadNext) && Calm(s, s.worker.value) && !AnyBegun(s.writes)
    ensures PhaseNow(Next(s, ReadNext).worker.value.phase, s.fs)
  {
    var ph, x := s.worker.value.phase, NextNote(s);
    assert IsListed(s.fs, x);
    if Known(ph.existing, x) {
      var e := ph.existing[Find(ph.existing, x.name)];
      assert Honest(e, s.fs, s.marks, s.stamps, s.writes);
      if Owed(s.writes, x.name) {
        var k :| 0 <= k < |s.writes| && Owes(s.writes[k], x.name);
        OwesIsBegun(s.writes[k], x.name);
      }
    }
    NowMore(ph.listing, ph.existing, ph.next, s.fs);
  }

  lemma NowMore(l: seq<Listed>, existing: seq<Entry>, next: seq<Entry>, fs: Files)
    requires |next| < |l| && SortedNotes(l, fs) && l[|next|].name in fs
    requires NextEntry(existing, l[|next|], fs) == EntryOf(l[|next|].name, fs[l[|next|].name])
    requires forall k :: 0 <= k < |next| ==> NowAt(fs, l, next, k)
    ensures var more := next + [NextEntry(existing, l[|next|], fs)];
            forall k :: 0 <= k < |more| ==> NowAt(fs, l, more, k)
  {
    var more := next + [NextEntry(existing, l[|next|], fs)];
    forall k | 0 <= k < |more| ensures NowAt(fs, l, more, k) {
      if k < |next| { assert NowAt(fs, l, next, k); }
    }
  }

  lemma ReadKeeps(s: System)
    requires Valid(s) && Enabled(s, ReadNext) && !ReadsHot(s)
    ensures Valid(Next(s, ReadNext))
  {
    ReadHonest(s);
    if Calm(s, s.worker.value) && !AnyBegun(s.writes) { ReadNow(s); }
    hide Honest, PhaseNow, NextEntry, Known, Quiet, NoneAnnounced, AnyBegun, WritesGood, Low, HotRead;
  }

  lemma FinishKeeps(s: System)
    requires Valid(s) && Enabled(s, Finish)
    ensures Valid(Next(s, Finish))
  {
    var w := s.worker.value;
    if Calm(s, w) && !AnyBegun(s.writes) { NowIsScan(s.fs, w.phase.listing, w.phase.next); }
    hide Honest, SortedNotes, NowAt, IsScan, Quiet, NoneAnnounced, AnyBegun, WritesGood, Low;
  }

  // ---- The UI thread ----

  lemma {:induction false} WithoutPart(es: seq<Entry>, n: Name)
    ensures forall i :: 0 <= i < |Without(es, n)| ==> Without(es, n)[i] in es
  {
  }

  lemma EditKeeps(s: System, step: Step)
    requires Valid(s) && Enabled(s, step) && (step.Lock? || step.Delete? || step.Leave?)
    ensures Valid(Next(s, step))
  {
    LowNext(s.edits);
    if step.Delete? {
      WithoutPart(s.page.entries, step.name);
      HonestPart(s.page.entries, Without(s.page.entries, step.name), s);
    }
    hide Honest, PhaseNow, NextGen, Low, Without, Quiet, NoneAnnounced, AnyBegun, WritesGood, Marked;
  }

  lemma BuildKeeps(s: System, step: Step)
    requires Valid(s) && Enabled(s, step) && step.Build?
    ensures Valid(Next(s, step))
  {
    LowNext(s.edits);
    BuiltIs(s.page.(open := false), s.index[..step.readable]);
    HonestPart(s.index, s.index[..step.readable], s);
    hide Honest, PhaseNow, NextGen, Low, Built, Quiet, NoneAnnounced, AnyBegun, WritesGood, Marked;
  }

  lemma StartKeeps(s: System, step: Step)
    requires Valid(s) && Enabled(s, step) && step.Start?
    ensures Valid(Next(s, step))
  {
    hide Honest, Low, Quiet, NoneAnnounced, AnyBegun, WritesGood, Marked;
  }

  lemma ArrivedIs(s: System, sig: seq<Entry> -> Uint32, readable: nat)
    requires InPhase(s, false) && readable <= |s.index|
    ensures var p := Arrived(s, sig, readable);
            (!p.running || (s.worker.value.inLine && s.page.running)) &&
            if !Lands(s) then
              p.entries == s.page.entries && p.cacheValid == s.page.cacheValid && p.entriesGen == s.page.entriesGen
            else if Reloads(s, sig, readable) then
              p.entries == s.index[..readable] && p.entriesGen == NextGen(NextGen(s.page.entriesGen))
            else
              p.entries == s.worker.value.phase.entries && p.entriesGen == NextGen(s.page.entriesGen) &&
              (p.cacheValid ==> Low(s.bumps) == Low(s.worker.value.bumps))
  {
    var r, loaded := ResultOf(s.worker.value), s.index[..readable];
    AfterRefreshIs(s.page, r, Low(s.bumps), sig, loaded);
    AfterRefreshIs(s.page.(running := false, detached := false), r, Low(s.bumps), sig, loaded);
    hide Low, NextGen, AfterRefresh;
  }

  lemma DeliverKeeps(s: System, step: Step)
    requires Valid(s) && Enabled(s, step) && step.Deliver?
    ensures Valid(Next(s, step))
  {
    LowNext(s.edits);
    LowNext(s.edits + 1);
    HonestPart(s.index, s.index[..step.readable], s);
    ArrivedIs(s, step.sig, step.readable);
    hide Honest, Low, NextGen, PhaseNow, Quiet, NoneAnnounced, AnyBegun, WritesGood, Marked, CalmNow, EmptyIsSaved,
      Arrived, Lands, Reloads;
  }

  // ---- Restarts ----

  /** The entry says what the note says, stamps aside. */
  predicate Says(e: Entry, f: File) { e == EntryOf(e.filename, f.(stamp := e.mtime)) }

  /** An entry without a stamp whose note has been touched, or is owed a stamp, says what the note says. */
  predicate Settled(s: System) {
    forall i :: 0 <= i < |s.index| ==>
      var e := s.index[i];
      e.mtime == 0 && e.filename in s.fs && (e.filename in s.marks || Owed(s.writes, e.filename)) ==>
        Says(e, s.fs[e.filename])
  }

  lemma RestartKeepsEntry(s: System, dirty: bool, e: Entry)
    requires Marked(s.fs, s.marks, s.stamps) && Honest(e, s.fs, s.marks, s.stamps, s.writes)
    ensures var t := Restarted(s, dirty);
            Honest(e, t.fs, t.marks, t.stamps, t.writes) <==>
            (e.mtime == 0 && e.filename in s.fs && (e.filename in s.marks || Owed(s.writes, e.filename)) ==>
               Says(e, s.fs[e.filename]))
  {
    var t, n := Restarted(s, dirty), e.filename;
    assert Cold(t.writes, n) && !Owed(t.writes, n);
    if n in s.fs { assert t.fs[n] == s.fs[n].(stamp := 0); }
    hide Cold, Owed;
  }

  /** A restart leaves everything in order if and only if the index is settled. */
  lemma RestartKeeps(s: System, dirty: bool)
    requires Valid(s)
    ensures Valid(Restarted(s, dirty)) <==> Settled(s)
    ensures AllHonest(Restarted(s, dirty).index, Restarted(s, dirty)) <==> Settled(s)
  {
    var t := Restarted(s, dirty);
    forall i | 0 <= i < |s.index|
      ensures var e := s.index[i];
              Honest(e, t.fs, t.marks, t.stamps, t.writes) <==>
              (e.mtime == 0 && e.filename in s.fs && (e.filename in s.marks || Owed(s.writes, e.filename)) ==>
                 Says(e, s.fs[e.filename]))
    {
      assert Honest(s.index[i], s.fs, s.marks, s.stamps, s.writes);
      RestartKeepsEntry(s, dirty, s.index[i]);
    }
    hide Honest, Says, Owed;
  }

  /**
   What keeps everything in order, beyond being possible: a write has a plan as the writers' are, no note is read
   under a stamp whose text is still to come, and the device restarts with its index settled.
   */
  ghost predicate Orderly(s: System, step: Step) {
    (step.Open? ==> WellPlanned(step.plan)) && (step.ReadNext? ==> !ReadsHot(s)) && (step.Restart? ==> Settled(s))
  }

  lemma StepKeeps(s: System, step: Step)
    requires Valid(s) && Enabled(s, step) && Orderly(s, step)
    ensures Valid(Next(s, step))
  {
    match step
    case Open(_, _) => OpenKeeps(s, step); hide *;
    case Write(k) => WriteKeeps(s, k); hide *;
    case Wait => WaitKeeps(s); hide *;
    case List(_, _) => ListKeeps(s, step); hide *;
    case ReadNext => ReadKeeps(s); hide *;
    case Finish => FinishKeeps(s); hide *;
    case Start(_) => StartKeeps(s, step); hide *;
    case Deliver(_, _) => DeliverKeeps(s, step); hide *;
    case Lock(_) => EditKeeps(s, step); hide *;
    case Delete(_) => EditKeeps(s, step); hide *;
    case Build(_) => BuildKeeps(s, step); hide *;
    case Leave => EditKeeps(s, step); hide *;
    case Restart(dirty) => RestartKeeps(s, dirty); hide Valid, Settled, ReadsHot, Restarted;
  }

  /** A step that can happen; in a clean run, an orderly one. */
  ghost predicate Takes(s: System, t: System, clean: bool, step: Step) {
    Enabled(s, step) && t == Next(s, step) && (clean ==> Orderly(s, step))
  }

  ghost predicate Follows(s: System, t: System, clean: bool) { exists step :: Takes(s, t, clean, step) }

  ghost predicate IsRun(run: seq<System>, clean: bool) {
    run != [] && forall i :: 0 <= i < |run| - 1 ==> Follows(run[i], run[i + 1], clean)
  }

  /** Before anything has happened: honest lists, no worker, nothing being written. */
  ghost predicate Initial(s: System) {
    s.edits == 0 && s.page.entriesGen == 0 && s.worker.None? && !s.page.running && s.writes == [] &&
    Marked(s.fs, s.marks, s.stamps) && AllHonest(s.page.entries, s) && AllHonest(s.index, s)
  }

  lemma {:induction false} RunKeeps(run: seq<System>, k: nat)
    requires IsRun(run, true) && Initial(run[0]) && k < |run|
    ensures Valid(run[k])
  {
    if k > 0 {
      RunKeeps(run, k - 1);
      hide Valid, Enabled, Next, Initial, Orderly;
      assert Follows(run[k - 1], run[k - 1 + 1], true);
      var step :| Takes(run[k - 1], run[k], true, step);
      StepKeeps(run[k - 1], step);
    } else {
      hide Honest, Marked;
    }
  }

  /** The counters are right in every run, clean or not. */
  lemma StepNumbered(s: System, step: Step)
    requires Numbered(s) && Enabled(s, step)
    ensures Numbered(Next(s, step))
  {
    if step.Deliver? {
      DeliverNumbered(s, step);
      hide *;
    } else if step.Write? {
      WritesAfter(s, step.k);
      hide Next, Enabled, Low;
    } else {
      LowNext(s.edits);
      hide Low, NextGen, Without, Quiet, NextEntry, NextNote, Known, ReadsHot, HotRead, WellPlanned, SortedNotes,
        Announced;
    }
  }

  lemma DeliverNumbered(s: System, step: Step)
    requires Numbered(s) && Enabled(s, step) && step.Deliver?
    ensures Numbered(Next(s, step))
  {
    LowNext(s.edits);
    LowNext(s.edits + 1);
    ArrivedIs(s, step.sig, step.readable);
    hide Low, NextGen, Arrived, Lands, Reloads;
  }

  lemma {:induction false} RunNumbered(run: seq<System>, clean: bool, k: nat)
    requires IsRun(run, clean) && Initial(run[0]) && k < |run|
    ensures Numbered(run[k])
  {
    if k > 0 {
      RunNumbered(run, clean, k - 1);
      hide Numbered, Enabled, Next, Initial, Orderly;
      assert Follows(run[k - 1], run[k - 1 + 1], clean);
      var step :| Takes(run[k - 1], run[k], clean, step);
      StepNumbered(run[k - 1], step);
    } else {
      hide Honest, Marked;
    }
  }

  // ---- What it is worth ----

  lemma SameLow(a: nat, b: nat)
    requires a <= b
    ensures Low(a) == Low(b) <==> (b - a) % WORD == 0
    ensures b - a < WORD ==> (Low(a) == Low(b) <==> a == b)
  {
  }

  /**
   In every clean run, a page that is left with a new list taken for fresh shows a scan of the file system as
   it is at that moment, if no write was announced and unfinished when the scan was started, none has begun
   and is still to bump now, and neither counter has gone once round its 32 bits since.
   */
  lemma FreshIsScan(run: seq<System>, k: nat, sig: seq<Entry> -> Uint32, readable: nat)
    requires IsRun(run, true) && Initial(run[0]) && k < |run| && Enabled(run[k], Deliver(sig, readable))
    requires Lands(run[k]) && Arrived(run[k], sig, readable).cacheValid
    requires run[k].worker.value.quiet && !AnyBegun(run[k].writes)
    requires run[k].bumps - run[k].worker.value.bumps < WORD && run[k].edits - run[k].worker.value.edits < WORD
    ensures IsScan(run[k].fs, Arrived(run[k], sig, readable).entries)
  {
    RunKeeps(run, k);
    var s := run[k];
    ArrivedIs(s, sig, readable);
    hide IsScan, AllHonest, IsRun, Initial, Arrived, Low, Marked, WritesGood, AnyBegun, NoneAnnounced, Quiet;
    SameLow(s.worker.value.bumps, s.bumps);
    SameLow(s.worker.value.edits, s.edits);
  }

  /** A result lands exactly when it is still wanted and the edits since its snapshot are a multiple of 2^32. */
  lemma LandsWhen(run: seq<System>, clean: bool, k: nat, sig: seq<Entry> -> Uint32, readable: nat)
    requires IsRun(run, clean) && Initial(run[0]) && k < |run| && Enabled(run[k], Deliver(sig, readable))
    ensures var s := run[k];
            var w, p := s.worker.value, Arrived(s, sig, readable);
            w.edits <= s.edits &&
            (Lands(s) <==> (w.inLine || !s.page.detached) && (s.edits - w.edits) % WORD == 0) &&
            (!Lands(s) ==> p.entries == s.page.entries && p.cacheValid == s.page.cacheValid)
  {
    RunNumbered(run, clean, k);
    var s := run[k];
    ArrivedIs(s, sig, readable);
    hide IsRun, Initial, Arrived, Low;
    SameLow(s.worker.value.edits, s.edits);
  }

  /** A step that edits the list on the UI thread: a lock that drops it, or a delete. */
  predicate Edits(s: System, t: System) { t.edits > s.edits }

  lemma LockAndDeleteEdit(s: System, step: Step)
    requires Enabled(s, step) && (step == Lock(true) || step.Delete?)
    ensures Edits(s, Next(s, step)) && Next(s, step).worker == s.worker
  {
  }

  /** A worker at t that is not newer than s is the one there was at s, and while it runs no edit is taken back. */
  predicate Onward(s: System, t: System) {
    s.started <= t.started &&
    (t.worker.Some? ==>
       t.worker.value.id >= s.started ||
       (s.worker.Some? && t.worker.value.id == s.worker.value.id && t.worker.value.edits == s.worker.value.edits &&
        s.edits <= t.edits))
  }

  lemma StepOnward(s: System, step: Step)
    requires Enabled(s, step)
    ensures Onward(s, Next(s, step))
  {
    hide Low, NextGen, Without, Arrived, Lands, Reloads, Quiet, Built, Locked;
  }

  lemma OnwardTrans(s: System, t: System, u: System)
    requires Onward(s, t) && Onward(t, u)
    ensures Onward(s, u)
  {
  }

  lemma {:induction false} RunOnward(run: seq<System>, clean: bool, i: nat, k: nat)
    requires IsRun(run, clean) && i <= k < |run|
    ensures Onward(run[i], run[k])
    decreases k
  {
    hide Next, Enabled, Onward;
    if i < k {
      RunOnward(run, clean, i, k - 1);
      assert Follows(run[k - 1], run[k - 1 + 1], clean);
      var step :| Takes(run[k - 1], run[k], clean, step);
      StepOnward(run[k - 1], step);
      OnwardTrans(run[i], run[k - 1], run[k]);
    } else {
      OnwardRefl(run[i]);
    }
  }

  lemma OnwardRefl(s: System)
    ensures Onward(s, s)
  {
  }

  /**
   Whatever happens in between, what a worker read before a delete or a lock never becomes the list after it,
   short of 2^32 edits.
   */
  lemma StaleNeverLands(run: seq<System>, clean: bool, i: nat, k: nat, sig: seq<Entry> -> Uint32, readable: nat)
    requires IsRun(run, clean) && Initial(run[0]) && i < k < |run| && Enabled(run[k], Deliver(sig, readable))
    requires run[i].worker.Some? && run[i].worker.value.id == run[k].worker.value.id && Edits(run[i], run[i + 1])
    requires run[k].edits - run[i].worker.value.edits < WORD
    ensures var s, p := run[k], Arrived(run[k], sig, readable);
            !Lands(s) && p.entries == s.page.entries && p.cacheValid == s.page.cacheValid
  {
    RunNumbered(run, clean, i);
    RunOnward(run, clean, i, k);
    RunOnward(run, clean, i + 1, k);
    LandsWhen(run, clean, k, sig, readable);
    hide IsRun, Initial, Lands, Arrived;
    assert (run[k].edits - run[k].worker.value.edits) % WORD != 0;
  }

  // ---- What the generation does not cover ----

  /**
   Whatever a write does to the files while the generation is still to be raised, the page that a result leaves is
   the same; so if it was a scan before, it is one after exactly when the notes are the same.
   */
  lemma LateWriteIsMissed(s: System, k: nat, sig: seq<Entry> -> Uint32, readable: nat)
    requires Enabled(s, Write(k)) && Enabled(s, Deliver(sig, readable)) && !s.writes[k].plan[s.writes[k].at].Bump?
    requires IsScan(s.fs, Arrived(s, sig, readable).entries)
    ensures var t := Next(s, Write(k));
            Arrived(t, sig, readable) == Arrived(s, sig, readable) &&
            (IsScan(t.fs, Arrived(t, sig, readable).entries) <==> SameNotes(s.fs, t.fs))
  {
    WritesAfter(s, k);
    ScanOfSame(s.fs, Next(s, Write(k)).fs, Arrived(s, sig, readable).entries);
    hide AfterRefresh, Delivered, IsScan, SameNotes, Low, Done;
  }
}
