/**
 How notes are written, as the journal's scan sees it: in steps, and every writer in an order of its own. A
 write changes files, gives names new stamps, and bumps the file system's generation.
 */
module NoteWriters {
  import opened Bytes
  import opened JournalIndex
  import opened JournalRefresh

  datatype Event =
    | Bump
    | Touch(name: Name)
    | Put(name: Name, snippet: seq<byte>, truncated: bool)
    | Remove(name: Name)
    | Move(from: Name, to: Name)

  predicate IsTouch(e: Event, n: Name) { e.Touch? && e.name == n }

  /** The event gives the name a file. */
  predicate Fills(e: Event, n: Name) { (e.Put? && e.name == n) || (e.Move? && e.to == n) }

  predicate Alters(e: Event, n: Name) {
    Fills(e, n) || (e.Remove? && e.name == n) || (e.Move? && e.from == n)
  }

  // ---- The orders there are ----

  /** Saving in line: the bump and the stamp come before the text. */
  function SavePlan(n: Name, snippet: seq<byte>, truncated: bool): seq<Event> {
    [Bump, Touch(n), Put(n, snippet, truncated)]
  }

  /** Saving in the background: bumped when it is queued, and again when it is carried out. */
  function QueuedSavePlan(n: Name, snippet: seq<byte>, truncated: bool): seq<Event> {
    [Bump, Bump, Touch(n), Put(n, snippet, truncated)]
  }

  function DeletePlan(n: Name): seq<Event> { [Bump, Touch(n), Remove(n)] }

  /** Deleting whole paths gives no stamps. */
  function DeletePathPlan(names: seq<Name>): seq<Event> {
    [Bump] + seq(|names|, i requires 0 <= i < |names| => Remove(names[i]))
  }

  /** Writing over the link: the finished file takes the old one's place, then the stamp, and the bump last. */
  function LinkWritePlan(n: Name, snippet: seq<byte>, truncated: bool): seq<Event> {
    [Remove(n), Put(n, snippet, truncated), Touch(n), Bump]
  }

  function LinkDeletePlan(n: Name): seq<Event> { [Remove(n), Touch(n), Bump] }

  function LinkRenamePlan(from: Name, to: Name): seq<Event> { [Move(from, to), Touch(from), Touch(to), Bump] }

  /**
   What they have in common: there is a bump; a name that gets a file gets a stamp, before it or after it; and
   a stamp that comes after the change it is for is followed by a bump.
   */
  ghost predicate WellPlanned(plan: seq<Event>) {
    (exists j :: 0 <= j < |plan| && plan[j].Bump?) &&
    (forall i, n :: 0 <= i < |plan| && Fills(plan[i], n) ==> exists j :: 0 <= j < |plan| && IsTouch(plan[j], n)) &&
    forall i, j, n :: 0 <= i < j < |plan| && Alters(plan[i], n) && IsTouch(plan[j], n) ==>
      exists k :: j < k < |plan| && plan[k].Bump?
  }

  /** The bump is the first thing, and a name is stamped before its file is changed. */
  ghost predicate Early(plan: seq<Event>) {
    plan != [] && plan[0].Bump? &&
    forall i, j, n :: 0 <= i < |plan| && 0 <= j < |plan| && IsTouch(plan[i], n) && Alters(plan[j], n) ==> i < j
  }

  /** The other way round: the one bump is the last thing. */
  ghost predicate Late(plan: seq<Event>) {
    (forall i :: 0 <= i < |plan| ==> (plan[i].Bump? <==> i == |plan| - 1)) &&
    forall i, j, n :: 0 <= i < |plan| && 0 <= j < |plan| && IsTouch(plan[i], n) && Alters(plan[j], n) ==> j < i
  }

  lemma WhenPlansBump(n: Name, snippet: seq<byte>, truncated: bool, names: seq<Name>, to: Name)
    ensures Early(SavePlan(n, snippet, truncated)) && Early(QueuedSavePlan(n, snippet, truncated))
    ensures Early(DeletePlan(n)) && Early(DeletePathPlan(names))
    ensures Late(LinkWritePlan(n, snippet, truncated)) && Late(LinkDeletePlan(n)) && Late(LinkRenamePlan(n, to))
  {
    var d := DeletePathPlan(names);
    assert forall j :: 0 <= j < |d| ==> !d[j].Touch?;
  }

  lemma EarlyPlansAreWell(n: Name, snippet: seq<byte>, truncated: bool, names: seq<Name>)
    ensures WellPlanned(SavePlan(n, snippet, truncated)) && WellPlanned(QueuedSavePlan(n, snippet, truncated))
    ensures WellPlanned(DeletePlan(n)) && WellPlanned(DeletePathPlan(names))
  {
    var a, b := SavePlan(n, snippet, truncated), QueuedSavePlan(n, snippet, truncated);
    var c, d := DeletePlan(n), DeletePathPlan(names);
    assert a[0].Bump? && IsTouch(a[1], n);
    assert b[0].Bump? && IsTouch(b[2], n);
    assert c[0].Bump?;
    assert d[0].Bump?;
    assert forall j :: 0 <= j < |d| ==> !d[j].Touch? && !d[j].Put? && !d[j].Move?;
  }

  /** So are those that fail on the way: what is left of them has bumped and stamped. */
  lemma FailedEarlyPlansAreWell(n: Name, snippet: seq<byte>, truncated: bool, names: seq<Name>, k: nat)
    requires 0 < k <= |DeletePathPlan(names)|
    ensures WellPlanned(SavePlan(n, snippet, truncated)[..2]) && WellPlanned(QueuedSavePlan(n, snippet, truncated)[..3])
    ensures WellPlanned(DeletePlan(n)[..2]) && WellPlanned(DeletePathPlan(names)[..k])
  {
    var a, b := SavePlan(n, snippet, truncated)[..2], QueuedSavePlan(n, snippet, truncated)[..3];
    var c, d := DeletePlan(n)[..2], DeletePathPlan(names)[..k];
    assert a[0].Bump? && b[0].Bump? && c[0].Bump? && d[0].Bump?;
    assert forall j :: 0 <= j < |d| ==> !d[j].Touch? && !d[j].Put? && !d[j].Move?;
  }

  lemma LinkPlansAreWell(n: Name, snippet: seq<byte>, truncated: bool, to: Name)
    ensures WellPlanned(LinkWritePlan(n, snippet, truncated)) && WellPlanned(LinkDeletePlan(n))
    ensures WellPlanned(LinkRenamePlan(n, to))
  {
    var a, b, c := LinkWritePlan(n, snippet, truncated), LinkDeletePlan(n), LinkRenamePlan(n, to);
    assert a[3].Bump? && IsTouch(a[2], n);
    assert b[2].Bump?;
    assert c[3].Bump? && IsTouch(c[2], to);
  }

  /** A link write that removed the old file and could not put the new one there leaves it at that, without a bump. */
  lemma FailedLinkWriteIsNot(n: Name)
    ensures !WellPlanned(LinkWritePlan(n, [], false)[..1])
  {
  }

  // ---- A write part of the way through ----

  /** The first `at` events are done. A gated write is one that readers of its note wait for. */
  datatype Writing = Writing(plan: seq<Event>, at: nat, gated: bool)

  ghost predicate Good(w: Writing) { w.at <= |w.plan| && WellPlanned(w.plan) }

  predicate TouchesAfter(w: Writing, n: Name) { exists j :: w.at <= j < |w.plan| && IsTouch(w.plan[j], n) }

  predicate FillsAfter(w: Writing, n: Name) { exists j :: w.at <= j < |w.plan| && Fills(w.plan[j], n) }

  predicate BumpsAfter(w: Writing) { exists j :: w.at <= j < |w.plan| && w.plan[j].Bump? }

  predicate WorksAfter(w: Writing) { exists j :: w.at <= j < |w.plan| && !w.plan[j].Bump? }

  predicate WorksBefore(w: Writing) { exists j :: 0 <= j < w.at && j < |w.plan| && !w.plan[j].Bump? }

  predicate AltersBefore(w: Writing, n: Name) { exists j :: 0 <= j < w.at && j < |w.plan| && Alters(w.plan[j], n) }

  /** Stamped, and its text still to come. */
  predicate Hot(w: Writing, n: Name) { FillsAfter(w, n) && !TouchesAfter(w, n) }

  /** Changed, and its stamp still to come. */
  predicate Owes(w: Writing, n: Name) { AltersBefore(w, n) && TouchesAfter(w, n) }

  /** All its bumps are past and its work is not done. */
  predicate Announced(w: Writing) { WorksAfter(w) && !BumpsAfter(w) }

  /** Its work has begun and a bump is still to come. */
  predicate Begun(w: Writing) { WorksBefore(w) && BumpsAfter(w) }

  function Advanced(w: Writing): Writing { w.(at := w.at + 1) }

  lemma AdvancedAt(w: Writing, n: Name)
    requires w.at < |w.plan|
    ensures var e, v := w.plan[w.at], Advanced(w);
            (!IsTouch(e, n) ==> (TouchesAfter(v, n) <==> TouchesAfter(w, n))) &&
            (!Fills(e, n) ==> (FillsAfter(v, n) <==> FillsAfter(w, n))) && (Fills(e, n) ==> FillsAfter(w, n)) &&
            (AltersBefore(w, n) ==> AltersBefore(v, n)) && (Alters(e, n) ==> AltersBefore(v, n)) &&
            (!Alters(e, n) ==> (AltersBefore(v, n) <==> AltersBefore(w, n)))
  {
    hide IsTouch, Fills, Alters;
    var v := Advanced(w);
    assert v.plan == w.plan;
    if TouchesAfter(w, n) {
      var j :| w.at <= j < |w.plan| && IsTouch(w.plan[j], n);
      assert IsTouch(v.plan[j], n);
    }
    if FillsAfter(w, n) {
      var j :| w.at <= j < |w.plan| && Fills(w.plan[j], n);
      assert Fills(v.plan[j], n);
    }
  }

  lemma AdvancedWork(w: Writing)
    requires w.at < |w.plan|
    ensures var e, v := w.plan[w.at], Advanced(w);
            (BumpsAfter(v) ==> BumpsAfter(w)) && (!e.Bump? ==> (BumpsAfter(v) <==> BumpsAfter(w))) &&
            (WorksAfter(v) ==> WorksAfter(w)) && (!e.Bump? ==> WorksAfter(w) && WorksBefore(v)) &&
            (WorksBefore(w) ==> WorksBefore(v))
  {
    var v := Advanced(w);
    assert v.plan == w.plan;
    assert w.plan[w.at].Bump? || !w.plan[w.at].Bump?;
  }

  /** A write that owes a stamp has begun and is still to bump. */
  lemma OwesIsBegun(w: Writing, n: Name)
    requires Good(w) && Owes(w, n)
    ensures Begun(w)
  {
    var i :| 0 <= i < w.at && i < |w.plan| && Alters(w.plan[i], n);
    var j :| w.at <= j < |w.plan| && IsTouch(w.plan[j], n);
    var k :| j < k < |w.plan| && w.plan[k].Bump?;
    assert !w.plan[i].Bump?;
  }

  /** A new write is neither hot nor announced. */
  lemma NewIsCold(w: Writing, n: Name)
    requires Good(w) && w.at == 0
    ensures !Hot(w, n) && !Announced(w) && !Begun(w)
  {
    if FillsAfter(w, n) {
      var i :| 0 <= i < |w.plan| && Fills(w.plan[i], n);
      var j :| 0 <= j < |w.plan| && IsTouch(w.plan[j], n);
    }
    var j :| 0 <= j < |w.plan| && w.plan[j].Bump?;
  }
}
