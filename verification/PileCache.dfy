/**
 The landed pile baked into an image. The cache key is no more than how many slices have landed (and the
 view), yet what is drawn is always the pile of this moment.
 */
module PileCache {
  import opened Areas
  import opened Slices

  /** The slices that lie on the board or the table. */
  function Pile(s: seq<Slice>): seq<Slice> { s[..CountLanded(s)] }

  /** The area a pile measures on screen. */
  type Measure = (seq<Slice>, View) -> Area

  /** None exactly when nothing has landed, and what lands on a pile takes nothing off it. */
  ghost predicate Measures(m: Measure) {
    (forall p: seq<Slice>, v: View :: m(p, v).Empty() <==> p == []) &&
    forall p: seq<Slice>, k: nat, v: View :: k <= |p| ==> m(p, v).Covers(m(p[..k], v))
  }

  /** How a pile changes a pixel that has this colour behind it. */
  type Look = (seq<Slice>, View, int, int, Colour) -> Colour

  /** A pile is drawn inside the area it measures. */
  ghost predicate DrawsInside(look: Look, m: Measure) {
    forall p: seq<Slice>, v: View, x: int, y: int, c: Colour :: !m(p, v).Has(x, y) ==> look(p, v, x, y, c) == c
  }

  /** Outside this area the two piles look the same. */
  ghost predicate SameOutside(look: Look, p: seq<Slice>, q: seq<Slice>, v: View, changed: Area) {
    forall x: int, y: int, c: Colour :: !changed.Has(x, y) ==> look(p, v, x, y, c) == look(q, v, x, y, c)
  }

  /** In one game the pile only grows, so an area that covers the pile there is now covers all that has changed. */
  lemma GrownInside(look: Look, m: Measure, was: seq<Slice>, s: seq<Slice>, v: View, changed: Area)
    requires Measures(m) && DrawsInside(look, m) && InOrder(was) && InOrder(s) && Later(was, s)
    requires changed.Covers(m(Pile(s), v))
    ensures SameOutside(look, Pile(was), Pile(s), v, changed)
  {
    hide InOrder, CountLanded;
    PileGrows(was, s);
    var p, q := Pile(was), Pile(s);
    assert q[..|p|] == p;
    forall x: int, y: int, c: Colour | !changed.Has(x, y) ensures look(p, v, x, y, c) == look(q, v, x, y, c) {
      if m(q, v).Has(x, y) { CoversHas(changed, m(q, v), x, y); }
      if m(p, v).Has(x, y) { CoversHas(m(q, v), m(p, v), x, y); }
    }
  }

  /** The landed slices of a game stay where they are, at the bottom of the pile. */
  lemma PileGrows(was: seq<Slice>, s: seq<Slice>)
    requires InOrder(was) && InOrder(s) && Later(was, s)
    ensures CountLanded(was) <= CountLanded(s) && Pile(was) == Pile(s)[..CountLanded(was)]
  {
    LandedIsPrefix(was);
    LandedIsPrefix(s);
    var n := CountLanded(was);
    forall i | 0 <= i < n ensures Landed(s[i]) && s[i] == was[i] {
      assert Landed(was[i]) && was[i].t <= s[i].t && s[i].t <= 1.0;
    }
    assert n == 0 || Landed(s[n - 1]);
  }

  /** A buffer of one area's size fits the other. */
  predicate SameSize(a: Area, b: Area) { a.x2 - a.x1 == b.x2 - b.x1 && a.y2 - a.y1 == b.y2 - b.y1 }

  /** Which steps of a bake succeed: the buffer, the canvas, and the drawing tasks. */
  datatype Luck = Luck(buf: bool, canvas: bool, tasks: bool)

  class PileImage {
    /** What the buffer shows, if there is one. */
    var buf: seq<seq<Slice>>
    var canvas: bool
    var area: Area
    var landed: int
    var view: View
    var valid: bool
    var failed: bool
    /** The slices of the game when the bake was last tried. */
    ghost var at: seq<Slice>

    /** In a game whose slices are now s. */
    ghost predicate Valid(m: Measure, s: seq<Slice>)
      reads this
    {
      |buf| <= 1 && !(valid && failed) && InOrder(s) &&
      (valid || failed ==> InOrder(at) && Later(at, s) && landed == CountLanded(at)) &&
      (valid ==> if buf == [] then Pile(at) == [] else buf[0] == Pile(at) && area == m(Pile(at), view))
    }

    constructor (m: Measure)
      ensures forall s :: InOrder(s) ==> Valid(m, s)
      ensures !valid && !failed
    {
      buf, canvas, area, landed, view, valid, failed := [], false, NO_AREA, 0, View(0.0, 0.0, 0.0), false, false;
      at := [];
    }

    /** A new game starts from other slices, so nothing kept is good. */
    method NewGame(m: Measure)
      requires |buf| <= 1
      modifies this
      ensures forall s :: InOrder(s) ==> Valid(m, s)
      ensures !valid && !failed
    {
      valid, failed := false, false;
    }

    /** Time passes in the same game. */
    lemma Passes(m: Measure, s: seq<Slice>, s': seq<Slice>)
      requires Valid(m, s) && Later(s, s') && InOrder(s')
      ensures Valid(m, s')
    {
      if valid || failed { LaterTrans(at, s, s'); }
    }

    predicate LayoutIs(s: seq<Slice>, v: View)
      reads this
    {
      landed == CountLanded(s) && view == v
    }

    predicate Ready(s: seq<Slice>, v: View)
      reads this
    {
      valid && LayoutIs(s, v)
    }

    /** A kept pile of this layout is the pile of this moment. */
    lemma ReadyIsCurrent(m: Measure, s: seq<Slice>, v: View)
      requires Valid(m, s) && LayoutIs(s, v) && (valid || failed)
      ensures Pile(at) == Pile(s)
    {
      CountDetermines(at, s);
    }

    /** Draw the baked image when it is ready, else draw the slices themselves. */
    method Draw(m: Measure, s: seq<Slice>, v: View) returns (shown: seq<Slice>)
      requires Valid(m, s)
      ensures shown == Pile(s)
    {
      if !Ready(s, v) { return Pile(s); }
      ReadyIsCurrent(m, s, v);
      return if buf == [] then [] else buf[0];
    }

    /** Free what the bake holds and leave the pile to be drawn live. */
    method GiveUp()
      modifies this`buf, this`failed
      ensures buf == [] && failed
    {
      buf := [];
      failed := true;
    }

    /** Draw the pile into the buffer, which is kept when it has the right size; any step may fail. */
    method Bake(s: seq<Slice>, box: Area, luck: Luck)
      requires |buf| <= 1 && !valid && !failed
      modifies this`buf, this`canvas, this`area, this`valid, this`failed
      ensures valid == !failed && buf == (if valid then [Pile(s)] else [])
      ensures valid ==> area == box
      ensures valid <==>
        luck.tasks && (old(canvas) || luck.canvas) && (luck.buf || (old(buf) != [] && SameSize(old(area), box)))
    {
      hide Pile;
      if buf != [] && !SameSize(area, box) { buf := []; }
      if buf == [] && luck.buf { buf := [[]]; }
      if !canvas && luck.canvas { canvas := true; }
      if buf == [] || !canvas || !luck.tasks {
        GiveUp();
        return;
      }
      buf := [Pile(s)];
      area := box;
      valid := true;
    }

    /**
     Bake again if the pile is not the baked one. Outside the area returned, the pile looks as it did when the
     slices were `was`, at any earlier moment of the game since the last time; nothing is returned, and nothing
     redone, when this pile was baked or given up on already.
     */
    method Update(look: Look, m: Measure, ghost was: seq<Slice>, s: seq<Slice>, v: View, luck: Luck)
      returns (changed: Area)
      requires Measures(m) && DrawsInside(look, m) && Valid(m, was) && Later(was, s) && InOrder(s)
      modifies this
      ensures Valid(m, s) && (valid || failed) && LayoutIs(s, v) && Pile(at) == Pile(s)
      ensures SameOutside(look, Pile(was), Pile(s), v, changed)
      ensures var kept := old(valid || failed) && old(LayoutIs(s, v));
              if kept then changed == NO_AREA && valid == old(valid) && buf == old(buf)
              else changed == Union(if old(valid) && old(buf) != [] then old(area) else NO_AREA, m(Pile(s), v))
      ensures luck == Luck(true, true, true) && !old(failed) ==> valid
    {
      hide InOrder, Later, CountLanded, Landed, Pile, Union, Measures, DrawsInside, SameOutside;
      LaterRefl(s);
      Passes(m, was, s);
      if (valid || failed) && LayoutIs(s, v) {
        ReadyIsCurrent(m, s, v);
        SamePile(look, m, was, s, v);
        return NO_AREA;
      }
      failed := false;
      changed := if valid && buf != [] then area else NO_AREA;
      var box := m(Pile(s), v);
      valid := false;
      landed := CountLandedLoop(s);
      view := v;
      at := s;
      changed := Union(changed, box);
      GrownInside(look, m, was, s, v, changed);
      MeasuresEmpty(m, Pile(s), v);
      if box.Empty() {
        buf := [];
        valid := true;
        return;
      }
      Bake(s, box, luck);
    }

    /** A kept pile of this layout was the pile all along. */
    lemma SamePile(look: Look, m: Measure, was: seq<Slice>, s: seq<Slice>, v: View)
      requires Valid(m, was) && Later(was, s) && InOrder(s) && LayoutIs(s, v) && (valid || failed)
      ensures SameOutside(look, Pile(was), Pile(s), v, NO_AREA)
    {
      hide InOrder, CountLanded;
      PileGrows(at, was);
      PileGrows(was, s);
      assert Pile(was) == Pile(s);
    }
  }

  lemma MeasuresEmpty(m: Measure, p: seq<Slice>, v: View)
    requires Measures(m)
    ensures m(p, v).Empty() <==> p == []
  {
  }
}
