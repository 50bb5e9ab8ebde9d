/** The painter's order of the landed pile: what lies under is drawn first, else what is further away. */
module Painter {
  import opened Slices

  const KX := 0.55

  /** Slice a lies on slice b, not necessarily touching it. */
  predicate RestsOn(a: Slice, b: Slice) {
    !a.tip && !b.tip && a.to.y > b.to.y && Overlap(a.to, b.to)
  }

  /** How near the viewer a landed slice is, along the board. */
  function Depth(s: Slice): real { -KX * s.to.x + s.to.z }

  /** Landed and not drawn yet. */
  predicate Waiting(s: seq<Slice>, drawn: seq<nat>, i: int) {
    0 <= i < |s| && Landed(s[i]) && i !in drawn
  }

  predicate Blocks(s: seq<Slice>, drawn: seq<nat>, i: nat, j: int)
    requires i < |s|
  {
    j != i && Waiting(s, drawn, j) && RestsOn(s[i], s[j])
  }

  /** Nothing that it rests on is still to be drawn. */
  ghost predicate Free(s: seq<Slice>, drawn: seq<nat>, i: int) {
    Waiting(s, drawn, i) && forall j :: 0 <= j < |s| ==> !Blocks(s, drawn, i, j)
  }

  predicate Before(s: seq<Slice>, a: nat, b: nat)
    requires a < |s| && b < |s|
  {
    Depth(s[a]) < Depth(s[b]) || (Depth(s[a]) == Depth(s[b]) && a <= b)
  }

  /** The furthest free slice, the first cut among equals. */
  ghost predicate IsNext(s: seq<Slice>, drawn: seq<nat>, i: int) {
    Free(s, drawn, i) && forall k :: 0 <= k < |s| && Free(s, drawn, k) ==> Before(s, i, k)
  }

  ghost predicate Painted(s: seq<Slice>, order: seq<nat>) {
    forall k :: 0 <= k < |order| ==> IsNext(s, order[..k], order[k])
  }

  ghost predicate Complete(s: seq<Slice>, order: seq<nat>) {
    forall i :: 0 <= i < |s| ==> !Waiting(s, order, i)
  }

  // ---- What the order is worth ----

  /** Resting on strictly climbs, so the lowest waiting slice is free: drawing cannot get stuck. */
  lemma {:induction false} SomeFree(s: seq<Slice>, drawn: seq<nat>, i: nat, n: nat)
    requires Waiting(s, drawn, i)
    requires n <= |s| && forall j :: n <= j < |s| && Waiting(s, drawn, j) ==> s[i].to.y <= s[j].to.y
    ensures exists f :: 0 <= f < |s| && Free(s, drawn, f)
    decreases n
  {
    if n == 0 {
      assert Free(s, drawn, i);
    } else if Waiting(s, drawn, n - 1) && s[n - 1].to.y < s[i].to.y {
      SomeFree(s, drawn, n - 1, n - 1);
    } else {
      SomeFree(s, drawn, i, n - 1);
    }
  }

  /** No slice is drawn twice, none in the air is drawn, and each comes after all that it rests on. */
  lemma PaintedIsTopological(s: seq<Slice>, order: seq<nat>)
    requires Painted(s, order)
    ensures forall k :: 0 <= k < |order| ==> order[k] < |s| && Landed(s[order[k]])
    ensures forall k, m :: 0 <= k < m < |order| ==> order[k] != order[m]
    ensures forall k, i :: 0 <= k < |order| && 0 <= i < |s| && Landed(s[i]) && RestsOn(s[order[k]], s[i]) ==>
      i in order[..k]
  {
    hide RestsOn, Before;
    forall k | 0 <= k < |order| ensures order[k] < |s| && Landed(s[order[k]]) && order[k] !in order[..k] {
      assert IsNext(s, order[..k], order[k]);
    }
    forall k, m | 0 <= k < m < |order| ensures order[k] != order[m] {
      assert order[..m][k] == order[k];
    }
    forall k, i | 0 <= k < |order| && 0 <= i < |s| && Landed(s[i]) && RestsOn(s[order[k]], s[i])
      ensures i in order[..k] {
      assert IsNext(s, order[..k], order[k]);
      NotOnItself(s[i]);
      assert !Blocks(s, order[..k], order[k], i);
    }
  }

  lemma NotOnItself(a: Slice)
    ensures !RestsOn(a, a)
  {
  }

  /** The order is a function of the slices. */
  lemma {:induction false} OneOrder(s: seq<Slice>, a: seq<nat>, b: seq<nat>)
    requires Painted(s, a) && Painted(s, b) && |a| <= |b|
    ensures a == b[..|a|]
  {
    if a != [] {
      var n := |a| - 1;
      assert forall k :: 0 <= k < n ==> a[..n][..k] == a[..k];
      OneOrder(s, a[..n], b);
      assert a[..n] == b[..n];
      assert IsNext(s, a[..n], a[n]) && IsNext(s, b[..n], b[n]);
      assert Before(s, a[n], b[n]) && Before(s, b[n], a[n]);
      assert b[..|a|] == b[..n] + [b[n]];
    }
  }

  /** Slices lie on the board in cut order, so those that overlap are drawn in cut order. */
  lemma PileDrawnUpward(s: seq<Slice>, order: seq<nat>, i: nat, j: nat)
    requires Stacked(s) && Painted(s, order) && Complete(s, order)
    requires i < j < |s| && Landed(s[i]) && Landed(s[j]) && OnBoard(s[i]) && OnBoard(s[j]) && Overlap(s[j].to, s[i].to)
    ensures exists k, m :: 0 <= k < m < |order| && order[k] == i && order[m] == j
  {
    PaintedIsTopological(s, order);
    assert !Waiting(s, order, j);
    var m :| 0 <= m < |order| && order[m] == j;
    assert RestsOn(s[j], s[i]);
    assert i in order[..m];
    var k :| 0 <= k < m && order[..m][k] == i;
    assert order[k] == i;
  }

  lemma {:induction false} NoMoreThan(order: seq<nat>, n: nat)
    requires forall k :: 0 <= k < |order| ==> order[k] < n
    requires forall k, m :: 0 <= k < m < |order| ==> order[k] != order[m]
    ensures |order| <= n
  {
    if order != [] {
      assert order[0] < n;
      if k :| 0 <= k < |order| && order[k] == n - 1 {
        NoMoreThan(order[..k] + order[k + 1..], n - 1);
      } else {
        NoMoreThan(order, n - 1);
      }
    }
  }

  // ---- The drawing loop ----

  /** The slice to draw next, or -1. */
  method Best(s: seq<Slice>, placed: array<bool>, ghost drawn: seq<nat>) returns (best: int)
    requires placed.Length == |s| && forall i :: 0 <= i < |s| ==> (placed[i] <==> i in drawn)
    ensures if best < 0 then forall i :: 0 <= i < |s| ==> !Free(s, drawn, i) else IsNext(s, drawn, best)
  {
    hide RestsOn, Depth, Landed;
    best := -1;
    for i := 0 to |s|
      invariant best < i
      invariant best < 0 ==> forall k :: 0 <= k < i ==> !Free(s, drawn, k)
      invariant best >= 0 ==> Free(s, drawn, best) && forall k :: 0 <= k < i && Free(s, drawn, k) ==> Before(s, best, k)
    {
      if placed[i] || !Landed(s[i]) { continue; }
      var blocked := false;
      var j := 0;
      while j < |s| && !blocked
        invariant 0 <= j <= |s|
        invariant blocked ==> !Free(s, drawn, i)
        invariant !blocked ==> forall k :: 0 <= k < j ==> !Blocks(s, drawn, i, k)
      {
        blocked := j != i && !placed[j] && Landed(s[j]) && RestsOn(s[i], s[j]);
        assert blocked == Blocks(s, drawn, i, j);
        j := j + 1;
      }
      if !blocked && (best < 0 || Depth(s[i]) < Depth(s[best])) { best := i; }
    }
  }

  /**
   Draw the landed slices, stopping early when there is no room left for another one's tasks.
   What was drawn is the start of the one painter's order; all of it, unless the room ran out.
   */
  method DrawLanded(s: seq<Slice>, room: nat) returns (order: seq<nat>, ok: bool)
    ensures Painted(s, order)
    ensures ok ==> Complete(s, order) && |order| <= room
    ensures !ok ==> |order| == room < |s| && !Complete(s, order)
  {
    hide RestsOn, Depth, Landed, Before;
    var placed := new bool[|s|](_ => false);
    order := [];
    while true
      invariant Painted(s, order) && |order| <= room
      invariant forall i :: 0 <= i < |s| ==> (placed[i] <==> i in order)
      decreases room - |order|
    {
      var best := Best(s, placed, order);
      if best < 0 { break; }
      if |order| == room {
        assert Waiting(s, order, best);
        PaintedNext(s, order, best);
        PaintedIsTopological(s, order + [best]);
        NoMoreThan(order + [best], |s|);
        return order, false;
      }
      placed[best] := true;
      PaintedNext(s, order, best);
      order := order + [best];
    }
    forall i | 0 <= i < |s| ensures !Waiting(s, order, i) {
      if Waiting(s, order, i) { SomeFree(s, order, i, |s|); }
    }
    ok := true;
  }

  lemma PaintedNext(s: seq<Slice>, order: seq<nat>, next: nat)
    requires Painted(s, order) && IsNext(s, order, next)
    ensures Painted(s, order + [next])
  {
    var longer := order + [next];
    forall k | 0 <= k < |longer| ensures IsNext(s, longer[..k], longer[k]) {
      assert longer[..k] == order[..k];
      if k == |order| { assert order[..k] == order; }
    }
  }

  /** The board is seen from the front, from the left and from above: a slice further along the view comes later. */
  lemma NearerIsLater(s: seq<Slice>, drawn: seq<nat>, a: nat, b: nat, t: real)
    requires a < |s| && b < |s| && t > 0.0
    requires s[b].to == Point(s[a].to.x - 0.55 * t, s[a].to.y + 0.3 * t, s[a].to.z + t)
    ensures Depth(s[a]) < Depth(s[b])
    ensures Free(s, drawn, a) ==> !IsNext(s, drawn, b)
  {
    assert Depth(s[b]) - Depth(s[a]) == t * 1.3025;
    hide Free;
  }
}
