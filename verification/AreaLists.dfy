/** The frame's list of areas to redraw: at most eight, and those that nearly touch are merged. */
module AreaLists {
  import opened Areas
  import opened Integers

  const CAPACITY := 8

  /** Some area of the list has the point. */
  predicate Shown(a: seq<Area>, x: int, y: int) { exists i :: 0 <= i < |a| && a[i].Has(x, y) }

  /** Worth merging: the union is at most 1.3 times the two sizes together. */
  predicate Mergeable(a: Area, b: Area) { Union(a, b).Size() * 10 <= (a.Size() + b.Size()) * 13 }

  function Pixel(x: int, y: int): Area { Area(x, y, x, y) }

  /** Two pixels are worth merging when they are the same or side by side, and not across a corner. */
  lemma PixelsMerge(x: int, y: int, x': int, y': int)
    ensures Mergeable(Pixel(x, y), Pixel(x', y')) <==>
            (x == x' && y - 1 <= y' <= y + 1) || (y == y' && x - 1 <= x' <= x + 1)
  {
    var w, h := (if x < x' then x' - x else x - x') + 1, (if y < y' then y' - y else y - y') + 1;
    assert Union(Pixel(x, y), Pixel(x', y')).Size() == w * h;
    if w >= 2 && h >= 2 {
      MulMono(2, w, h);
    } else if w == 1 {
      assert w * h == h;
    } else {
      assert w * h == w;
    }
  }

  /** What a merge shows beyond the two areas is at most three tenths of their sizes. */
  lemma MergeWastesLittle(a: Area, b: Area)
    ensures Mergeable(a, b) <==>
            Union(a, b).Size() as real - (a.Size() + b.Size()) as real <= 0.3 * (a.Size() + b.Size()) as real
  {
  }

  /** All of a list lies in w. */
  predicate AllIn(a: seq<Area>, w: Area) { forall i :: 0 <= i < |a| ==> w.Covers(a[i]) }

  /** Area j goes into area i, and the last area takes its place. */
  function Joined(a: seq<Area>, i: nat, j: nat): seq<Area>
    requires i < j < |a|
  {
    a[i := Union(a[i], a[j])][j := a[|a| - 1]][..|a| - 1]
  }

  /** Area j is the first later one worth merging with area i. */
  predicate FirstPartner(a: seq<Area>, i: nat, j: nat) {
    i < j < |a| && Mergeable(a[i], a[j]) && forall k :: i < k < j ==> !Mergeable(a[i], a[k])
  }

  class AreaList {
    var a: seq<Area>

    ghost predicate Valid()
      reads this
    {
      |a| <= CAPACITY && forall i :: 0 <= i < |a| ==> !a[i].Empty()
    }

    constructor ()
      ensures Valid() && a == []
    {
      a := [];
    }

    /** Nothing is lost, even past the capacity. */
    method Add(r: Area)
      requires Valid()
      modifies this
      ensures Valid()
      ensures forall x, y :: Shown(old(a), x, y) || r.Has(x, y) ==> Shown(a, x, y)
      ensures forall w: Area :: AllIn(old(a), w) && w.Covers(r) ==> AllIn(a, w)
      ensures r.Empty() ==> a == old(a)
      ensures !r.Empty() && |old(a)| < CAPACITY ==> a == old(a) + [r]
      ensures !r.Empty() && |old(a)| == CAPACITY ==> a == old(a)[CAPACITY - 1 := Union(old(a)[CAPACITY - 1], r)]
    {
      if r.Empty() { return; }
      UnionInside(a, r);
      if |a| == CAPACITY {
        Replaced(a, CAPACITY - 1, Union(a[CAPACITY - 1], r));
        a := a[CAPACITY - 1 := Union(a[CAPACITY - 1], r)];
        assert a[CAPACITY - 1].Covers(r);
        return;
      }
      Longer(a, r);
      a := a + [r];
    }

    /**
     Merge until no two areas are worth merging, then hand all of them over for redrawing.
     Every point that was in the list is in what is handed over, which is no larger than what covers all
     of the list; without a merge it is the list.
     */
    method Flush() returns (out: seq<Area>)
      requires Valid()
      modifies this
      ensures Valid() && a == []
      ensures |out| <= |old(a)| && forall i :: 0 <= i < |out| ==> !out[i].Empty()
      ensures forall x, y :: Shown(old(a), x, y) ==> Shown(out, x, y)
      ensures forall i, j :: 0 <= i < j < |out| ==> !Mergeable(out[i], out[j])
      ensures forall w: Area :: AllIn(old(a), w) ==> AllIn(out, w)
      ensures |out| == |old(a)| ==> out == old(a)
      ensures |out| < |old(a)| ==> exists i, j :: FirstPartner(old(a), i, j)
    {
      hide Shown, Mergeable, AllIn, FirstPartner;
      var again := true;
      while again
        invariant Valid() && |a| <= |old(a)|
        invariant forall x, y :: Shown(old(a), x, y) ==> Shown(a, x, y)
        invariant forall w: Area :: AllIn(old(a), w) ==> AllIn(a, w)
        invariant if |a| == |old(a)| then a == old(a) else exists i, j :: FirstPartner(old(a), i, j)
        invariant again || forall k, m :: 0 <= k < m < |a| ==> !Mergeable(a[k], a[m])
        decreases |a|, again
      {
        again := false;
        ghost var n := |a|;
        var i := 0;
        while i < |a| && !again
          invariant 0 <= i <= n && Valid() && |a| <= n
          invariant again ==> |a| == n - 1
          invariant !again ==> |a| == n
          invariant forall x, y :: Shown(old(a), x, y) ==> Shown(a, x, y)
          invariant forall w: Area :: AllIn(old(a), w) ==> AllIn(a, w)
          invariant if |a| == |old(a)| then a == old(a) else exists i, j :: FirstPartner(old(a), i, j)
          invariant again || forall k, m :: 0 <= k < m < |a| && k < i ==> !Mergeable(a[k], a[m])
          decreases n - i
        {
          again := MergeFrom(i);
          i := i + 1;
        }
      }
      out := a;
      a := [];
    }

    /** Merge a[i] with the first later area worth it; the last area takes the freed place. */
    method MergeFrom(i: nat) returns (merged: bool)
      requires Valid() && i < |a|
      modifies this
      ensures Valid()
      ensures merged ==> exists j :: FirstPartner(old(a), i, j) && a == Joined(old(a), i, j)
      ensures merged ==> |a| == |old(a)| - 1
      ensures !merged ==> a == old(a) && forall j :: i < j < |a| ==> !Mergeable(a[i], a[j])
      ensures forall x, y :: Shown(old(a), x, y) ==> Shown(a, x, y)
      ensures forall w: Area :: AllIn(old(a), w) ==> AllIn(a, w)
    {
      hide Mergeable, Shown, AllIn;
      merged := false;
      var j := i + 1;
      while j < |a| && !merged
        invariant i < j && Valid()
        invariant merged ==> FirstPartner(old(a), i, j - 1) && a == Joined(old(a), i, j - 1)
        invariant merged ==> |a| == |old(a)| - 1
        invariant forall w: Area :: AllIn(old(a), w) ==> AllIn(a, w)
        invariant !merged ==> j <= |a| && a == old(a) && forall k :: i < k < j ==> !Mergeable(a[i], a[k])
        invariant forall x, y :: Shown(old(a), x, y) ==> Shown(a, x, y)
        decreases |old(a)| - j
      {
        var u := Union(a[i], a[j]);
        if Mergeable(a[i], a[j]) {
          Merged(a, i, j);
          JoinedInside(a, i, j);
          var last := a[|a| - 1];
          a := a[i := u][j := last];
          a := a[..|a| - 1];
          merged := true;
        }
        j := j + 1;
      }
    }
  }

  lemma UnionInside(a: seq<Area>, r: Area)
    ensures forall w: Area :: AllIn(a, w) && w.Covers(r) ==> AllIn(a + [r], w)
    ensures forall w: Area, k: nat :: k < |a| && AllIn(a, w) && w.Covers(r) ==> AllIn(a[k := Union(a[k], r)], w)
  {
  }

  lemma JoinedInside(a: seq<Area>, i: nat, j: nat)
    requires i < j < |a|
    ensures forall w: Area :: AllIn(a, w) ==> AllIn(Joined(a, i, j), w)
  {
  }

  lemma Longer(a: seq<Area>, r: Area)
    ensures forall x, y :: Shown(a, x, y) || r.Has(x, y) ==> Shown(a + [r], x, y)
  {
    forall x, y | Shown(a, x, y) || r.Has(x, y) ensures Shown(a + [r], x, y) {
      if Shown(a, x, y) {
        var i :| 0 <= i < |a| && a[i].Has(x, y);
        assert (a + [r])[i].Has(x, y);
      } else {
        assert (a + [r])[|a|].Has(x, y);
      }
    }
  }

  lemma Replaced(a: seq<Area>, k: nat, u: Area)
    requires k < |a| && u.Covers(a[k])
    ensures forall x, y :: Shown(a, x, y) || u.Has(x, y) ==> Shown(a[k := u], x, y)
  {
    forall x, y | Shown(a, x, y) || u.Has(x, y) ensures Shown(a[k := u], x, y) {
      if Shown(a, x, y) {
        var i :| 0 <= i < |a| && a[i].Has(x, y);
        if i == k { CoversHas(u, a[k], x, y); }
        assert a[k := u][i].Has(x, y);
      } else {
        assert a[k := u][k].Has(x, y);
      }
    }
  }

  lemma Merged(a: seq<Area>, i: nat, j: nat)
    requires i < j < |a|
    ensures forall x, y :: Shown(a, x, y) ==> Shown(Joined(a, i, j), x, y)
  {
    var u := Union(a[i], a[j]);
    var b := a[i := u][j := a[|a| - 1]][..|a| - 1];
    forall x, y | Shown(a, x, y) ensures Shown(b, x, y) {
      var k :| 0 <= k < |a| && a[k].Has(x, y);
      if k == i || k == j {
        CoversHas(u, a[k], x, y);
        assert b[i].Has(x, y);
      } else if k == |a| - 1 {
        assert b[j].Has(x, y);
      } else {
        assert b[k].Has(x, y);
      }
    }
  }
}
