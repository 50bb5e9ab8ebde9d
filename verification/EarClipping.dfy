/** The peeler's outline cut into triangles, ear by ear. */
module EarClipping {
  const PY_MAXP := 96

  datatype Point = Point(u: real, v: real)

  /** Indices into the outline. */
  datatype Triangle = Triangle(a: nat, b: nat, c: nat)

  /** Twice the signed area of the triangle o, a, b. */
  function Cross(o: Point, a: Point, b: Point): real {
    (a.u - o.u) * (b.v - o.v) - (a.v - o.v) * (b.u - o.u)
  }

  function Det(a: Point, b: Point): real { a.u * b.v - a.v * b.u }

  lemma CrossIsDets(o: Point, a: Point, b: Point)
    ensures Cross(o, a, b) == Det(o, a) + Det(a, b) + Det(b, o)
    ensures Det(o, b) == -Det(b, o)
  {
  }

  /** A ring of outline points, by index. */
  ghost predicate Ring(p: seq<Point>, r: seq<nat>) { forall k :: 0 <= k < |r| ==> r[k] < |p| }

  ghost function Path(p: seq<Point>, r: seq<nat>): real
    requires Ring(p, r)
  {
    if |r| < 2 then 0.0 else Path(p, r[..|r| - 1]) + Det(p[r[|r| - 2]], p[r[|r| - 1]])
  }

  /** Twice the signed area of a ring, by the shoelace formula. */
  ghost function Area(p: seq<Point>, r: seq<nat>): real
    requires Ring(p, r)
  {
    if r == [] then 0.0 else Path(p, r) + Det(p[r[|r| - 1]], p[r[0]])
  }

  lemma {:induction false} PathJoin(p: seq<Point>, x: seq<nat>, y: seq<nat>)
    requires Ring(p, x) && Ring(p, y) && x != [] && y != []
    ensures Ring(p, x + y)
    ensures Path(p, x + y) == Path(p, x) + Det(p[x[|x| - 1]], p[y[0]]) + Path(p, y)
  {
    hide Det;
    var n := |y| - 1;
    assert (x + y)[..|x + y| - 1] == x + y[..n];
    if n == 0 {
      assert x + y[..n] == x;
    } else {
      PathJoin(p, x, y[..n]);
    }
  }

  function Prev(m: nat, i: nat): nat
    requires i < m
  {
    (i + m - 1) % m
  }

  function Next(m: nat, i: nat): nat
    requires i < m
  {
    (i + 1) % m
  }

  lemma Around(m: nat, i: nat)
    requires i < m
    ensures Prev(m, i) == (if i == 0 then m - 1 else i - 1) && Next(m, i) == if i == m - 1 then 0 else i + 1
  {
    Wrap(i + m - 1, m);
    Wrap(i + 1, m);
  }

  lemma Wrap(x: nat, m: nat)
    requires m > 0 && x < 2 * m
    ensures x % m == if x < m then x else x - m
  {
    if x >= m {
      assert x / m == 1;
    }
  }

  function Without(r: seq<nat>, i: nat): (w: seq<nat>)
    requires i < |r|
    ensures |w| == |r| - 1
  {
    r[..i] + r[i + 1..]
  }

  function Corner(r: seq<nat>, i: nat): Triangle
    requires i < |r|
  {
    Around(|r|, i);
    Triangle(r[Prev(|r|, i)], r[i], r[Next(|r|, i)])
  }

  predicate On(p: seq<Point>, t: Triangle) { t.a < |p| && t.b < |p| && t.c < |p| }

  function TriArea(p: seq<Point>, t: Triangle): real
    requires On(p, t)
  {
    Cross(p[t.a], p[t.b], p[t.c])
  }

  /** Taking a corner off takes its triangle's area off the ring's. */
  lemma ClipArea(p: seq<Point>, r: seq<nat>, i: nat)
    requires Ring(p, r) && |r| >= 2 && i < |r|
    ensures Ring(p, Without(r, i)) && On(p, Corner(r, i))
    ensures Area(p, r) == Area(p, Without(r, i)) + TriArea(p, Corner(r, i))
  {
    CornerIs(r, i);
    var x, b, y := r[..i], r[i], r[i + 1..];
    assert IsJoint(r, Without(r, i), x, b, y);
    hide Corner, Without, Area, Cross, IsJoint;
    ClipJoint(p, r, Without(r, i), x, b, y);
  }

  /** r with b taken out is w. */
  predicate IsJoint(r: seq<nat>, w: seq<nat>, x: seq<nat>, b: nat, y: seq<nat>) {
    r == x + [b] + y && w == x + y
  }

  lemma CornerIs(r: seq<nat>, i: nat)
    requires i < |r|
    ensures Corner(r, i) ==
      Triangle(if i == 0 then r[|r| - 1] else r[i - 1], r[i], if i == |r| - 1 then r[0] else r[i + 1])
  {
    Around(|r|, i);
    hide Prev, Next;
  }

  lemma ClipJoint(p: seq<Point>, r: seq<nat>, w: seq<nat>, x: seq<nat>, b: nat, y: seq<nat>)
    requires IsJoint(r, w, x, b, y) && Ring(p, r) && |r| >= 2
    ensures Ring(p, w) && Ring(p, x) && Ring(p, y) && b < |p| && x + y != []
    ensures var l := if x == [] then y[|y| - 1] else x[|x| - 1];
            var f := if y == [] then x[0] else y[0];
            Area(p, r) == Area(p, w) + Cross(p[l], p[b], p[f])
  {
    RingParts(p, x, b, y);
    var l := if x == [] then y[|y| - 1] else x[|x| - 1];
    var f := if y == [] then x[0] else y[0];
    CrossIsDets(p[l], p[b], p[f]);
    PathOne(p, b);
    hide Path, Det, Cross;
    if x == [] {
      assert x + [b] + y == [b] + y && x + y == y;
      PathJoin(p, [b], y);
    } else if y == [] {
      assert x + [b] + y == x + [b] && x + y == x;
      PathJoin(p, x, [b]);
    } else {
      PathJoin(p, x, [b]);
      PathJoin(p, x + [b], y);
      PathJoin(p, x, y);
    }
  }

  lemma RingParts(p: seq<Point>, x: seq<nat>, b: nat, y: seq<nat>)
    requires Ring(p, x + [b] + y)
    ensures Ring(p, x) && Ring(p, y) && b < |p|
  {
    var r := x + [b] + y;
    assert r[|x|] == b;
    forall k | 0 <= k < |x| ensures x[k] < |p| {
      assert r[k] == x[k];
    }
    forall k | 0 <= k < |y| ensures y[k] < |p| {
      assert r[|x| + 1 + k] == y[k];
    }
  }

  lemma PathOne(p: seq<Point>, b: nat)
    requires b < |p|
    ensures Path(p, [b]) == 0.0
  {
  }

  // ---- The sign of the outline ----

  function Indices(n: nat): (r: seq<nat>)
    ensures |r| == n && forall k :: 0 <= k < n ==> r[k] == k
  {
    seq(n, k => k)
  }

  ghost function FanTo(p: seq<Point>, o: Point, k: nat): real
    requires k < |p|
  {
    if k == 0 then 0.0 else FanTo(p, o, k - 1) + Cross(o, p[k - 1], p[k])
  }

  /** Measured in a fan from any point, the path only differs by its two ends. */
  lemma {:induction false} FanIsPath(p: seq<Point>, o: Point, k: nat)
    requires k < |p|
    ensures Ring(p, Indices(k + 1))
    ensures FanTo(p, o, k) == Path(p, Indices(k + 1)) + Det(o, p[0]) + Det(p[k], o)
  {
    if k == 0 {
      CrossIsDets(o, o, p[0]);
    } else {
      FanIsPath(p, o, k - 1);
      CrossIsDets(o, p[k - 1], p[k]);
      CrossIsDets(o, o, p[k - 1]);
      assert Indices(k + 1)[..k] == Indices(k);
      hide Det, Cross;
    }
  }

  /** The fan from the first point that the outline's orientation is read from; twice its signed area. */
  method OutlineArea(p: seq<Point>) returns (area: real)
    ensures Ring(p, Indices(|p|)) && area == Area(p, Indices(|p|))
  {
    hide Cross, Path;
    area := 0.0;
    for i := 0 to |p|
      invariant i > 0 && i < |p| ==> area == FanTo(p, p[0], i)
      invariant i == 0 ==> area == 0.0
      invariant i > 0 && i == |p| ==> area == FanTo(p, p[0], |p| - 1) + Cross(p[0], p[|p| - 1], p[0])
    {
      Around(|p|, i);
      area := area + Cross(p[0], p[i], p[Next(|p|, i)]);
    }
    if p != [] {
      FanIsPath(p, p[0], |p| - 1);
      CrossIsDets(p[0], p[|p| - 1], p[0]);
    }
  }

  // ---- Clipping ----

  const FLAT := 0.000001
  const MARGIN := 0.00001

  /** Vertex q lies in the triangle, by more than the margin on every side. */
  predicate Inside(p: seq<Point>, sign: real, t: Triangle, q: nat)
    requires On(p, t) && q < |p|
  {
    Cross(p[t.a], p[t.b], p[q]) * sign > MARGIN &&
    Cross(p[t.b], p[t.c], p[q]) * sign > MARGIN &&
    Cross(p[t.c], p[t.a], p[q]) * sign > MARGIN
  }

  predicate Hinders(p: seq<Point>, sign: real, t: Triangle, q: nat)
    requires On(p, t) && q < |p|
  {
    q != t.a && q != t.b && q != t.c && Inside(p, sign, t, q)
  }

  /** The corner turns the outline's way and holds no other vertex of the ring. */
  ghost predicate Ear(p: seq<Point>, sign: real, r: seq<nat>, i: nat)
    requires Ring(p, r) && i < |r|
  {
    On(p, Corner(r, i)) && TriArea(p, Corner(r, i)) * sign > FLAT &&
    forall k :: 0 <= k < |r| ==> !Hinders(p, sign, Corner(r, i), r[k])
  }

  /** The first ear from position i on, or -1. */
  ghost function FirstEar(p: seq<Point>, sign: real, r: seq<nat>, i: nat): (e: int)
    requires Ring(p, r) && i <= |r|
    ensures e < 0 || (i <= e < |r| && Ear(p, sign, r, e))
    ensures forall k :: i <= k < (if e < 0 then |r| else e) ==> !Ear(p, sign, r, k)
    decreases |r| - i
  {
    if i == |r| then -1 else if Ear(p, sign, r, i) then i else FirstEar(p, sign, r, i + 1)
  }

  /** The ears clipped, and the ring that is left. */
  datatype Clipping = Clipping(tri: seq<Triangle>, rest: seq<nat>)

  ghost function Clip(p: seq<Point>, sign: real, r: seq<nat>): Clipping
    requires Ring(p, r)
    decreases |r|
  {
    if |r| <= 3 then Clipping([], r) else
    var e := FirstEar(p, sign, r, 0);
    if e < 0 then Clipping([], r) else
    var c := Clip(p, sign, Without(r, e));
    Clipping([Corner(r, e)] + c.tri, c.rest)
  }

  ghost predicate AllOn(p: seq<Point>, tri: seq<Triangle>) { forall k :: 0 <= k < |tri| ==> On(p, tri[k]) }

  ghost function Total(p: seq<Point>, tri: seq<Triangle>): real
    requires AllOn(p, tri)
  {
    if tri == [] then 0.0 else TriArea(p, tri[0]) + Total(p, tri[1..])
  }

  lemma ClipEar(p: seq<Point>, sign: real, r: seq<nat>) returns (e: nat)
    requires Ring(p, r) && |r| > 3 && FirstEar(p, sign, r, 0) >= 0
    ensures e == FirstEar(p, sign, r, 0) && e < |r| && Ear(p, sign, r, e) && Ring(p, Without(r, e)) &&
      On(p, Corner(r, e))
    ensures var c := Clip(p, sign, Without(r, e));
            Clip(p, sign, r) == Clipping([Corner(r, e)] + c.tri, c.rest)
  {
    e := FirstEar(p, sign, r, 0);
  }

  /** At every step, and so at the end, the ears and the ring that is left have the area of the outline. */
  lemma {:induction false} AreaConserved(p: seq<Point>, sign: real, r: seq<nat>)
    requires Ring(p, r)
    ensures var c := Clip(p, sign, r);
            AllOn(p, c.tri) && Ring(p, c.rest) && Area(p, r) == Total(p, c.tri) + Area(p, c.rest)
    decreases |r|
  {
    hide Area, FirstEar, Ear;
    if |r| > 3 && FirstEar(p, sign, r, 0) >= 0 {
      var e := ClipEar(p, sign, r);
      var c := Clip(p, sign, Without(r, e));
      ClipArea(p, r, e);
      AreaConserved(p, sign, Without(r, e));
      hide Clip, Corner, Without, TriArea;
      TotalFirst(p, Corner(r, e), c.tri);
    }
  }

  lemma TotalFirst(p: seq<Point>, t: Triangle, tri: seq<Triangle>)
    requires On(p, t) && AllOn(p, tri)
    ensures AllOn(p, [t] + tri) && Total(p, [t] + tri) == TriArea(p, t) + Total(p, tri)
  {
    assert ([t] + tri)[1..] == tri;
  }

  /** Every ear turns the outline's way; one vertex goes with each; clipping stops at three or when no ear is left. */
  lemma {:induction false} EarsTurnAsOutline(p: seq<Point>, sign: real, r: seq<nat>)
    requires Ring(p, r)
    ensures var c := Clip(p, sign, r);
            (forall k :: 0 <= k < |c.tri| ==> On(p, c.tri[k]) && TriArea(p, c.tri[k]) * sign > FLAT) &&
            |c.tri| + |c.rest| == |r| && (|r| >= 3 ==> |c.rest| >= 3) &&
            Ring(p, c.rest) && (|c.rest| > 3 ==> forall i :: 0 <= i < |c.rest| ==> !Ear(p, sign, c.rest, i))
    decreases |r|
  {
    hide TriArea, FirstEar, Corner;
    if |r| > 3 && FirstEar(p, sign, r, 0) >= 0 {
      var e := ClipEar(p, sign, r);
      EarsTurnAsOutline(p, sign, Without(r, e));
      hide Clip;
    }
  }

  /** A triangle is made of vertices that were still there, so no later one has a corner inside an earlier ear. */
  lemma {:induction false} NothingInside(p: seq<Point>, sign: real, r: seq<nat>, i: nat, j: nat)
    requires Ring(p, r) && i < j < |Clip(p, sign, r).tri|
    ensures var c := Clip(p, sign, r);
            On(p, c.tri[i]) && On(p, c.tri[j]) && !Hinders(p, sign, c.tri[i], c.tri[j].a) &&
            !Hinders(p, sign, c.tri[i], c.tri[j].b) && !Hinders(p, sign, c.tri[i], c.tri[j].c)
    decreases |r|
  {
    hide FirstEar, Corner, Without;
    var e := ClipEar(p, sign, r);
    if i > 0 {
      hide Ear, Hinders;
      NothingInside(p, sign, Without(r, e), i - 1, j - 1);
    } else {
      CornersAreThere(p, sign, Without(r, e), j - 1);
      hide Clip;
      var t := Clip(p, sign, Without(r, e)).tri[j - 1];
      StillThere(r, e, t.a);
      StillThere(r, e, t.b);
      StillThere(r, e, t.c);
      hide Hinders;
    }
  }

  lemma StillThere(r: seq<nat>, e: nat, x: nat)
    requires e < |r| && x in Without(r, e)
    ensures x in r
  {
    if k :| 0 <= k < e && r[k] == x {
    } else {
      var k :| 0 <= k < |Without(r, e)| && Without(r, e)[k] == x;
      assert r[k + 1] == x;
    }
  }

  lemma {:induction false} CornersAreThere(p: seq<Point>, sign: real, r: seq<nat>, j: nat)
    requires Ring(p, r) && j < |Clip(p, sign, r).tri|
    ensures var t := Clip(p, sign, r).tri[j];
            On(p, t) && t.a in r && t.b in r && t.c in r
    decreases |r|
  {
    hide FirstEar, Ear, Without, Corner;
    var e := ClipEar(p, sign, r);
    if j == 0 {
      CornerIs(r, e);
    } else {
      CornersAreThere(p, sign, Without(r, e), j - 1);
      var t := Clip(p, sign, Without(r, e)).tri[j - 1];
      StillThere(r, e, t.a);
      StillThere(r, e, t.b);
      StillThere(r, e, t.c);
    }
  }

  // ---- In place ----

  method IsEar(p: seq<Point>, sign: real, idx: array<nat>, m: nat, i: nat) returns (ear: bool)
    requires m <= idx.Length && i < m && Ring(p, idx[..m])
    ensures ear == Ear(p, sign, idx[..m], i)
  {
    hide Inside, TriArea;
    ghost var r := idx[..m];
    var t := Triangle(idx[(i + m - 1) % m], idx[i], idx[(i + 1) % m]);
    Around(m, i);
    assert t == Corner(r, i);
    hide Corner, Prev, Next;
    if TriArea(p, t) * sign <= FLAT { return false; }
    var inside := false;
    var k := 0;
    while k < m && !inside
      invariant 0 <= k <= m
      invariant inside ==> !Ear(p, sign, r, i)
      invariant !inside ==> forall j :: 0 <= j < k ==> !Hinders(p, sign, t, r[j])
    {
      assert idx[k] == r[k];
      if idx[k] != t.a && idx[k] != t.b && idx[k] != t.c { inside := Inside(p, sign, t, idx[k]); }
      k := k + 1;
    }
    ear := !inside;
  }

  /** Clip the first ear, if there is one; the positions after it close up. */
  method ClipOne(p: seq<Point>, sign: real, idx: array<nat>, m: nat) returns (cut: bool, t: Triangle)
    requires 3 < m <= idx.Length && Ring(p, idx[..m])
    modifies idx
    ensures var e := FirstEar(p, sign, old(idx[..m]), 0);
            if cut then e >= 0 && idx[..m - 1] == Without(old(idx[..m]), e) && t == Corner(old(idx[..m]), e)
            else e < 0 && idx[..m] == old(idx[..m])
  {
    cut := false;
    t := Triangle(0, 0, 0);
    ghost var r := idx[..m];
    assert FirstEar(p, sign, r, m) == -1;
    hide Ear, FirstEar, Corner, Without;
    var i := 0;
    while i < m && !cut
      invariant 0 <= i <= m
      invariant !cut ==> idx[..m] == r && FirstEar(p, sign, r, 0) == FirstEar(p, sign, r, i)
      invariant cut ==> i > 0 && FirstEar(p, sign, r, 0) == i - 1
      invariant cut ==> idx[..m - 1] == Without(r, i - 1) && t == Corner(r, i - 1)
    {
      FirstEarAt(p, sign, r, i);
      cut := IsEar(p, sign, idx, m, i);
      if cut {
        CornerAt(idx, m, i);
        t := Triangle(idx[(i + m - 1) % m], idx[i], idx[(i + 1) % m]);
        CloseUp(idx, m, i);
      }
      i := i + 1;
    }
  }

  lemma FirstEarAt(p: seq<Point>, sign: real, r: seq<nat>, i: nat)
    requires Ring(p, r) && i < |r|
    ensures FirstEar(p, sign, r, i) == if Ear(p, sign, r, i) then i else FirstEar(p, sign, r, i + 1)
  {
  }

  lemma CornerAt(idx: array<nat>, m: nat, i: nat)
    requires i < m <= idx.Length
    ensures Corner(idx[..m], i) == Triangle(idx[(i + m - 1) % m], idx[i], idx[(i + 1) % m])
  {
    Around(m, i);
  }

  method CloseUp(idx: array<nat>, m: nat, i: nat)
    requires i < m <= idx.Length
    modifies idx
    ensures idx[..m - 1] == Without(old(idx[..m]), i)
  {
    ghost var r := idx[..m];
    for k := i to m - 1
      invariant idx[..i] == r[..i] && idx[i..k] == r[i + 1..k + 1]
      invariant forall j :: k <= j < m ==> idx[j] == r[j]
    {
      assert idx[k + 1] == r[k + 1];
      idx[k] := idx[k + 1];
    }
    assert idx[..m - 1] == idx[..i] + idx[i..m - 1];
  }

  lemma ClipStops(p: seq<Point>, sign: real, r: seq<nat>)
    requires Ring(p, r)
    ensures |r| <= 3 || FirstEar(p, sign, r, 0) < 0 ==> Clip(p, sign, r) == Clipping([], r)
  {
  }

  lemma Joined(s: seq<Triangle>, t: Triangle, tail: seq<Triangle>)
    ensures s + ([t] + tail) == s + [t] + tail
  {
  }

  /**
   Clip ears until three vertices are left, which make the last triangle. The guard of four rounds a vertex
   never ends the loop: it stops at three, or where no corner of what is left is an ear.
   */
  method Triangulate(p: seq<Point>, sign: real) returns (tri: seq<Triangle>, ghost rest: seq<nat>)
    requires |p| <= PY_MAXP
    ensures var c := Clip(p, sign, Indices(|p|));
            rest == c.rest && tri == c.tri + if |rest| == 3 then [Triangle(rest[0], rest[1], rest[2])] else []
    ensures |tri| <= PY_MAXP
  {
    hide FirstEar, Corner, Without, Ear, Clip;
    var idx := new nat[PY_MAXP](k => k);
    var m, guard := |p|, 0;
    tri := [];
    ghost var all := Clip(p, sign, Indices(|p|));
    assert idx[..m] == Indices(|p|);
    while m > 3 && guard < 4 * PY_MAXP
      invariant m <= |p| && guard == |tri| == |p| - m && Ring(p, idx[..m])
      invariant var c := Clip(p, sign, idx[..m]); all == Clipping(tri + c.tri, c.rest)
    {
      ghost var r := idx[..m];
      var cut, t := ClipOne(p, sign, idx, m);
      if !cut { break; }
      ghost var e := ClipEar(p, sign, r);
      m := m - 1;
      assert idx[..m] == Without(r, e);
      Joined(tri, t, Clip(p, sign, idx[..m]).tri);
      tri := tri + [t];
      guard := guard + 1;
    }
    rest := idx[..m];
    ClipStops(p, sign, rest);
    if m == 3 { tri := tri + [Triangle(idx[0], idx[1], idx[2])]; }
  }

  /** Down to three vertices is a full triangulation: n - 2 triangles, and together the outline's area. */
  lemma FullTriangulation(p: seq<Point>, sign: real)
    requires |p| >= 3
    ensures Ring(p, Indices(|p|))
    ensures var c := Clip(p, sign, Indices(|p|));
            |c.tri| <= |p| - 3 && (|c.rest| == 3 <==> |c.tri| == |p| - 3) &&
            (|c.rest| == 3 ==>
               var tri := c.tri + [Triangle(c.rest[0], c.rest[1], c.rest[2])];
               AllOn(p, tri) && |tri| == |p| - 2 && Total(p, tri) == Area(p, Indices(|p|)))
  {
    var r := Indices(|p|);
    AreaConserved(p, sign, r);
    EarsTurnAsOutline(p, sign, r);
    hide Ear, FirstEar, Clip, Cross;
    var c := Clip(p, sign, r);
    if |c.rest| == 3 {
      TotalLast(p, c.tri, Triangle(c.rest[0], c.rest[1], c.rest[2]));
      ThreeLeft(p, c.rest);
    }
  }

  lemma ThreeLeft(p: seq<Point>, r: seq<nat>)
    requires Ring(p, r) && |r| == 3
    ensures Area(p, r) == Cross(p[r[0]], p[r[1]], p[r[2]])
  {
    CrossIsDets(p[r[0]], p[r[1]], p[r[2]]);
    assert r == [r[0]] + [r[1]] + [r[2]];
    PathJoin(p, [r[0]], [r[1]]);
    PathJoin(p, [r[0]] + [r[1]], [r[2]]);
    hide Cross, Det;
  }

  lemma {:induction false} TotalLast(p: seq<Point>, tri: seq<Triangle>, t: Triangle)
    requires AllOn(p, tri) && On(p, t)
    ensures AllOn(p, tri + [t]) && Total(p, tri + [t]) == Total(p, tri) + TriArea(p, t)
  {
    hide TriArea;
    if tri != [] {
      assert (tri + [t])[1..] == tri[1..] + [t];
      TotalLast(p, tri[1..], t);
    } else {
      assert tri + [t] == [t] && [t][1..] == [];
    }
  }

  // ---- Inside, by weights ----

  /** The point with these weights of a triangle's corners. */
  function Weighted(a: Point, b: Point, c: Point, f: real, g: real, h: real): Point {
    Point(f * a.u + g * b.u + h * c.u, f * a.v + g * b.v + h * c.v)
  }

  /** Which side of an edge such a point is on, and how far, is the weight of the corner across. */
  lemma CrossWeighted(a: Point, b: Point, c: Point, f: real, g: real, h: real)
    requires f + g + h == 1.0
    ensures Cross(a, b, Weighted(a, b, c, f, g, h)) == h * Cross(a, b, c)
  {
    assert f == 1.0 - g - h;
  }

  lemma CrossTurns(a: Point, b: Point, c: Point)
    ensures Cross(a, b, c) == Cross(b, c, a) == Cross(c, a, b)
  {
  }

  function Turned(area: real, sign: real): real { area * sign }

  predicate Above(weight: real, area: real) { weight * area > 0.00001 }

  /** A vertex is inside exactly when all its weights, times the triangle's area, are above the margin. */
  lemma InsideWhen(p: seq<Point>, sign: real, t: Triangle, q: nat, f: real, g: real, h: real)
    requires On(p, t) && q < |p| && f + g + h == 1.0
    requires p[q] == Weighted(p[t.a], p[t.b], p[t.c], f, g, h)
    ensures var d := Turned(TriArea(p, t), sign); Inside(p, sign, t, q) <==> Above(f, d) && Above(g, d) && Above(h, d)
  {
    hide Cross, Weighted, Above, Turned;
    var a, b, c := p[t.a], p[t.b], p[t.c];
    CrossWeighted(a, b, c, f, g, h);
    CrossWeighted(b, c, a, g, h, f);
    CrossWeighted(c, a, b, h, f, g);
    WeightedTurns(a, b, c, f, g, h);
    CrossTurns(a, b, c);
    SideWhen(Cross(a, b, p[q]), h, Cross(a, b, c), sign);
    SideWhen(Cross(b, c, p[q]), f, Cross(a, b, c), sign);
    SideWhen(Cross(c, a, p[q]), g, Cross(a, b, c), sign);
  }

  lemma SideWhen(side: real, weight: real, area: real, sign: real)
    requires side == weight * area
    ensures side * sign > MARGIN <==> Above(weight, Turned(area, sign))
  {
    var d := Turned(area, sign);
    Reordered(side, weight, area, sign, d);
    AboveIs(weight, d);
  }

  lemma Reordered(side: real, weight: real, area: real, sign: real, d: real)
    requires side == weight * area && d == area * sign
    ensures side * sign == weight * d
  {
    TimesBoth(side, weight * area, sign);
    TimesBoth(d, area * sign, weight);
    assert weight * area * sign == weight * (area * sign);
  }

  lemma TimesBoth(x: real, y: real, z: real)
    requires x == y
    ensures x * z == y * z && z * x == z * y
  {
  }

  lemma AboveIs(weight: real, d: real)
    ensures Above(weight, d) <==> weight * d > MARGIN
  {
  }

  lemma WeightedTurns(a: Point, b: Point, c: Point, f: real, g: real, h: real)
    ensures Weighted(a, b, c, f, g, h) == Weighted(b, c, a, g, h, f) == Weighted(c, a, b, h, f, g)
  {
  }
}
