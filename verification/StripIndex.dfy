/**
 The potato image: ray-cast once per spin, then recoloured strip by strip through an index of
 the pixels that look at each strip. The image must always be the one a full cast would give.
 Offsets count pixels, and rows are as long as the image is wide.
 */
module StripIndex {
  import opened Areas
  import opened Integers

  const STRIPS := 16
  const EDGE := 0.045

  type Pixel = int

  /** A cached pixel: where it is, its height on the potato, its three colours, and the strips around it. */
  datatype Px = Px(off: nat, uy: real, flesh: Pixel, skin: Pixel, rim: Pixel, s0: nat, s1: nat) {
    predicate Ok() { s0 < 256 && s1 < 256 }

    function Own(): nat { s0 % 16 }

    function Above(): nat { s0 / 16 }

    function Right(): nat { s1 % 16 }

    function Left(): nat { s1 / 16 }

    predicate Sees(k: nat) { k == Own() || k == Above() || k == Right() || k == Left() }
  }

  type Peel = s: seq<real> | |s| == STRIPS witness seq(16, _ => 0.0)

  /** The look of a pixel under a peel state. */
  function Pick(p: Px, pc: Peel): Pixel
    requires p.Ok()
  {
    if p.uy > pc[p.Own()] then p.flesh
    else if p.uy + EDGE > pc[p.Above()] || p.uy > pc[p.Right()] || p.uy > pc[p.Left()] then p.rim
    else p.skin
  }

  /** Only the strips a pixel sees can change its look. */
  lemma PickIsLocal(p: Px, pc: Peel, pc': Peel)
    requires p.Ok() && forall k: nat | k < STRIPS && p.Sees(k) :: pc[k] == pc'[k]
    ensures Pick(p, pc) == Pick(p, pc')
  {
    assert p.Sees(p.Own()) && p.Sees(p.Above()) && p.Sees(p.Right()) && p.Sees(p.Left());
  }

  /** The distinct strips a pixel sees, one to four of them. */
  method PxStrips(p: Px) returns (out: seq<nat>)
    requires p.Ok()
    ensures 1 <= |out| <= 4
    ensures forall k :: k in out <==> p.Sees(k)
    ensures forall i, j :: 0 <= i < j < |out| ==> out[i] != out[j]
    ensures forall k :: k in out ==> k < STRIPS
  {
    var all := [p.Own(), p.Above(), p.Right(), p.Left()];
    out := [];
    for n := 0 to 4
      invariant |out| <= n && (n > 0 ==> |out| > 0)
      invariant forall k :: k in out <==> k in all[..n]
      invariant forall i, j :: 0 <= i < j < |out| ==> out[i] != out[j]
    {
      var seen := false;
      for m := 0 to |out|
        invariant seen <==> all[n] in out[..m]
      {
        if out[m] == all[n] { seen := true; }
        assert out[..m + 1] == out[..m] + [out[m]];
      }
      assert out[..|out|] == out;
      assert all[..n + 1] == all[..n] + [all[n]];
      if !seen { out := out + [all[n]]; }
    }
    assert all[..4] == all;
  }

  // ---- The index ----

  predicate AllOk(px: seq<Px>) { forall i :: 0 <= i < |px| ==> px[i].Ok() }

  /** The pixels among the first n that see strip k, in order. */
  function Members(px: seq<Px>, k: nat, n: nat): seq<nat>
    requires n <= |px|
  {
    if n == 0 then [] else Members(px, k, n - 1) + (if px[n - 1].Sees(k) then [n - 1] else [])
  }

  lemma {:induction false} MembersGrow(px: seq<Px>, k: nat, m: nat, n: nat)
    requires m <= n <= |px|
    ensures Members(px, k, m) <= Members(px, k, n)
    ensures m < n && px[m].Sees(k) ==> |Members(px, k, m)| < |Members(px, k, n)|
    decreases n
  {
    if m < n { MembersGrow(px, k, m, n - 1); }
  }

  lemma {:induction false} MembersExact(px: seq<Px>, k: nat, n: nat, m: nat)
    requires n <= |px|
    ensures m in Members(px, k, n) <==> m < n && px[m].Sees(k)
  {
    if n > 0 { MembersExact(px, k, n - 1, m); }
  }

  /** Where strip k's pixels start in the list. */
  function Start(px: seq<Px>, k: nat): nat {
    if k == 0 then 0 else Start(px, k - 1) + |Members(px, k - 1, |px|)|
  }

  lemma {:induction false} StartGrows(px: seq<Px>, j: nat, k: nat)
    requires j < k
    ensures Start(px, j) + |Members(px, j, |px|)| <= Start(px, k)
    decreases k
  {
    if j < k - 1 { StartGrows(px, j, k - 1); }
  }

  /** The first n pixels that see strip k are in place in its part of the list. */
  ghost predicate Filled(px: seq<Px>, list: seq<nat>, k: nat, n: nat)
    requires n <= |px|
  {
    Start(px, k) + |Members(px, k, n)| <= |list| &&
    list[Start(px, k)..Start(px, k) + |Members(px, k, n)|] == Members(px, k, n)
  }

  /** The index: the list cut at `start` gives each strip's pixels. */
  ghost predicate Indexed(px: seq<Px>, start: seq<nat>, list: seq<nat>) {
    IsStart(px, start, STRIPS) &&
    forall k: nat :: k < STRIPS ==> Filled(px, list, k, |px|)
  }

  lemma SegmentIsMembers(px: seq<Px>, start: seq<nat>, list: seq<nat>, k: nat)
    requires Indexed(px, start, list) && k < STRIPS
    ensures |start| == STRIPS + 1 && 0 <= start[k] <= start[k + 1] <= |list|
    ensures list[start[k]..start[k + 1]] == Members(px, k, |px|)
  {
    assert Filled(px, list, k, |px|);
    assert Start(px, k + 1) == Start(px, k) + |Members(px, k, |px|)|;
  }

  // ---- Boxes ----

  /** Where the image sits: its width and the screen position of its first pixel. */
  datatype Frame = Frame(width: nat, x0: int, y0: int) {
    function X(off: nat): int
      requires width > 0
    {
      x0 + off % width
    }

    function Y(off: nat): int
      requires width > 0
    {
      y0 + off / width
    }

    function Spot(off: nat): Area
      requires width > 0
    {
      Area(X(off), Y(off), X(off), Y(off))
    }
  }

  /** Pixels go along the rows, from the top left. */
  lemma RowByRow(f: Frame, row: nat, column: nat)
    requires column < f.width
    ensures var off := row * f.width + column; off >= 0 && f.X(off) == f.x0 + column && f.Y(off) == f.y0 + row
  {
    DivMod(row, column, f.width);
  }

  /** Around the first n pixels that see strip k. */
  function Box(px: seq<Px>, f: Frame, k: nat, n: nat): Area
    requires f.width > 0 && n <= |px|
  {
    if n == 0 then NO_AREA
    else if px[n - 1].Sees(k) then Union(Box(px, f, k, n - 1), f.Spot(px[n - 1].off))
    else Box(px, f, k, n - 1)
  }

  lemma {:induction false} BoxHas(px: seq<Px>, f: Frame, k: nat, n: nat, m: nat)
    requires f.width > 0 && m < n <= |px| && px[m].Sees(k)
    ensures Box(px, f, k, n).Has(f.X(px[m].off), f.Y(px[m].off))
  {
    if m < n - 1 { BoxHas(px, f, k, n - 1, m); }
  }

  /** And no more than around them: what covers each of them covers the box. */
  lemma {:induction false} BoxIsTight(px: seq<Px>, f: Frame, k: nat, n: nat, w: Area)
    requires f.width > 0 && n <= |px|
    requires forall m :: 0 <= m < n && px[m].Sees(k) ==> w.Has(f.X(px[m].off), f.Y(px[m].off))
    ensures w.Covers(Box(px, f, k, n))
  {
    hide Frame.X, Frame.Y;
    if n > 0 { BoxIsTight(px, f, k, n - 1, w); }
  }

  // ---- Building it ----

  /** Count each strip's pixels and turn the counts into starts. */
  method CountStrips(px: seq<Px>) returns (start: seq<nat>)
    requires AllOk(px)
    ensures IsStart(px, start, STRIPS)
  {
    var count := CountPixels(px);
    start := [0];
    StartNone(px);
    hide *;
    for k := 0 to STRIPS
      invariant IsStart(px, start, k)
    {
      StartNext(px, start, k);
      start := start + [start[k] + count[k]];
    }
  }

  /** The starts of the first strips, up to the k-th. */
  ghost predicate IsStart(px: seq<Px>, start: seq<nat>, k: nat) {
    |start| == k + 1 && forall j :: 0 <= j <= k ==> start[j] == Start(px, j)
  }

  lemma StartNone(px: seq<Px>)
    ensures IsStart(px, [0], 0)
  {
  }

  lemma StartNext(px: seq<Px>, start: seq<nat>, k: nat)
    requires IsStart(px, start, k)
    ensures |start| == k + 1 && IsStart(px, start + [start[k] + |Members(px, k, |px|)|], k + 1)
  {
  }

  lemma MembersNext(px: seq<Px>, n: nat)
    requires n < |px|
    ensures forall k: nat :: |Members(px, k, n + 1)| == |Members(px, k, n)| + if px[n].Sees(k) then 1 else 0
  {
  }

  /** How many pixels see each strip. */
  method CountPixels(px: seq<Px>) returns (count: seq<nat>)
    requires AllOk(px)
    ensures |count| == STRIPS && forall k :: 0 <= k < STRIPS ==> count[k] == |Members(px, k, |px|)|
  {
    count := seq(STRIPS, _ => 0);
    assert forall k: nat :: Members(px, k, 0) == [];
    hide Px.Sees, Members;
    for n := 0 to |px|
      invariant |count| == STRIPS && forall k :: 0 <= k < STRIPS ==> count[k] == |Members(px, k, n)|
    {
      var st := PxStrips(px[n]);
      MembersNext(px, n);
      ghost var before := count;
      for t := 0 to |st|
        invariant |count| == STRIPS
        invariant forall k :: 0 <= k < STRIPS ==> count[k] == before[k] + (if k in st[..t] then 1 else 0)
      {
        assert st[t] in st && st[t] !in st[..t];
        assert st[..t + 1] == st[..t] + [st[t]];
        count := count[st[t] := count[st[t]] + 1];
      }
      assert st[..|st|] == st;
    }
  }

  /** Room for one more pixel in strip k's part, and clear of the other strips' parts. */
  lemma NextSlot(px: seq<Px>, k: nat, n: nat)
    requires n < |px| && k < STRIPS && px[n].Sees(k)
    ensures Start(px, k) + |Members(px, k, n)| < Start(px, k + 1) <= Start(px, STRIPS)
    ensures forall j: nat :: j < k ==> Start(px, j) + |Members(px, j, |px|)| <= Start(px, k)
    ensures forall j: nat :: k < j ==> Start(px, k) + |Members(px, k, |px|)| <= Start(px, j)
  {
    MembersGrow(px, k, n, |px|);
    if k + 1 < STRIPS { StartGrows(px, k + 1, STRIPS); }
    forall j: nat | j < k ensures Start(px, j) + |Members(px, j, |px|)| <= Start(px, k) { StartGrows(px, j, k); }
    forall j: nat | k < j ensures Start(px, k) + |Members(px, k, |px|)| <= Start(px, j) { StartGrows(px, k, j); }
  }

  lemma SliceSet(list: seq<nat>, at: nat, n: nat, a: nat, b: nat)
    requires at < |list| && a <= b <= |list|
    ensures b <= at || at < a ==> list[at := n][a..b] == list[a..b]
    ensures a <= at && b == at ==> list[at := n][a..at + 1] == list[a..b] + [n]
  {
  }

  /** Writing pixel n at strip k's next slot fills k one further. */
  lemma SlotFilled(px: seq<Px>, list: seq<nat>, k: nat, n: nat)
    requires n < |px| && k < STRIPS && px[n].Sees(k) && Start(px, STRIPS) <= |list|
    requires Filled(px, list, k, n)
    ensures Start(px, k) + |Members(px, k, n)| < |list|
    ensures Filled(px, list[Start(px, k) + |Members(px, k, n)| := n], k, n + 1)
  {
    hide Start, Px.Sees;
    NextSlot(px, k, n);
    var at := Start(px, k) + |Members(px, k, n)|;
    SliceSet(list, at, n, Start(px, k), at);
  }

  /** It leaves the other strips' parts alone. */
  lemma SlotElsewhere(px: seq<Px>, list: seq<nat>, k: nat, n: nat, j: nat, m: nat)
    requires n < |px| && k < STRIPS && px[n].Sees(k) && Start(px, STRIPS) <= |list|
    requires j < STRIPS && j != k && m <= |px| && Filled(px, list, j, m)
    ensures Start(px, k) + |Members(px, k, n)| < |list|
    ensures Filled(px, list[Start(px, k) + |Members(px, k, n)| := n], j, m)
  {
    hide Start, Px.Sees, Members;
    NextSlot(px, k, n);
    MembersGrow(px, j, m, |px|);
    MembersGrow(px, k, n, |px|);
    var a := Start(px, j);
    SliceSet(list, Start(px, k) + |Members(px, k, n)|, n, a, a + |Members(px, j, m)|);
  }

  /** Strip k's bookkeeping after the first m pixels: its slot, its part of the list, its box. */
  ghost predicate Part(px: seq<Px>, f: Frame, list: seq<nat>, pos: seq<nat>, sbox: seq<Area>, k: nat, m: nat)
    requires f.width > 0 && m <= |px|
  {
    |pos| == |sbox| == STRIPS && k < STRIPS &&
    pos[k] == Start(px, k) + |Members(px, k, m)| && Filled(px, list, k, m) && sbox[k] == Box(px, f, k, m)
  }

  lemma PartFiled(px: seq<Px>, f: Frame, list: seq<nat>, pos: seq<nat>, sbox: seq<Area>, k: nat, n: nat)
    requires f.width > 0 && n < |px| && Start(px, STRIPS) <= |list| && px[n].Sees(k) &&
      Part(px, f, list, pos, sbox, k, n)
    ensures pos[k] < |list|
    ensures Part(px, f, list[pos[k] := n], pos[k := pos[k] + 1], sbox[k := Union(sbox[k], f.Spot(px[n].off))], k, n + 1)
  {
    hide Start, Px.Sees, Frame.Spot, Filled;
    SlotFilled(px, list, k, n);
  }

  lemma PartKept(px: seq<Px>, f: Frame, list: seq<nat>, pos: seq<nat>, sbox: seq<Area>, k: nat, n: nat, j: nat, m: nat)
    requires f.width > 0 && n < |px| && Start(px, STRIPS) <= |list| && px[n].Sees(k) &&
      Part(px, f, list, pos, sbox, k, n)
    requires m <= |px| && j != k && Part(px, f, list, pos, sbox, j, m)
    ensures pos[k] < |list|
    ensures Part(px, f, list[pos[k] := n], pos[k := pos[k] + 1], sbox[k := Union(sbox[k], f.Spot(px[n].off))], j, m)
  {
    hide Start, Px.Sees, Frame.Spot, Filled;
    SlotElsewhere(px, list, k, n, j, m);
  }

  lemma PartSkipped(px: seq<Px>, f: Frame, list: seq<nat>, pos: seq<nat>, sbox: seq<Area>, k: nat, n: nat)
    requires f.width > 0 && n < |px| && !px[n].Sees(k) && Part(px, f, list, pos, sbox, k, n)
    ensures Part(px, f, list, pos, sbox, k, n + 1)
  {
    hide Start, Px.Sees;
  }

  ghost predicate AllParts(px: seq<Px>, f: Frame, list: seq<nat>, pos: seq<nat>, sbox: seq<Area>, m: nat)
    requires f.width > 0 && m <= |px|
  {
    forall k: nat :: k < STRIPS ==> Part(px, f, list, pos, sbox, k, m)
  }

  lemma PartsBegin(px: seq<Px>, f: Frame, list: seq<nat>, pos: seq<nat>, sbox: seq<Area>)
    requires f.width > 0 && Start(px, STRIPS) <= |list| && sbox == seq(STRIPS, _ => NO_AREA)
    requires |pos| == STRIPS && forall k: nat :: k < STRIPS ==> pos[k] == Start(px, k)
    ensures AllParts(px, f, list, pos, sbox, 0)
  {
    forall k: nat | k < STRIPS ensures Part(px, f, list, pos, sbox, k, 0) { StartGrows(px, k, STRIPS); }
  }

  lemma PartsEnd(px: seq<Px>, f: Frame, start: seq<nat>, list: seq<nat>, pos: seq<nat>, sbox: seq<Area>)
    requires f.width > 0 && AllParts(px, f, list, pos, sbox, |px|)
    requires |start| == STRIPS + 1 && forall k :: 0 <= k <= STRIPS ==> start[k] == Start(px, k)
    ensures Indexed(px, start, list)
    ensures |sbox| == STRIPS && forall k :: 0 <= k < STRIPS ==> sbox[k] == Box(px, f, k, |px|)
  {
    hide Start, Filled, Box, Part;
    PartIs(px, f, list, pos, sbox, 0, |px|);
    forall k: nat | k < STRIPS ensures Filled(px, list, k, |px|) && sbox[k] == Box(px, f, k, |px|) {
      PartIs(px, f, list, pos, sbox, k, |px|);
    }
  }

  lemma PartIs(px: seq<Px>, f: Frame, list: seq<nat>, pos: seq<nat>, sbox: seq<Area>, k: nat, m: nat)
    requires f.width > 0 && m <= |px| && Part(px, f, list, pos, sbox, k, m)
    ensures |sbox| == STRIPS && k < STRIPS && Filled(px, list, k, m) && sbox[k] == Box(px, f, k, m)
  {
  }

  /** File pixel n under each strip it sees. */
  method FilePixel(px: seq<Px>, f: Frame, n: nat, list: array<nat>, pos0: seq<nat>, sbox0: seq<Area>)
    returns (pos: seq<nat>, sbox: seq<Area>)
    requires AllOk(px) && f.width > 0 && n < |px| && Start(px, STRIPS) <= list.Length
    requires AllParts(px, f, list[..], pos0, sbox0, n)
    modifies list
    ensures AllParts(px, f, list[..], pos, sbox, n + 1)
  {
    hide Part, Start, Px.Sees;
    var st := PxStrips(px[n]);
    pos, sbox := pos0, sbox0;
    for t := 0 to |st|
      invariant forall k: nat :: k < STRIPS ==> Part(px, f, list[..], pos, sbox, k, if k in st[..t] then n + 1 else n)
    {
      var k := st[t];
      assert k in st && k !in st[..t];
      assert st[..t + 1] == st[..t] + [k];
      PartSizes(px, f, list[..], pos, sbox, k, n);
      ghost var was := list[..];
      PartFiled(px, f, was, pos, sbox, k, n);
      forall j: nat | j < STRIPS && j != k
        ensures Part(px, f, was[pos[k] := n], pos[k := pos[k] + 1], sbox[k := Union(sbox[k], f.Spot(px[n].off))], j,
                     if j in st[..t] then n + 1 else n)
      {
        PartKept(px, f, was, pos, sbox, k, n, j, if j in st[..t] then n + 1 else n);
      }
      list[pos[k]] := n;
      assert list[..] == was[pos[k] := n];
      pos, sbox := pos[k := pos[k] + 1], sbox[k := Union(sbox[k], f.Spot(px[n].off))];
    }
    assert st[..|st|] == st;
    ghost var after := n + 1;
    forall k: nat | k < STRIPS ensures Part(px, f, list[..], pos, sbox, k, after) {
      if k !in st { PartSkipped(px, f, list[..], pos, sbox, k, n); }
    }
  }

  lemma PartSizes(px: seq<Px>, f: Frame, list: seq<nat>, pos: seq<nat>, sbox: seq<Area>, k: nat, n: nat)
    requires f.width > 0 && n <= |px| && Part(px, f, list, pos, sbox, k, n)
    ensures |pos| == |sbox| == STRIPS && k < STRIPS
  {
  }

  /** Fill the list in place, and box each strip. */
  method FillList(px: seq<Px>, start: seq<nat>, list: array<nat>, f: Frame) returns (sbox: seq<Area>)
    requires AllOk(px) && f.width > 0
    requires |start| == STRIPS + 1 && forall k :: 0 <= k <= STRIPS ==> start[k] == Start(px, k)
    requires Start(px, STRIPS) <= list.Length
    modifies list
    ensures Indexed(px, start, list[..])
    ensures |sbox| == STRIPS && forall k :: 0 <= k < STRIPS ==> sbox[k] == Box(px, f, k, |px|)
  {
    hide AllParts, Start, Indexed, Box;
    var pos := start[..STRIPS];
    sbox := seq(STRIPS, _ => NO_AREA);
    PartsBegin(px, f, list[..], pos, sbox);
    for n := 0 to |px|
      invariant AllParts(px, f, list[..], pos, sbox, n)
    {
      pos, sbox := FilePixel(px, f, n, list, pos, sbox);
    }
    PartsEnd(px, f, start, list[..], pos, sbox);
  }
}
