/** The potato image brought up to each pose: a full cast, or a recolour of the strips whose peel line moved. */
module PotatoImage {
  import opened Integers
  import opened Areas
  import opened StripIndex

  const CLEAR: Pixel := 0

  /** What the ray-cast finds under one pixel. */
  datatype Sample = Background | Covered(px: Px)

  type Cast = seq<Sample>

  predicate GoodCast(cast: Cast) {
    forall n :: 0 <= n < |cast| ==> cast[n].Covered? ==> cast[n].px.Ok() && cast[n].px.off == n
  }

  function Show(s: Sample, pc: Peel): Pixel
    requires s.Covered? ==> s.px.Ok()
  {
    if s.Covered? then Pick(s.px, pc) else CLEAR
  }

  /** The reference: every pixel picked anew. */
  function FullImage(cast: Cast, pc: Peel): seq<Pixel>
    requires GoodCast(cast)
  {
    seq(|cast|, n requires 0 <= n < |cast| => Show(cast[n], pc))
  }

  /** The covered pixels among the first n, in order. */
  function CoveredPx(cast: Cast, n: nat): seq<Px>
    requires n <= |cast|
  {
    if n == 0 then []
    else CoveredPx(cast, n - 1) + (if cast[n - 1].Covered? then [cast[n - 1].px] else [])
  }

  lemma {:induction false} CoveredPxFacts(cast: Cast, n: nat)
    requires n <= |cast| && GoodCast(cast)
    ensures var px := CoveredPx(cast, n);
            AllOk(px) &&
            (forall i :: 0 <= i < |px| ==> px[i].off < n && cast[px[i].off] == Covered(px[i])) &&
            (forall i, j :: 0 <= i < j < |px| ==> px[i].off != px[j].off)
  {
    if n > 0 { CoveredPxFacts(cast, n - 1); }
  }

  lemma {:induction false} CoveredPxComplete(cast: Cast, n: nat, k: nat)
    requires k < n <= |cast| && cast[k].Covered?
    ensures cast[k].px in CoveredPx(cast, n)
  {
    if k < n - 1 { CoveredPxComplete(cast, n - 1, k); }
  }

  // ---- Recolouring ----

  predicate Offsets(px: seq<Px>, size: nat) {
    AllOk(px) &&
    (forall i :: 0 <= i < |px| ==> px[i].off < size) &&
    forall i, j :: 0 <= i < j < |px| ==> px[i].off != px[j].off
  }

  /** Each cached pixel shows the old peel or the new. */
  ghost predicate OldOrNew(px: seq<Px>, img: seq<Pixel>, pc: Peel, pc': Peel)
    requires Offsets(px, |img|)
  {
    forall m :: 0 <= m < |px| ==> img[px[m].off] == Pick(px[m], pc) || img[px[m].off] == Pick(px[m], pc')
  }

  /** The pixels that see strip k show the new peel. */
  ghost predicate StripNew(px: seq<Px>, img: seq<Pixel>, pc': Peel, k: nat)
    requires Offsets(px, |img|)
  {
    forall m :: 0 <= m < |px| && px[m].Sees(k) ==> img[px[m].off] == Pick(px[m], pc')
  }

  lemma AllNew(px: seq<Px>, img: seq<Pixel>, pc: Peel, pc': Peel, m: nat)
    requires Offsets(px, |img|) && OldOrNew(px, img, pc, pc') && m < |px|
    requires forall k: nat :: k < STRIPS && pc[k] != pc'[k] ==> StripNew(px, img, pc', k)
    ensures img[px[m].off] == Pick(px[m], pc')
  {
    if forall k: nat | k < STRIPS && px[m].Sees(k) :: pc[k] == pc'[k] {
      PickIsLocal(px[m], pc, pc');
    }
  }

  /** One write of the loop. */
  lemma Repicked(px: seq<Px>, img: seq<Pixel>, pc: Peel, pc': Peel, m: nat)
    requires Offsets(px, |img|) && m < |px|
    ensures var img' := img[px[m].off := Pick(px[m], pc')];
            (OldOrNew(px, img, pc, pc') ==> OldOrNew(px, img', pc, pc')) &&
            (forall k: nat :: StripNew(px, img, pc', k) ==> StripNew(px, img', pc', k)) &&
            forall j :: 0 <= j < |px| && img[px[j].off] == Pick(px[j], pc') ==> img'[px[j].off] == Pick(px[j], pc')
  {
    hide Pick, Px.Sees;
  }

  lemma StripListed(px: seq<Px>, img: seq<Pixel>, pc': Peel, k: nat)
    requires Offsets(px, |img|)
    requires forall t :: 0 <= t < |Members(px, k, |px|)| ==>
               Members(px, k, |px|)[t] < |px| &&
                 img[px[Members(px, k, |px|)[t]].off] == Pick(px[Members(px, k, |px|)[t]], pc')
    ensures StripNew(px, img, pc', k)
  {
    hide Pick, Px.Sees;
    forall m | 0 <= m < |px| && px[m].Sees(k) ensures img[px[m].off] == Pick(px[m], pc') {
      MembersExact(px, k, |px|, m);
    }
  }

  lemma MembersInRange(px: seq<Px>, k: nat)
    ensures forall t :: 0 <= t < |Members(px, k, |px|)| ==> Members(px, k, |px|)[t] < |px|
  {
    forall t | 0 <= t < |Members(px, k, |px|)| ensures Members(px, k, |px|)[t] < |px| {
      MembersExact(px, k, |px|, Members(px, k, |px|)[t]);
    }
  }

  /** Re-pick strip k's pixels, through its part of the list. */
  method RecolourStrip(px: seq<Px>, start: seq<nat>, list: array<nat>, buf: array<Pixel>, ghost pc: Peel, pc': Peel,
                       k: nat)
    requires Offsets(px, buf.Length) && k < STRIPS && Indexed(px, start, list[..]) && buf as object != list
    requires OldOrNew(px, buf[..], pc, pc')
    modifies buf
    ensures OldOrNew(px, buf[..], pc, pc') && StripNew(px, buf[..], pc', k)
    ensures forall j: nat :: StripNew(px, old(buf[..]), pc', j) ==> StripNew(px, buf[..], pc', j)
    ensures forall n :: 0 <= n < buf.Length && buf[n] != old(buf[n]) ==>
      exists m :: 0 <= m < |px| && px[m].Sees(k) && px[m].off == n
  {
    hide Pick, Px.Sees, Indexed, Start, OldOrNew, StripNew;
    SegmentIsMembers(px, start, list[..], k);
    MembersInRange(px, k);
    ghost var mine := Members(px, k, |px|);
    for t := start[k] to start[k + 1]
      invariant OldOrNew(px, buf[..], pc, pc')
      invariant forall j: nat :: StripNew(px, old(buf[..]), pc', j) ==> StripNew(px, buf[..], pc', j)
      invariant forall u :: 0 <= u < t - start[k] ==> buf[px[mine[u]].off] == Pick(px[mine[u]], pc')
      invariant forall n :: 0 <= n < buf.Length && buf[n] != old(buf[n]) ==>
        exists m :: 0 <= m < |px| && px[m].Sees(k) && px[m].off == n
    {
      var m := list[t];
      assert list[..][start[k]..start[k + 1]][t - start[k]] == m;
      MembersExact(px, k, |px|, m);
      ghost var was := buf[..];
      Repicked(px, was, pc, pc', m);
      buf[px[m].off] := Pick(px[m], pc');
      assert buf[..] == was[px[m].off := Pick(px[m], pc')];
    }
    StripListed(px, buf[..], pc', k);
  }

  // ---- The image and its updates ----

  /** What the cast depends on: the potato's spin and the view's scale and origin. */
  datatype Layout = Layout(spin: real, s: real, ox: real, oy: real)

  function Ceil(x: real): int { -((-x).Floor) }

  /** Half the image's side: the potato with room for its lumps. */
  function HalfSide(l: Layout): int { Ceil(2.35 * 1.25 * l.s) + 2 }

  function Side(l: Layout): nat { if HalfSide(l) < 0 then 0 else 2 * HalfSide(l) }

  function FrameOf(l: Layout): Frame {
    Frame(Side(l), (l.ox + l.s * -0.6).Floor - HalfSide(l), (l.oy - l.s * -0.45).Floor - HalfSide(l))
  }

  /** The whole image on screen. */
  function Whole(f: Frame): Area { Area(f.x0, f.y0, f.x0 + f.width - 1, f.y0 + f.width - 1) }

  function EyeRadius(l: Layout): int { Max(1, (l.s * 0.035 + 0.5).Floor) }

  /** The ray-cast: for every layout, a sample for each pixel of the square image. */
  type Rays = Layout -> Cast

  ghost predicate GoodRays(rays: Rays) {
    forall l: Layout :: l.s > 0.0 ==> GoodCast(rays(l)) && |rays(l)| == Side(l) * Side(l)
  }

  /** Which allocations succeed: the image, how many pixels the cache has room for, the list. */
  datatype Memory = Memory(image: bool, pixels: nat, list: bool)

  class PotatoImage {
    var buf: array?<Pixel>
    var valid: bool
    var indexed: bool
    var layout: Layout
    var frame: Frame
    var pc: Peel
    var px: seq<Px>
    var list: array<nat>
    var start: seq<nat>
    var sbox: seq<Area>

    ghost predicate IndexMatches(rays: Rays)
      reads this, list
      requires GoodRays(rays) && layout.s > 0.0
    {
      frame == FrameOf(layout) && frame.width > 0 &&
      px == CoveredPx(rays(layout), |rays(layout)|) && Indexed(px, start, list[..]) &&
      |sbox| == STRIPS && forall k: nat :: k < STRIPS ==> sbox[k] == Box(px, frame, k, |px|)
    }

    /** A valid image is the full picture of the peel it records; a complete index is the true one. */
    ghost predicate Valid(rays: Rays)
      reads this, list, buf
      requires GoodRays(rays)
    {
      (buf != null ==> buf as object != list) &&
      (valid ==>
        buf != null && layout.s > 0.0 && frame == FrameOf(layout) &&
        buf[..] == FullImage(rays(layout), pc) && (indexed ==> IndexMatches(rays)))
    }

    ghost function Pixels(): seq<Pixel>
      reads this, buf
    {
      if buf == null then [] else buf[..]
    }

    constructor (rays: Rays)
      requires GoodRays(rays)
      ensures Valid(rays) && !valid && fresh(list) && buf == null
    {
      buf, valid, indexed := null, false, false;
      layout, frame := Layout(0.0, 0.0, 0.0, 0.0), Frame(0, 0, 0);
      pc := seq(STRIPS, _ => 0.0);
      px, start, sbox := [], [], [];
      list := new nat[0];
    }

    /** A fresh potato casts differently, so the picture of the old one is dropped. */
    method NewPotato(rays: Rays)
      requires GoodRays(rays)
      requires buf != null ==> buf as object != list
      modifies this`valid
      ensures Valid(rays) && !valid
    {
      valid := false;
    }

    /** Cast, draw and cache every pixel, then index the cache; out of memory, false, with the image still right. */
    method FullCast(cast: Cast, pc': Peel, m: Memory) returns (complete: bool)
      requires buf != null && buf.Length == |cast| && GoodCast(cast) && frame.width > 0 && buf as object != list
      modifies this`px, this`start, this`sbox, this`list, list, buf
      ensures buf[..] == FullImage(cast, pc')
      ensures buf as object != list && (list == old(list) || fresh(list))
      ensures complete ==>
        px == CoveredPx(cast, |cast|) && Indexed(px, start, list[..]) &&
        |sbox| == STRIPS && forall k: nat :: k < STRIPS ==> sbox[k] == Box(px, frame, k, |px|)
    {
      hide Indexed, Start, Pick;
      px := [];
      complete := true;
      for n := 0 to |cast|
        invariant buf[..n] == FullImage(cast, pc')[..n]
        invariant complete ==> px == CoveredPx(cast, n)
        invariant list == old(list)
      {
        buf[n] := Show(cast[n], pc');
        if cast[n].Covered? {
          if |px| >= m.pixels {
            complete := false;
          } else {
            px := px + [cast[n].px];
          }
        }
      }
      assert buf[..] == buf[..|cast|] && FullImage(cast, pc')[..|cast|] == FullImage(cast, pc');
      if !complete { return; }
      CoveredPxFacts(cast, |cast|);
      start := CountStrips(px);
      if start[STRIPS] > list.Length {
        if !m.list { return false; }
        list := new nat[start[STRIPS]];
      }
      sbox := FillList(px, start, list, frame);
    }

    /** Recolour the strips whose peel line moved. */
    method Recolour(rays: Rays, pc': Peel) returns (dirty: Area)
      requires GoodRays(rays) && Valid(rays) && valid && indexed
      modifies this`pc, buf
      ensures Valid(rays) && pc == pc'
      ensures forall n :: 0 <= n < buf.Length && buf[n] != old(buf[n]) ==> dirty.Has(frame.X(n), frame.Y(n))
      ensures dirty.Empty() ==> buf[..] == old(buf[..])
      ensures forall w: Area :: Encloses(w, sbox, old(pc), pc') ==>
                dirty.Empty() || w.Grow(EyeRadius(layout) + 2).Covers(dirty)
    {
      hide Indexed, Start, Box, Pick, Px.Sees, Frame.X, Frame.Y, FullImage, OldOrNew, StripNew, FrameOf;
      ghost var cast := rays(layout);
      ghost var was := buf[..];
      BeforeRecolour(cast, was, px, pc, pc');
      dirty := NO_AREA;
      for k := 0 to STRIPS
        invariant pc == old(pc) && OldOrNew(px, buf[..], pc, pc')
        invariant forall j: nat :: j < k && pc[j] != pc'[j] ==> StripNew(px, buf[..], pc', j) && dirty.Covers(sbox[j])
        invariant forall n :: 0 <= n < buf.Length && buf[n] != was[n] ==> Moved(px, pc, pc', k, n)
        invariant forall w: Area :: Encloses(w, sbox, pc, pc') ==> w.Covers(dirty)
      {
        if pc[k] != pc'[k] {
          ghost var before := buf[..];
          RecolourStrip(px, start, list, buf, pc, pc', k);
          forall n | 0 <= n < buf.Length && buf[n] != was[n] ensures Moved(px, pc, pc', k + 1, n) {
            if before[n] != was[n] { assert Moved(px, pc, pc', k, n); }
          }
          dirty := Union(dirty, sbox[k]);
        } else {
          forall n | 0 <= n < buf.Length && buf[n] != was[n] ensures Moved(px, pc, pc', k + 1, n) {
            assert Moved(px, pc, pc', k, n);
          }
        }
      }
      forall n | 0 <= n < buf.Length && buf[n] != was[n] ensures dirty.Has(frame.X(n), frame.Y(n)) {
        assert Moved(px, pc, pc', STRIPS, n);
        var m, k :| 0 <= m < |px| && px[m].off == n && 0 <= k < STRIPS && pc[k] != pc'[k] && px[m].Sees(k);
        BoxHas(px, frame, k, |px|, m);
        CoversHas(dirty, sbox[k], frame.X(n), frame.Y(n));
      }
      AfterRecolour(cast, was, buf[..], px, pc, pc');
      pc := pc';
      var r := EyeRadius(layout) + 2;
      if !dirty.Empty() { dirty := dirty.Grow(r); }
    }

    /** Keep a buffer of the layout's size, or get one: a new one holds no picture yet. */
    method Reserve(rays: Rays, l: Layout, available: bool)
      requires GoodRays(rays) && l.s > 0.0 && Valid(rays)
      modifies this`buf, this`valid
      ensures Valid(rays)
      ensures buf != null ==> buf.Length == Side(l) * Side(l) && (buf == old(buf) || fresh(buf))
      ensures buf == null ==> !valid
      ensures valid ==> old(valid)
      ensures old(valid) && old(layout) == l ==> buf == old(buf) && valid
      ensures old(buf) != null && old(buf).Length == Side(l) * Side(l) ==> buf == old(buf)
      ensures buf != null <==> available || (old(buf) != null && old(buf).Length == Side(l) * Side(l))
    {
      hide Indexed, Box, FrameOf, GoodCast, GoodRays, Side;
      if buf != null && buf.Length != Side(l) * Side(l) {
        if valid && layout == l { SideFacts(rays, l); }
        buf := null;
      }
      if buf == null {
        valid := false;
        if !available { return; }
        buf := new Pixel[Side(l) * Side(l)];
      }
    }

    /** The full cast for a new spin, layout or potato, or when the index is not to be trusted. */
    method Recast(rays: Rays, l: Layout, pc': Peel, m: Memory)
      requires GoodRays(rays) && l.s > 0.0 && Valid(rays) && buf != null && buf.Length == Side(l) * Side(l)
      modifies this, list, buf
      ensures Valid(rays) && valid && layout == l && pc == pc' && buf == old(buf)
      ensures list == old(list) || fresh(list)
    {
      hide Indexed, Box, Pick, FullImage, FrameOf, GoodCast, GoodRays, Side;
      SideFacts(rays, l);
      layout := l;
      frame := FrameOf(l);
      indexed := FullCast(rays(l), pc', m);
      valid := true;
      pc := pc';
    }

    /**
     Bring the image up to a pose. Unless the image cannot be allocated, it ends up exactly the full picture
     of the pose, and every pixel that changed on screen lies in the area returned.
     */
    method Update(rays: Rays, l: Layout, pc': Peel, m: Memory) returns (dirty: Area)
      requires GoodRays(rays) && l.s > 0.0 && Valid(rays)
      modifies this, list, buf
      ensures Valid(rays)
      ensures buf == null ==> dirty == NO_AREA
      ensures old(buf) != null && old(buf).Length == Side(l) * Side(l) ==> buf == old(buf)
      ensures buf != null <==> m.image || (old(buf) != null && old(buf).Length == Side(l) * Side(l))
      ensures (list == old(list) || fresh(list)) && (buf == null || buf == old(buf) || fresh(buf))
      ensures buf != null ==> buf.Length == Side(l) * Side(l)
      ensures buf != null ==> valid && layout == l && pc == pc' && buf[..] == FullImage(rays(l), pc')
      ensures buf != null && !(old(valid) && old(layout) == l) ==> dirty == Whole(FrameOf(l))
      ensures old(valid) && old(layout) == l && old(pc) == pc' ==> dirty == NO_AREA
      ensures old(valid) && old(layout) == l ==> |Pixels()| == |old(Pixels())|
      ensures old(valid) && old(layout) == l ==>
        forall n :: 0 <= n < |Pixels()| && Pixels()[n] != old(Pixels())[n] ==>
          dirty.Has(FrameOf(l).X(n), FrameOf(l).Y(n))
    {
      hide Indexed, Box, Pick, FullImage, FrameOf, GoodCast, GoodRays, Whole, Side, Frame.X, Frame.Y;
      SideFacts(rays, l);
      Reserve(rays, l, m.image);
      if buf == null { return NO_AREA; }
      dirty := NO_AREA;
      var repeel := pc != pc';
      if !valid || layout != l || (repeel && !indexed) {
        Recast(rays, l, pc', m);
        dirty := Whole(frame);
        WholeHas(rays, l);
      } else if repeel {
        dirty := Recolour(rays, pc');
      }
    }
  }

  lemma SideFacts(rays: Rays, l: Layout)
    requires GoodRays(rays) && l.s > 0.0
    ensures FrameOf(l).width == Side(l) > 0 && GoodCast(rays(l)) && |rays(l)| == Side(l) * Side(l)
    ensures forall pc: Peel :: |FullImage(rays(l), pc)| == |rays(l)|
  {
  }

  lemma WholeHas(rays: Rays, l: Layout)
    requires GoodRays(rays) && l.s > 0.0
    ensures var f := FrameOf(l);
            f.width > 0 && forall n :: 0 <= n < |rays(l)| ==> Whole(f).Has(f.X(n), f.Y(n))
  {
    hide FrameOf, GoodRays, Whole, Side, Frame.X, Frame.Y;
    SideFacts(rays, l);
    forall n | 0 <= n < |rays(l)| ensures Whole(FrameOf(l)).Has(FrameOf(l).X(n), FrameOf(l).Y(n)) {
      SquareHas(FrameOf(l), n);
    }
  }

  lemma SquareHas(f: Frame, n: nat)
    requires f.width > 0 && n < f.width * f.width
    ensures Whole(f).Has(f.X(n), f.Y(n))
  {
    RowBelow(n, f.width);
  }

  lemma RowBelow(n: nat, w: nat)
    requires w > 0 && n < w * w
    ensures n / w < w
  {
    if n / w >= w { MulMono(w, n / w, w); }
  }

  /** Pixel n was re-picked: it sees one of the first k strips, and that strip's peel line moved. */
  ghost predicate Moved(px: seq<Px>, pc: Peel, pc': Peel, k: int, n: int)
    requires k <= STRIPS
  {
    exists m, j :: 0 <= m < |px| && px[m].off == n && 0 <= j < k && pc[j] != pc'[j] && px[m].Sees(j)
  }

  /** An area around the boxes of the strips whose peel line moved. */
  predicate Encloses(w: Area, sbox: seq<Area>, pc: Peel, pc': Peel) {
    forall k :: 0 <= k < STRIPS && k < |sbox| && pc[k] != pc'[k] ==> w.Covers(sbox[k])
  }

  lemma BeforeRecolour(cast: Cast, img: seq<Pixel>, px: seq<Px>, pc: Peel, pc': Peel)
    requires GoodCast(cast) && px == CoveredPx(cast, |cast|) && img == FullImage(cast, pc)
    ensures Offsets(px, |img|) && OldOrNew(px, img, pc, pc')
  {
    hide Pick;
    CoveredPxFacts(cast, |cast|);
  }

  lemma AfterRecolour(cast: Cast, was: seq<Pixel>, img: seq<Pixel>, px: seq<Px>, pc: Peel, pc': Peel)
    requires GoodCast(cast) && px == CoveredPx(cast, |cast|) && was == FullImage(cast, pc) && |img| == |was|
    requires Offsets(px, |img|) && OldOrNew(px, img, pc, pc')
    requires forall k: nat :: k < STRIPS && pc[k] != pc'[k] ==> StripNew(px, img, pc', k)
    requires forall n :: 0 <= n < |img| && img[n] != was[n] ==> Moved(px, pc, pc', STRIPS, n)
    ensures img == FullImage(cast, pc')
  {
    hide Pick, OldOrNew, StripNew, Offsets, Moved, CoveredPx;
    forall n | 0 <= n < |img| ensures img[n] == Show(cast[n], pc') {
      if cast[n].Covered? {
        CoveredIsNew(cast, img, px, pc, pc', n);
      } else {
        OnlyCoveredMoves(cast, px, pc, pc', n);
      }
    }
  }

  lemma OnlyCoveredMoves(cast: Cast, px: seq<Px>, pc: Peel, pc': Peel, n: nat)
    requires GoodCast(cast) && px == CoveredPx(cast, |cast|) && n < |cast| && !cast[n].Covered?
    ensures !Moved(px, pc, pc', STRIPS, n)
  {
    hide Px.Sees;
    CoveredPxFacts(cast, |cast|);
  }

  lemma CoveredIsNew(cast: Cast, img: seq<Pixel>, px: seq<Px>, pc: Peel, pc': Peel, n: nat)
    requires GoodCast(cast) && px == CoveredPx(cast, |cast|) && n < |cast| == |img| && cast[n].Covered?
    requires Offsets(px, |img|) && OldOrNew(px, img, pc, pc')
    requires forall k: nat :: k < STRIPS && pc[k] != pc'[k] ==> StripNew(px, img, pc', k)
    ensures img[n] == Pick(cast[n].px, pc')
  {
    hide Pick, OldOrNew, StripNew, Px.Sees, CoveredPx;
    CoveredPxComplete(cast, |cast|, n);
    var m :| 0 <= m < |px| && px[m] == cast[n].px;
    AllNew(px, img, pc, pc', m);
  }
}
