/**
 How parts look, and what the stage draws whatever moved: the pile on the board, or the potato. The area that its
 update returns is all that a frame must have redrawn of it.
 */
module KitchenBase {
  import opened Integers
  import opened Areas
  import opened DirtyStage
  import Slices
  import PileCache
  import StripIndex
  import PotatoImage

  /** How a part in some state measures and paints. */
  datatype Art<!S> = Art(area: (S, View) -> Area, paint: (S, View, Layer, int, int, Colour) -> Colour)

  ghost predicate Inside<S(!new)>(a: Art<S>) {
    forall s: S, v: View, l: Layer, x: int, y: int, c: Colour ::
      !a.area(s, v).Has(x, y) ==> a.paint(s, v, l, x, y, c) == c
  }

  // ---- The pile ----

  /** The pile's layer shows this pile; the board behind it never changes. */
  ghost predicate ShowsPile(sc: Scene, board: (int, int, Colour) -> Colour, look: PileCache.Look,
                            p: seq<Slices.Slice>) {
    sc.stage != 1 &&
    forall x: int, y: int, c: Colour ::
      sc.paint(Pile, x, y, c) == look(p, sc.view, x, y, c) && sc.paint(Board, x, y, c) == board(x, y, c)
  }

  lemma PileIsBase(was: Scene, now: Scene, board: (int, int, Colour) -> Colour, look: PileCache.Look,
                   p: seq<Slices.Slice>, q: seq<Slices.Slice>, changed: Area)
    requires ShowsPile(was, board, look, p) && ShowsPile(now, board, look, q) && was.view == now.view
    requires PileCache.SameOutside(look, p, q, now.view, changed)
    ensures BaseKept(was, now, changed)
  {
    forall l: Layer, x: int, y: int, c: Colour | l in Order(now.stage) && (forall p: Part :: !Owns(p, l)) &&
      !changed.Has(x, y)
      ensures now.paint(l, x, y, c) == was.paint(l, x, y, c)
    {
      assert Owns(Cuke, CukeBack) && Owns(Cuke, CukeFront) && Owns(Knife, KnifeLayer) && Owns(Fly, Flying);
      assert l == Pile || l == Board;
    }
  }

  /** A frame of the cucumber: what the pile's update returns is what the frame's redraw needs of it. */
  method UpdatePile(pile: PileCache.PileImage, board: (int, int, Colour) -> Colour, look: PileCache.Look,
                    m: PileCache.Measure, ghost was: Scene, ghost now: Scene,
                    ghost s: seq<Slices.Slice>, s': seq<Slices.Slice>, v: View, luck: PileCache.Luck)
    returns (base: Area)
    requires PileCache.Measures(m) && PileCache.DrawsInside(look, m)
    requires pile.Valid(m, s) && Slices.Later(s, s') && Slices.InOrder(s')
    requires ShowsPile(was, board, look, PileCache.Pile(s)) && ShowsPile(now, board, look, PileCache.Pile(s'))
    requires was.view == now.view == v
    modifies pile
    ensures pile.Valid(m, s') && BaseKept(was, now, base)
  {
    hide PileCache.Measures, PileCache.DrawsInside, PileCache.SameOutside, Slices.Later, Slices.InOrder, BaseKept,
      ShowsPile;
    base := pile.Update(look, m, s, s', v, luck);
    PileIsBase(was, now, board, look, PileCache.Pile(s), PileCache.Pile(s'), base);
  }

  // ---- The potato ----

  /** How an image pixel covers the colour behind it. */
  type Blend = (StripIndex.Pixel, Colour) -> Colour

  /** The pixel of an image drawn in a square frame. */
  function DrawImage(f: StripIndex.Frame, img: seq<StripIndex.Pixel>, blend: Blend, x: int, y: int, c: Colour): Colour {
    var n := (y - f.y0) * f.width + (x - f.x0);
    if PotatoImage.Whole(f).Has(x, y) && 0 <= n < |img| then blend(img[n], c) else c
  }

  ghost predicate ShowsPotato(sc: Scene, blend: Blend, f: StripIndex.Frame, img: seq<StripIndex.Pixel>) {
    sc.stage == 1 && forall x: int, y: int, c: Colour :: sc.paint(Potato, x, y, c) == DrawImage(f, img, blend, x, y, c)
  }

  /** Every pixel of the image that differs lies in the area. */
  ghost predicate DiffersInside(f: StripIndex.Frame, a: seq<StripIndex.Pixel>, b: seq<StripIndex.Pixel>, base: Area)
    requires f.width > 0
  {
    |a| == |b| && forall n :: 0 <= n < |a| && a[n] != b[n] ==> base.Has(f.X(n), f.Y(n))
  }

  lemma PixelAt(f: StripIndex.Frame, x: int, y: int)
    requires f.width > 0 && PotatoImage.Whole(f).Has(x, y)
    ensures var n := (y - f.y0) * f.width + (x - f.x0);
            n >= 0 && f.X(n) == x && f.Y(n) == y
  {
    MulMono(0, y - f.y0, f.width);
    DivMod(y - f.y0, x - f.x0, f.width);
  }

  lemma PotatoIsBase(was: Scene, now: Scene, blend: Blend, f: StripIndex.Frame,
                     a: seq<StripIndex.Pixel>, b: seq<StripIndex.Pixel>, base: Area)
    requires f.width > 0 && ShowsPotato(was, blend, f, a) && ShowsPotato(now, blend, f, b)
    requires base == PotatoImage.Whole(f) || DiffersInside(f, a, b, base)
    ensures BaseKept(was, now, base)
  {
    forall l: Layer, x: int, y: int, c: Colour | l in Order(now.stage) && (forall p: Part :: !Owns(p, l)) &&
      !base.Has(x, y)
      ensures now.paint(l, x, y, c) == was.paint(l, x, y, c)
    {
      assert Owns(Peeler, Ribbon) && Owns(Peeler, PeelerLayer) && Owns(Shavings, ShavingsLayer);
      assert l == Potato;
      if PotatoImage.Whole(f).Has(x, y) { PixelAt(f, x, y); }
    }
  }
}
