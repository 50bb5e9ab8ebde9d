/**
 Stage 2 of the Kitchen as a whole: the potato, its kept image, and the stage that has only what moved redrawn.
 Drawing brings the image up, too, and drops the area that this changed.
 */
module PotatoScreen {
  import opened Areas
  import opened AreaLists
  import opened DirtyStage
  import opened KitchenBase
  import opened StripIndex
  import opened PotatoImage
  import Peeler
  import opened Crank

  /** How everything around the potato looks, and how the crank turns it and peels it. */
  datatype Looks = Looks(
    peeler: Art<real>, shavings: Art<seq<Peeler.Shaving>>, turn: real -> real, line: real -> Peel, blend: Blend)

  ghost predicate GoodLooks(looks: Looks) { Inside(looks.peeler) && Inside(looks.shavings) }

  /** A moment of the game, as far as it is seen. */
  datatype Moment = Moment(phase: real, sh: seq<Peeler.Shaving>)

  function LayoutOf(looks: Looks, m: Moment, v: View): Layout { Layout(looks.turn(m.phase), v.s, v.ox, v.oy) }

  /** A buffer of so many pixels is the size of the image in this view. */
  predicate FitsIn(held: nat, v: View) {
    var side := Side(Layout(0.0, v.s, v.ox, v.oy));
    v.s > 0.0 && held == side * side
  }

  function AreaOf(looks: Looks, m: Moment, v: View, p: Part): Area {
    match p
    case Peeler => looks.peeler.area(m.phase, v)
    case Shavings => looks.shavings.area(m.sh, v)
    case Knife => NO_AREA
    case Cuke => NO_AREA
    case Fly => NO_AREA
  }

  /** The potato's pixel, if there is an image of it. */
  function PotatoPixel(looks: Looks, rays: Rays, m: Moment, has: bool, v: View, x: int, y: int, c: Colour): Colour {
    var l := LayoutOf(looks, m, v);
    if !(has && GoodCast(rays(l))) then c
    else DrawImage(FrameOf(l), FullImage(rays(l), looks.line(m.phase)), looks.blend, x, y, c)
  }

  function PaintOf(looks: Looks, rays: Rays, m: Moment, has: bool, v: View, l: Layer, x: int, y: int, c: Colour): Colour
  {
    match l
    case Potato => PotatoPixel(looks, rays, m, has, v, x, y, c)
    case Ribbon => looks.peeler.paint(m.phase, v, l, x, y, c)
    case PeelerLayer => looks.peeler.paint(m.phase, v, l, x, y, c)
    case ShavingsLayer => looks.shavings.paint(m.sh, v, l, x, y, c)
    case Board => c
    case CukeBack => c
    case KnifeLayer => c
    case CukeFront => c
    case Pile => c
    case Flying => c
  }

  function SceneOf(looks: Looks, rays: Rays, m: Moment, has: bool, v: View): Scene {
    Scene(1, v, (l, x, y, c) => PaintOf(looks, rays, m, has, v, l, x, y, c), p => AreaOf(looks, m, v, p))
  }

  /** The game with a buffer of so many pixels: where it does not fit, there is no potato to be seen. */
  function WorldOf(looks: Looks, rays: Rays, m: Moment, held: nat): World {
    World(1, v => SceneOf(looks, rays, m, FitsIn(held, v), v))
  }

  lemma WorldIsGood(looks: Looks, rays: Rays, m: Moment, held: nat)
    requires GoodLooks(looks)
    ensures Good(WorldOf(looks, rays, m, held))
  {
    hide PotatoPixel, FitsIn;
    forall v: View, p: Part, l: Layer, x: int, y: int, c: Colour | Owns(p, l) && !AreaOf(looks, m, v, p).Has(x, y)
      ensures PaintOf(looks, rays, m, FitsIn(held, v), v, l, x, y, c) == c
    {
    }
  }

  lemma SameGame(looks: Looks, rays: Rays, m: Moment, held: nat, held': nat)
    ensures SameAreas(WorldOf(looks, rays, m, held), WorldOf(looks, rays, m, held'))
  {
    hide PotatoPixel, FitsIn;
  }

  function MovedParts(turned: bool, flew: bool): set<Part> {
    (if turned then {Part.Peeler} else {}) + (if flew then {Shavings} else {})
  }

  predicate Flagged(m: Moment, n: Moment, moved: set<Part>) {
    (Part.Peeler !in moved ==> n.phase == m.phase) && (Shavings !in moved ==> n.sh == m.sh)
  }

  lemma FrameMoves(looks: Looks, rays: Rays, m: Moment, n: Moment, h: nat, h': nat, v: View, moved: set<Part>,
                   base: Area)
    requires Flagged(m, n, moved)
    requires BaseKept(SceneOf(looks, rays, m, FitsIn(h, v), v), SceneOf(looks, rays, n, FitsIn(h', v), v), base)
    ensures Moves(WorldOf(looks, rays, m, h).at(v), WorldOf(looks, rays, n, h').at(v), moved, base)
  {
    hide BaseKept, PotatoPixel, FitsIn;
  }

  // ---- The update's area ----

  /** The image of a moment. */
  function ImageOf(looks: Looks, rays: Rays, m: Moment, v: View): seq<Pixel> {
    var l := LayoutOf(looks, m, v);
    if GoodCast(rays(l)) then FullImage(rays(l), looks.line(m.phase)) else []
  }

  lemma SceneShows(looks: Looks, rays: Rays, m: Moment, has: bool, v: View)
    requires GoodRays(rays) && v.s > 0.0
    ensures ShowsPotato(SceneOf(looks, rays, m, has, v), looks.blend, FrameOf(LayoutOf(looks, m, v)),
                        if has then ImageOf(looks, rays, m, v) else [])
  {
  }

  /** A potato that is there before or after: its frame is the one of the view. */
  lemma ImageIsBase(looks: Looks, rays: Rays, m: Moment, n: Moment, has: bool, has': bool, v: View, base: Area)
    requires GoodRays(rays) && v.s > 0.0
    requires var f, a, b := FrameOf(LayoutOf(looks, n, v)), ImageOf(looks, rays, m, v), ImageOf(looks, rays, n, v);
             f.width > 0 && (base == Whole(f) || (!has && !has') || (has && has' && DiffersInside(f, a, b, base)))
    ensures BaseKept(SceneOf(looks, rays, m, has, v), SceneOf(looks, rays, n, has', v), base)
  {
    SceneShows(looks, rays, m, has, v);
    SceneShows(looks, rays, n, has', v);
    var f := FrameOf(LayoutOf(looks, n, v));
    var a := if has then ImageOf(looks, rays, m, v) else [];
    var b := if has' then ImageOf(looks, rays, n, v) else [];
    assert f == FrameOf(LayoutOf(looks, m, v));
    if !has && !has' { assert DiffersInside(f, a, b, base); }
    PotatoIsBase(SceneOf(looks, rays, m, has, v), SceneOf(looks, rays, n, has', v), looks.blend, f, a, b, base);
  }

  // ---- The screen ----

  /** The memory there is for each draw of a redraw. */
  type Luck = nat -> Memory

  /** The first of the draws k to n that finds memory for an image. */
  function First(luck: Luck, k: nat, n: nat): (f: nat)
    requires k <= n
    ensures k <= f <= n && (f < n ==> luck(f).image)
    ensures forall i :: k <= i < f ==> !luck(i).image
    decreases n - k
  {
    if k == n || luck(k).image then k else First(luck, k + 1, n)
  }

  /** What can happen on the second stage. */
  datatype Event =
    | Turn(notches: real)
    | Frame(dt: real, memory: Memory)
    | NewPotato(looks: Looks, rays: Rays)
    | Resize(bounds: Area)
    | Expose(a: Area)
    | Refresh(cut: Cut, luck: Luck)

  ghost predicate Fair(e: Event) {
    match e
    case Turn(_) => true
    case Frame(dt, _) => dt >= 0.0
    case NewPotato(looks, rays) => GoodLooks(looks) && GoodRays(rays)
    case Resize(_) => true
    case Expose(_) => true
    case Refresh(cut, _) => Covering(cut)
  }

  ghost predicate GoodFit(fit: Fit) { forall b: Area :: !b.Empty() ==> fit(1, b).s > 0.0 }

  class Screen {
    const stage: Stage
    const image: PotatoImage
    var potato: Peeler.Potato
    var looks: Looks
    var rays: Rays
    /** Some redraw was not safe; some redraw left the screen wrong. */
    ghost var unsafe: bool
    ghost var lost: bool

    ghost function Now(): Moment
      reads this`potato, potato
    {
      Moment(potato.phase, potato.sh)
    }

    ghost function Held(): nat
      reads image
    {
      if image.buf == null then 0 else image.buf.Length
    }

    function Eye(): View
      reads stage
    {
      stage.fit(1, stage.bounds)
    }

    /** There is an image of the size this view asks for. */
    ghost predicate Has()
      reads stage, image
    {
      FitsIn(Held(), Eye())
    }

    /** The stage keeps the areas of this game, and the kept image is of the pose there is. */
    ghost predicate Tracks()
      reads this`potato, this`looks, this`rays, stage, image, image.list, image.buf, potato
    {
      GoodLooks(looks) && GoodRays(rays) && GoodFit(stage.fit) && stage.Tracks() &&
      stage.world == WorldOf(looks, rays, Now(), Held()) && potato.Valid() && image.Valid(rays) &&
      (stage.dirty.valid && image.valid ==>
         image.pc == looks.line(potato.phase) && image.layout.spin == looks.turn(potato.phase))
    }

    /** And but for what is to be redrawn, the screen shows it. */
    ghost predicate Valid()
      reads this`potato, this`looks, this`rays, stage, image, image.list, image.buf, potato
    {
      Tracks() && stage.Valid()
    }

    /** The picture of this moment with the potato, or without it. */
    ghost function PictureIf(has: bool): Scene
      reads this`potato, this`looks, this`rays, stage, potato
    {
      SceneOf(looks, rays, Now(), has, Eye())
    }

    /**
     A redraw is safe when the image is there before it, or does not get there, or all of it that is seen is drawn
     from the draw on that finds memory for it.
     */
    ghost predicate Safe(clips: seq<Area>, luck: Luck)
      reads this`potato, this`looks, this`rays, stage, image, potato
    {
      var first := First(luck, 0, |clips|);
      Has() || first == |clips| ||
      forall x, y :: stage.bounds.Has(x, y) && Full(PictureIf(true), x, y) != Full(PictureIf(false), x, y) ==>
        Shown(clips[first..], x, y)
    }

    constructor (fit: Fit, bounds: Area, looks: Looks, rays: Rays)
      requires GoodLooks(looks) && GoodRays(rays) && GoodFit(fit)
      ensures Valid() && fresh(stage) && fresh(image) && fresh(image.list) && image.buf == null && fresh(potato)
      ensures !Has() && !AnyMoves() && !unsafe && !lost
      ensures stage.bounds == bounds && stage.fit == fit && this.looks == looks && this.rays == rays
    {
      var newPotato := new Peeler.Potato();
      var m := Moment(newPotato.phase, newPotato.sh);
      WorldIsGood(looks, rays, m, 0);
      potato := newPotato;
      image := new PotatoImage(rays);
      stage := new Stage(fit, bounds, WorldOf(looks, rays, m, 0));
      this.looks, this.rays := looks, rays;
      unsafe, lost := false, false;
      new;
      NoneFits(Eye());
      hide Good, GoodLooks, GoodRays, WorldOf, Full;
    }

    method Turn(notches: real)
      requires Tracks()
      modifies potato
      ensures Tracks() && (old(Valid()) ==> Valid())
    {
      hide Good, GoodLooks, GoodRays, WorldOf, Full, Shown, Kept;
      potato.Crank(notches);
    }

    /** The next potato: the kept image is of the one before, and its buffer stays. */
    method NewPotato(looks: Looks, rays: Rays)
      requires Tracks() && GoodLooks(looks) && GoodRays(rays)
      modifies this`potato, this`looks, this`rays, stage, image
      ensures Tracks() && Valid() && fresh(potato) && image.buf == old(image.buf) && image.list == old(image.list)
      ensures stage.bounds == old(stage.bounds)
      ensures forall x, y :: stage.bounds.Has(x, y) ==> Shown(stage.pending, x, y)
    {
      hide Good, GoodLooks, GoodRays, WorldOf, Full, Shown, Kept;
      potato := new Peeler.Potato();
      this.looks, this.rays := looks, rays;
      image.NewPotato(rays);
      WorldIsGood(looks, rays, Now(), Held());
      stage.Reset(WorldOf(looks, rays, Now(), Held()));
    }

    /** Bring the image up to the moment n; the area returned covers all that this changes of the moment m. */
    method UpdateImage(ghost m: Moment, n: Moment, memory: Memory) returns (base: Area)
      requires GoodRays(rays) && image.Valid(rays) && Eye().s > 0.0
      modifies image, image.list, image.buf
      ensures image.Valid(rays) && Kin(old(image.list), old(image.buf))
      ensures FitsIn(Held(), Eye()) <==> memory.image || old(FitsIn(Held(), Eye()))
      ensures image.valid ==> image.pc == looks.line(n.phase) && image.layout.spin == looks.turn(n.phase)
      ensures old(image.valid ==> image.pc == looks.line(m.phase) && image.layout.spin == looks.turn(m.phase)) ==>
        BaseKept(SceneOf(looks, rays, m, old(FitsIn(Held(), Eye())), Eye()),
                 SceneOf(looks, rays, n, FitsIn(Held(), Eye()), Eye()), base)
    {
      hide BaseKept, FullImage, Whole, FrameOf, GoodRays, SceneOf, StripIndex.Frame.X, StripIndex.Frame.Y;
      var v := Eye();
      var l := LayoutOf(looks, n, v);
      SideFacts(rays, l);
      ghost var has, before, kept := Has(), image.Pixels(), image.valid && image.layout == l;
      ghost var known := image.valid ==> image.pc == looks.line(m.phase) && image.layout.spin == looks.turn(m.phase);
      base := image.Update(rays, l, looks.line(n.phase), memory);
      if known {
        assert kept ==> LayoutOf(looks, m, v) == l && before == ImageOf(looks, rays, m, v);
        assert Has() ==> image.Pixels() == ImageOf(looks, rays, n, v);
        ImageIsBase(looks, rays, m, n, has, Has(), v, base);
      }
    }

    /** The image's arrays are the ones it had, or new ones. */
    twostate predicate Kin(list: array<nat>, buf: array?<Pixel>)
      reads image
    {
      (image.list == list || fresh(image.list)) && (image.buf == null || image.buf == buf || fresh(image.buf))
    }

    /** Either the potato is there, or all of the stage is to be redrawn. */
    ghost predicate Settled()
      reads stage, image
    {
      Has() || stage.bounds.Empty() || forall x, y :: stage.bounds.Has(x, y) ==> Shown(stage.pending, x, y)
    }

    /** The crank is not where the wheel wants it, or peels are in the air. */
    ghost predicate AnyMoves()
      reads this`potato, potato
    {
      Crank.Moved(potato.phase, potato.phaseTarget) || potato.sh != []
    }

    /** What a frame hands to the stage, when it has moved the game from m to n. */
    method Prepare(ghost m: Moment, n: Moment, moved: set<Part>, memory: Memory) returns (f: DirtyStage.Frame)
      requires GoodLooks(looks) && GoodRays(rays) && GoodFit(stage.fit) && image.Valid(rays)
      requires stage.world == WorldOf(looks, rays, m, Held()) && Flagged(m, n, moved) && (moved == {} ==> n == m)
      requires stage.dirty.valid && image.valid ==>
                 image.pc == looks.line(m.phase) && image.layout.spin == looks.turn(m.phase)
      modifies image, image.list, image.buf
      ensures image.Valid(rays) && Kin(old(image.list), old(image.buf)) && (old(Has()) ==> Has())
      ensures f.moved == moved && f.now == WorldOf(looks, rays, n, Held())
      ensures StepsFor(stage.world, f, Eye(), stage.dirty, stage.bounds)
      ensures Has() ==> old(Has()) || memory.image
      ensures moved == {} && stage.dirty.valid ==> image.buf == old(image.buf)
      ensures image.valid && (!stage.bounds.Empty() || (stage.dirty.valid && moved == {})) ==>
                image.pc == looks.line(n.phase) && image.layout.spin == looks.turn(n.phase)
    {
      hide Good, GoodLooks, GoodRays, GoodFit, WorldOf, SceneOf, Moves, Rests, BaseKept, FitsIn;
      ghost var h := Held();
      var v := Eye();
      var base := NO_AREA;
      WorldStage(looks, rays, m, h);
      if moved == {} && stage.dirty.valid {
        StillRests(stage.world);
        StillMoves(stage.world, v);
      } else if !stage.bounds.Empty() {
        FitSees(stage.fit, stage.bounds);
        base := UpdateImage(m, n, memory);
        if stage.dirty.valid { FrameMoves(looks, rays, m, n, h, Held(), v, moved, base); }
      }
      WorldIsGood(looks, rays, n, Held());
      WorldStage(looks, rays, n, Held());
      f := DirtyStage.Frame(WorldOf(looks, rays, n, if image.buf == null then 0 else image.buf.Length), moved, base);
    }

    /** Hand the moved game to the stage. */
    method HandOver(ghost m: Moment, moved: set<Part>, memory: Memory)
      requires GoodLooks(looks) && GoodRays(rays) && GoodFit(stage.fit) && image.Valid(rays) && potato.Valid()
      requires stage.Tracks() && stage.world == WorldOf(looks, rays, m, Held())
      requires Flagged(m, Now(), moved) && (moved == {} ==> Now() == m)
      requires stage.dirty.valid && image.valid ==>
                 image.pc == looks.line(m.phase) && image.layout.spin == looks.turn(m.phase)
      modifies stage, image, image.list, image.buf
      ensures Tracks() && (old(stage.Valid()) ==> Valid()) && Kin(old(image.list), old(image.buf))
      ensures stage.bounds == old(stage.bounds) && stage.screen == old(stage.screen)
      ensures (old(Has()) ==> Has()) && (Has() ==> old(Has()) || memory.image)
      ensures forall x, y :: Shown(old(stage.pending), x, y) ==> Shown(stage.pending, x, y)
      ensures if old(stage.dirty).valid && moved == {} then stage.pending == old(stage.pending) && stage.dirty.valid
              else stage.dirty.valid == !stage.bounds.Empty()
    {
      hide Good, GoodLooks, GoodRays, GoodFit, WorldOf, SceneOf, Full, Shown, Kept, StepsFor, FitsIn;
      WorldStage(looks, rays, m, Held());
      var f := Prepare(m, Moment(potato.phase, potato.sh), moved, memory);
      stage.RunFrame(f);
    }

    /** A frame: a step of the game, and then only what it moved, and what the image's update reports, is asked for. */
    method RunFrame(dt: real, memory: Memory)
      requires Tracks() && dt >= 0.0
      modifies stage, potato, image, image.list, image.buf
      ensures Tracks() && (old(Valid()) ==> Valid()) && Kin(old(image.list), old(image.buf))
      ensures stage.bounds == old(stage.bounds) && (old(Settled()) ==> Settled())
      ensures potato.phase == Ease(old(potato.phase), old(potato.phaseTarget), PERIOD, dt)
      ensures (old(Has()) ==> Has()) && (Has() ==> old(Has()) || memory.image)
      ensures stage.screen == old(stage.screen)
      ensures old(stage.dirty).valid && !old(AnyMoves()) ==> stage.pending == old(stage.pending)
      ensures !old(AnyMoves()) ==> !AnyMoves()
      ensures !stage.bounds.Empty() ==> stage.dirty.valid
    {
      hide Good, GoodLooks, GoodRays, GoodFit, WorldOf, SceneOf, Full, Shown, Kept, FitsIn, Ease;
      NotMoved(potato.phase, potato.phaseTarget, dt);
      ghost var m := Now();
      var turned, flew := potato.Step(dt);
      HandOver(m, MovedParts(turned, flew), memory);
    }

    /** Draw clip after clip; every draw brings the image up first, and drops the area that this changed. */
    method DrawAll(clips: seq<Area>, luck: Luck)
      requires Tracks() && !stage.bounds.Empty() && stage.pending == []
      modifies stage, image, image.list, image.buf
      ensures Tracks() && stage.pending == [] && stage.bounds == old(stage.bounds)
      ensures Kin(old(image.list), old(image.buf))
      ensures stage.dirty == old(stage.dirty)
      ensures var from := if old(Has()) then 0 else First(luck, 0, |clips|);
              (Has() <==> old(Has()) || from < |clips|) &&
              forall x, y :: stage.screen(x, y) ==
                Seen(clips, from, |clips|, PictureIf(true), PictureIf(false), old(stage.screen), x, y)
    {
      hide Good, GoodLooks, GoodRays, GoodFit, WorldOf, SceneOf, Full, Shown, BaseKept, FitsIn, Kept, Seen;
      ghost var m, had, before := Now(), Has(), stage.screen;
      ghost var on, off := PictureIf(true), PictureIf(false);
      ghost var from := if had then 0 else First(luck, 0, |clips|);
      FitSees(stage.fit, stage.bounds);
      SeenFirst(clips, from, on, off, before);
      for i := 0 to |clips|
        invariant Tracks() && stage.pending == [] && Kin(old(image.list), old(image.buf)) && Now() == m
        invariant stage.bounds == old(stage.bounds) && stage.dirty == old(stage.dirty) && (Has() <==> had || from < i)
        invariant forall x, y :: stage.screen(x, y) == Seen(clips, from, i, on, off, before, x, y)
      {
        DrawOne(clips[i], luck(i));
        SeenNext(clips, from, i, on, off, before);
      }
    }

    method DrawOne(clip: Area, memory: Memory)
      requires Tracks() && Eye().s > 0.0
      modifies stage, image, image.list, image.buf
      ensures Tracks() && Kin(old(image.list), old(image.buf))
      ensures stage.bounds == old(stage.bounds) && stage.pending == old(stage.pending)
      ensures stage.dirty == old(stage.dirty)
      ensures Has() <==> memory.image || old(Has())
      ensures forall x, y ::
                stage.screen(x, y) == if clip.Has(x, y) then Full(PictureIf(Has()), x, y) else old(stage.screen)(x, y)
    {
      hide Good, GoodLooks, GoodRays, GoodFit, Full, BaseKept, FitsIn, Kept, SceneOf;
      ghost var m, h := Now(), Held();
      var base := UpdateImage(m, Moment(potato.phase, potato.sh), memory);
      WorldIsGood(looks, rays, m, Held());
      SameGame(looks, rays, m, h, Held());
      stage.Draw(clip, WorldOf(looks, rays, m, Held()));
    }

    lemma PictureIs()
      requires Tracks()
      ensures stage.Picture() == PictureIf(Has())
    {
    }

    /** A redraw shows the game if and only if it is safe. */
    method Redraw(cut: Cut, luck: Luck)
      requires Tracks() && Covering(cut)
      modifies stage, image, image.list, image.buf
      ensures Tracks() && stage.pending == [] && stage.bounds == old(stage.bounds)
      ensures Kin(old(image.list), old(image.buf))
      ensures old(Valid()) ==> (stage.Shows() <==> old(Safe(cut(stage.pending), luck))) && (stage.Shows() ==> Valid())
      ensures Has() <==>
                old(Has()) || (!stage.bounds.Empty() && exists k :: 0 <= k < |cut(old(stage.pending))| && luck(k).image)
      ensures forall x, y :: !Shown(cut(old(stage.pending)), x, y) ==> stage.screen(x, y) == old(stage.screen)(x, y)
      ensures stage.dirty == old(stage.dirty)
      ensures old(Settled()) && luck(0).image ==> Settled()
    {
      hide Good, GoodLooks, GoodRays, GoodFit, SceneOf, WorldOf, Full, Shown, FitsIn, Kept, Seen, First;
      ghost var right := Valid();
      PictureIs();
      ghost var had, before, was := Has(), stage.screen, stage.pending;
      var areas := stage.Flush();
      var clips := cut(areas);
      if stage.bounds.Empty() { return; }
      DrawAll(clips, luck);
      PictureIs();
      SeenOutside(clips, if had then 0 else First(luck, 0, |clips|), PictureIf(true), PictureIf(false), before);
      if right { RightIffSafe(clips, luck, was, had, PictureIf(true), PictureIf(false), before, stage.bounds); }
      if clips == [] { NothingShown(clips); }
    }

    /** The display redraws what it was asked for; whether it was safe, and whether it was right, is kept. */
    method Refresh(cut: Cut, luck: Luck)
      requires Tracks() && Covering(cut)
      modifies this`unsafe, this`lost, stage, image, image.list, image.buf
      ensures Tracks() && stage.pending == [] && stage.bounds == old(stage.bounds)
      ensures Kin(old(image.list), old(image.buf))
      ensures old(Valid()) ==> (stage.Shows() <==> old(Safe(cut(stage.pending), luck))) && (stage.Shows() ==> Valid())
      ensures unsafe == (old(unsafe) || !old(Safe(cut(stage.pending), luck))) && lost == (old(lost) || !stage.Shows())
      ensures Has() <==>
                old(Has()) || (!stage.bounds.Empty() && exists k :: 0 <= k < |cut(old(stage.pending))| && luck(k).image)
      ensures forall x, y :: !Shown(cut(old(stage.pending)), x, y) ==> stage.screen(x, y) == old(stage.screen)(x, y)
      ensures stage.dirty == old(stage.dirty)
      ensures old(Settled()) && luck(0).image ==> Settled()
    {
      hide Safe, Tracks, Valid, Has, Settled, Stage.Shows, Shown, Covering, Kin;
      ghost var safe := Safe(cut(stage.pending), luck);
      Redraw(cut, luck);
      unsafe, lost := unsafe || !safe, lost || !stage.Shows();
    }

    /** A redraw is safe when its first draw finds memory and the stage is settled, or when none does. */
    lemma SafeWhen(cut: Cut, luck: Luck)
      requires Covering(cut) && ((Settled() && luck(0).image) || forall k :: !luck(k).image)
      ensures Safe(cut(stage.pending), luck)
    {
      hide Full, Shown, SceneOf;
      var clips := cut(stage.pending);
      assert clips[0..] == clips;
    }

    /**
     Any run. The screen is right after every redraw if and only if every redraw is safe; and so they are when each
     finds memory for the image from its first draw on, or when none ever does.
     */
    method Play(events: seq<Event>)
      requires Valid() && !unsafe && !lost && forall e :: e in events ==> Fair(e)
      modifies this, stage, potato, image, image.list, image.buf
      ensures Tracks() && (lost <==> unsafe)
      ensures !lost ==> Valid() && (events != [] && events[|events| - 1].Refresh? ==> stage.Shows())
      ensures old(Settled()) && (forall e :: e in events && e.Refresh? ==> e.luck(0).image) ==> !lost
      ensures (forall e, k :: e in events && e.Refresh? ==> !e.luck(k).image) ==> !lost
    {
      hide Safe, Good, Kept, GoodLooks, GoodRays, GoodFit, WorldOf, Full, FitsIn, SceneOf, Shown, Settled, Covering,
        Ease;
      for i := 0 to |events|
        invariant Tracks() && (lost <==> unsafe) && (!lost ==> Valid())
        invariant !lost && i > 0 && events[i - 1].Refresh? ==> stage.Shows()
        invariant Kin(old(image.list), old(image.buf)) && (potato == old(potato) || fresh(potato))
        invariant old(Settled()) && (forall e :: e in events && e.Refresh? ==> e.luck(0).image) ==> Settled() && !lost
        invariant (forall e, k :: e in events && e.Refresh? ==> !e.luck(k).image) ==> !lost
      {
        var e := events[i];
        assert e in events;
        if e.Refresh? && ((Settled() && e.luck(0).image) || forall k :: !e.luck(k).image) { SafeWhen(e.cut, e.luck); }
        Happen(e);
      }
    }

    method Happen(e: Event)
      requires Tracks() && Fair(e)
      modifies this, stage, potato, image, image.list, image.buf
      ensures Tracks() && Kin(old(image.list), old(image.buf)) && (potato == old(potato) || fresh(potato))
      ensures e.Refresh? ==>
        unsafe == (old(unsafe) || !old(Safe(e.cut(stage.pending), e.luck))) && lost == (old(lost) || !stage.Shows())
      ensures !e.Refresh? ==> unsafe == old(unsafe) && lost == old(lost)
      ensures old(Valid()) && e.Refresh? ==>
        (stage.Shows() <==> old(Safe(e.cut(stage.pending), e.luck))) && (stage.Shows() ==> Valid())
      ensures old(Valid()) && !e.Refresh? ==> Valid()
      ensures old(Settled()) && (e.Refresh? ==> e.luck(0).image) ==> Settled()
    {
      hide Safe, Good, Kept, GoodLooks, GoodRays, GoodFit, WorldOf, Full, FitsIn, SceneOf, Shown, Covering, Ease;
      match e
      case Turn(notches) => Turn(notches);
      case Frame(dt, memory) => RunFrame(dt, memory);
      case NewPotato(looks, rays) => NewPotato(looks, rays);
      case Resize(b) => Resize(b);
      case Expose(a) => Expose(a);
      case Refresh(cut, luck) => Refresh(cut, luck);
    }

    method Resize(b: Area)
      requires Tracks()
      modifies stage
      ensures Tracks() && Valid() && Settled() && stage.bounds == b
    {
      hide Good, GoodLooks, GoodRays, GoodFit, WorldOf, Full, FitsIn, Shown, Kept;
      stage.Resize(b);
    }

    method Expose(a: Area)
      requires Tracks()
      modifies stage
      ensures Tracks() && (old(Valid()) ==> Valid()) && (old(Settled()) ==> Settled())
      ensures stage.bounds == old(stage.bounds)
      ensures stage.pending == old(stage.pending) + [a] && stage.screen == old(stage.screen) && (Has() <==> old(Has()))
      ensures stage.dirty == old(stage.dirty)
    {
      hide Good, GoodLooks, GoodRays, GoodFit, WorldOf, Full, FitsIn, Shown, Kept;
      stage.Ask([a]);
    }
  }

  /** After i draws: the picture with the potato where one of the draws from the first with an image on was. */
  ghost function Seen(clips: seq<Area>, from: nat, i: nat, on: Scene, off: Scene, before: (int, int) -> Colour,
                      x: int, y: int): Colour
    requires i <= |clips|
  {
    if from <= i && Shown(clips[from..i], x, y) then Full(on, x, y)
    else if Shown(clips[..i], x, y) then Full(off, x, y)
    else before(x, y)
  }

  lemma SeenNext(clips: seq<Area>, from: nat, i: nat, on: Scene, off: Scene, before: (int, int) -> Colour)
    requires i < |clips|
    ensures forall x, y ::
              Seen(clips, from, i + 1, on, off, before, x, y) ==
              if clips[i].Has(x, y) then Full(if from <= i then on else off, x, y)
              else Seen(clips, from, i, on, off, before, x, y)
  {
    hide Full, Shown;
    ShownNext(clips, i);
    if from <= i {
      assert clips[from..i + 1] == clips[from..i] + [clips[i]];
      Appended(clips[from..i], [clips[i]]);
      ShownOne(clips[i]);
    } else if from == i + 1 {
      NothingShown(clips[from..i + 1]);
    }
  }

  lemma SeenOutside(clips: seq<Area>, from: nat, on: Scene, off: Scene, before: (int, int) -> Colour)
    requires from <= |clips|
    ensures forall x, y :: !Shown(clips, x, y) ==> Seen(clips, from, |clips|, on, off, before, x, y) == before(x, y)
  {
    hide Full, Shown;
    assert clips[..|clips|] == clips && clips[..from] + clips[from..|clips|] == clips;
    Appended(clips[..from], clips[from..|clips|]);
  }

  lemma SeenFirst(clips: seq<Area>, from: nat, on: Scene, off: Scene, before: (int, int) -> Colour)
    ensures forall x, y :: Seen(clips, from, 0, on, off, before, x, y) == before(x, y)
  {
    NothingShown(clips[..0]);
    if from == 0 { NothingShown(clips[from..0]); }
  }

  /** A screen that was right but for the areas asked for is right after the draws, exactly when they are safe. */
  lemma RightIffSafe(clips: seq<Area>, luck: Luck, was: seq<Area>, had: bool, on: Scene, off: Scene,
                     before: (int, int) -> Colour, bounds: Area)
    requires forall x, y :: Shown(was, x, y) ==> Shown(clips, x, y)
    requires forall x, y ::
               bounds.Has(x, y) && !Shown(was, x, y) ==> before(x, y) == Full(if had then on else off, x, y)
    ensures var first := First(luck, 0, |clips|);
            var from := if had then 0 else first;
            var now := if had || from < |clips| then on else off;
            (forall x, y ::
               bounds.Has(x, y) ==> Seen(clips, from, |clips|, on, off, before, x, y) == Full(now, x, y)) <==>
            had || first == |clips| ||
            forall x, y :: bounds.Has(x, y) && Full(on, x, y) != Full(off, x, y) ==> Shown(clips[first..], x, y)
  {
    hide Full, Shown;
    var from := if had then 0 else First(luck, 0, |clips|);
    assert clips[..|clips|] == clips && clips[from..|clips|] == clips[from..];
    if from == |clips| { NothingShown(clips[from..]); }
  }

  lemma ShownOne(a: Area)
    ensures forall x, y :: Shown([a], x, y) <==> a.Has(x, y)
  {
    assert [a][0] == a;
  }

  lemma NoneFits(v: View)
    ensures !FitsIn(0, v)
  {
  }

  lemma FitSees(fit: Fit, bounds: Area)
    requires GoodFit(fit) && !bounds.Empty()
    ensures fit(1, bounds).s > 0.0
  {
  }

  lemma WorldStage(looks: Looks, rays: Rays, m: Moment, held: nat)
    ensures WorldOf(looks, rays, m, held).stage == 1
  {
  }

  // ---- A potato that is lost ----

  /** A grey potato, with nothing else on the stage. */
  function PlainLooks(): Looks {
    Looks(Art((_, _) => NO_AREA, (_, _, _, _, _, c) => c), Art((_, _) => NO_AREA, (_, _, _, _, _, c) => c),
          _ => 0.0, _ => seq(STRIPS, _ => 2.0), (p, _) => p)
  }

  function PlainRays(): Rays { l => seq(Side(l) * Side(l), n requires 0 <= n => Covered(Px(n, 0.0, 1, 1, 1, 0, 0))) }

  function PlainFit(): Fit { (_, _) => View(1.0, 0.0, 0.0) }

  lemma PlainIsGood()
    ensures GoodLooks(PlainLooks()) && GoodRays(PlainRays()) && GoodFit(PlainFit())
  {
  }

  /** Its middle is grey when there is an image of it, and black else. */
  lemma PlainMiddle(m: Moment, has: bool)
    ensures Full(SceneOf(PlainLooks(), PlainRays(), m, has, View(1.0, 0.0, 0.0)), 3, 3) == if has then 1 else 0
  {
    var v := View(1.0, 0.0, 0.0);
    var l := LayoutOf(PlainLooks(), m, v);
    assert HalfSide(l) == 5;
    assert FrameOf(l) == StripIndex.Frame(10, -6, -5);
    PlainIsGood();
    assert GoodCast(PlainRays()(l));
    assert PotatoPixel(PlainLooks(), PlainRays(), m, has, v, 3, 3, 0) == if has then 1 else 0;
  }

  ghost predicate Plain(s: Screen)
    reads s, s.stage
  {
    s.looks == PlainLooks() && s.rays == PlainRays() && s.stage.fit == PlainFit() && s.stage.bounds == Area(0, 0, 3, 3)
  }

  /** The stage shows the potato exactly when its middle is grey where it should be. */
  lemma ShowsMiddle(s: Screen)
    requires Plain(s) && s.Tracks()
    ensures s.stage.Shows() ==> s.stage.screen(3, 3) == if s.Has() then 1 else 0
  {
    hide Full, SceneOf, Good, Kept, GoodLooks, GoodRays, GoodFit, FitsIn, WorldOf, PlainLooks, PlainRays;
    PlainMiddle(s.Now(), s.Has());
    s.PictureIs();
  }

  function AsAsked(): Cut { areas => areas }

  lemma AsAskedCovers()
    ensures Covering(AsAsked()) && forall areas :: AsAsked()(areas) == areas
  {
    hide Shown;
  }

  function Always(memory: Memory): Luck { _ => memory }

  const NOTHING := Memory(false, 0, false)
  const ENOUGH := Memory(true, 1000, true)

  /** No memory for a frame and a redraw: the stage is right, without a potato. */
  method WithoutPotato() returns (s: Screen)
    ensures fresh(s) && fresh(s.stage) && fresh(s.image) && fresh(s.image.list) && fresh(s.potato)
    ensures s.image.buf == null || fresh(s.image.buf)
    ensures Plain(s) && s.Valid() && s.stage.Shows() && !s.Has() && s.stage.dirty.valid && s.stage.pending == []
    ensures !s.unsafe && !s.lost && !s.AnyMoves()
  {
    hide Good, GoodLooks, GoodRays, GoodFit, Covering, PlainLooks, PlainRays, AsAsked, Screen.Safe, Screen.Tracks,
      Screen.Settled, Screen.Has, Screen.AnyMoves, Stage.Shows, Stage.Valid;
    PlainIsGood();
    AsAskedCovers();
    s := new Screen(PlainFit(), Area(0, 0, 3, 3), PlainLooks(), PlainRays());
    s.RunFrame(0.0, NOTHING);
    s.SafeWhen(AsAsked(), Always(NOTHING));
    s.Refresh(AsAsked(), Always(NOTHING));
  }

  /** A corner is exposed and its redraw finds memory for the image. */
  lemma CornerIsUnsafe(s: Screen)
    requires Plain(s) && s.Tracks() && !s.Has()
    ensures !s.Safe([Area(0, 0, 0, 0)], Always(ENOUGH))
  {
    hide Full, SceneOf, Good, Kept, GoodLooks, GoodRays, GoodFit, FitsIn, WorldOf, PlainLooks, PlainRays;
    PlainMiddle(s.Now(), true);
    PlainMiddle(s.Now(), false);
    var clips := [Area(0, 0, 0, 0)];
    assert clips[0..] == clips;
    ShownOne(clips[0]);
    assert s.PictureIf(true) == SceneOf(PlainLooks(), PlainRays(), s.Now(), true, View(1.0, 0.0, 0.0));
    assert s.PictureIf(false) == SceneOf(PlainLooks(), PlainRays(), s.Now(), false, View(1.0, 0.0, 0.0));
    assert s.stage.bounds.Has(3, 3) && !clips[0].Has(3, 3);
  }

  /**
   A frame and a redraw find no memory for the image; a corner is exposed and its redraw finds some. The potato is
   then in the corner only, and the next frame and redraw leave it so.
   */
  method LosePotato() returns (s: Screen)
    ensures fresh(s) && s.Tracks() && s.Has() && s.stage.pending == [] && s.lost && s.unsafe && !s.stage.Shows()
  {
    hide Good, GoodLooks, GoodRays, GoodFit, Covering, PlainLooks, PlainRays, AsAsked, Screen.Safe, Screen.Tracks,
      Screen.Settled, Screen.Has, Screen.AnyMoves, Stage.Shows, Stage.Valid, Shown;
    AsAskedCovers();
    s := WithoutPotato();
    ShowsMiddle(s);
    ShownOne(Area(0, 0, 0, 0));
    s.Expose(Area(0, 0, 0, 0));
    CornerIsUnsafe(s);
    assert AsAsked()(s.stage.pending) == [Area(0, 0, 0, 0)];
    s.Refresh(AsAsked(), Always(ENOUGH));
    NothingShown([]);
    s.RunFrame(0.0, ENOUGH);
    s.Refresh(AsAsked(), Always(ENOUGH));
    ShowsMiddle(s);
  }
}
