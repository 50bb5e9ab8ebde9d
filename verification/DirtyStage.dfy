/**
 The Kitchen's stage: a frame has only the old and new areas of the parts that moved redrawn, and a
 draw skips the parts that miss its clip area. The screen must be what a full redraw would show.
 */
module DirtyStage {
  import opened Areas
  import opened AreaLists

  datatype Part = Knife | Cuke | Fly | Peeler | Shavings

  datatype Layer = Board | CukeBack | KnifeLayer | CukeFront | Pile | Flying | Potato | Ribbon | ShavingsLayer
    | PeelerLayer

  /** Back to front. */
  function Order(stage: int): seq<Layer> {
    if stage == 1 then [Potato, Ribbon, ShavingsLayer, PeelerLayer]
    else [Board, CukeBack, KnifeLayer, CukeFront, Pile, Flying]
  }

  /** The part a layer belongs to; the board, the pile and the potato are drawn whatever moved. */
  predicate Owns(p: Part, l: Layer) {
    match l
    case CukeBack | CukeFront => p == Cuke
    case KnifeLayer => p == Knife
    case Flying => p == Fly
    case Ribbon | PeelerLayer => p == Peeler
    case ShavingsLayer => p == Shavings
    case Board | Pile | Potato => false
  }

  const ALL := [Knife, Cuke, Fly, Peeler, Shavings]

  /** The parts of a stage, in the order a frame looks at them. */
  function PartsOf(stage: int): seq<Part> {
    if stage == 1 then [Peeler, Shavings] else [Knife, Cuke, Fly]
  }

  /**
   What there is to draw: how each layer changes a pixel (blending over what is behind it), and the area
   each part measures.
   */
  datatype Scene = Scene(stage: int, view: View, paint: (Layer, int, int, Colour) -> Colour, area: Part -> Area)

  /** Parts paint inside the area they measure. */
  ghost predicate PaintsInside(sc: Scene) {
    forall p: Part, l: Layer, x: int, y: int, c: Colour ::
      Owns(p, l) && !sc.area(p).Has(x, y) ==> sc.paint(l, x, y, c) == c
  }

  const BACKGROUND: Colour := 0

  function Compose(layers: seq<Layer>, sc: Scene, x: int, y: int, c: Colour): Colour {
    if layers == [] then c else Compose(layers[1..], sc, x, y, sc.paint(layers[0], x, y, c))
  }

  /** The pixel of a full redraw. */
  function Full(sc: Scene, x: int, y: int): Colour {
    Compose(Order(sc.stage), sc, x, y, BACKGROUND)
  }

  predicate OnStage(stage: int, l: Layer) {
    (stage == 1) == (l.Potato? || l.Ribbon? || l.ShavingsLayer? || l.PeelerLayer?)
  }

  /**
   How near a layer is. The board is behind all, the knife between the two parts of the cucumber, the pile and then
   what flies before them; the potato is behind its peel, that behind the peels in the air, and the peeler is nearest.
   */
  function Nearness(l: Layer): nat {
    match l
    case Board | Potato => 0
    case CukeBack | Ribbon => 1
    case KnifeLayer | ShavingsLayer => 2
    case CukeFront | PeelerLayer => 3
    case Pile => 4
    case Flying => 5
  }

  ghost predicate Clear(sc: Scene, l: Layer, x: int, y: int) { forall c: Colour :: sc.paint(l, x, y, c) == c }

  ghost predicate Solid(sc: Scene, l: Layer, x: int, y: int, colour: Colour) {
    forall c: Colour :: sc.paint(l, x, y, c) == colour
  }

  lemma OneLayer(layers: seq<Layer>, sc: Scene, x: int, y: int, c: Colour)
    requires layers != []
    ensures Compose(layers, sc, x, y, c) == Compose(layers[1..], sc, x, y, sc.paint(layers[0], x, y, c))
  {
  }

  /** Layers that are clear at a pixel show what is behind them. */
  lemma {:induction false} AllClear(layers: seq<Layer>, sc: Scene, x: int, y: int, c: Colour)
    requires forall i :: 0 <= i < |layers| ==> Clear(sc, layers[i], x, y)
    ensures Compose(layers, sc, x, y, c) == c
  {
    if layers != [] {
      assert Clear(sc, layers[0], x, y);
      AllClear(layers[1..], sc, x, y, c);
    }
  }

  /** Layers from a solid one on, the rest of them clear, show the solid one's colour. */
  lemma {:induction false} SolidShows(layers: seq<Layer>, k: nat, sc: Scene, x: int, y: int, colour: Colour, c: Colour)
    requires k < |layers| && Solid(sc, layers[k], x, y, colour)
    requires forall i :: k < i < |layers| ==> Clear(sc, layers[i], x, y)
    ensures Compose(layers, sc, x, y, c) == colour
  {
    if k == 0 {
      AllClear(layers[1..], sc, x, y, colour);
    } else {
      SolidShows(layers[1..], k - 1, sc, x, y, colour, sc.paint(layers[0], x, y, c));
    }
  }

  /** A pixel is of the nearest layer's colour: of a solid one, if all that is nearer is clear there. */
  lemma NearestShows(sc: Scene, x: int, y: int, l: Layer, colour: Colour)
    requires OnStage(sc.stage, l) && Solid(sc, l, x, y, colour)
    requires forall n: Layer :: OnStage(sc.stage, n) && Nearness(n) > Nearness(l) ==> Clear(sc, n, x, y)
    ensures Full(sc, x, y) == colour
  {
    SolidShows(Order(sc.stage), Nearness(l), sc, x, y, colour, BACKGROUND);
    hide Solid, Clear;
  }

  // ---- Drawing through a clip area ----

  predicate Misses(a: Area, clip: Area) {
    a.x2 < clip.x1 || a.x1 > clip.x2 || a.y2 < clip.y1 || a.y1 > clip.y2
  }

  /** What the frame keeps between draws. */
  datatype Dirty = Dirty(valid: bool, stage: int, view: View, part: Part -> Area)

  predicate Same(d: Dirty, stage: int, view: View) { d.valid && d.stage == stage && d.view == view }

  /** Whether a part needs drawing in this clip area. */
  predicate PartHit(d: Dirty, sc: Scene, clip: Area, p: Part) {
    !Same(d, sc.stage, sc.view) || (!d.part(p).Empty() && !Misses(d.part(p), clip))
  }

  predicate Skipped(d: Dirty, sc: Scene, clip: Area, l: Layer) {
    exists p: Part :: Owns(p, l) && !PartHit(d, sc, clip, p)
  }

  function ComposeHit(layers: seq<Layer>, d: Dirty, sc: Scene, clip: Area, x: int, y: int, c: Colour): Colour {
    if layers == [] then c
    else ComposeHit(layers[1..], d, sc, clip, x, y,
                    if Skipped(d, sc, clip, layers[0]) then c else sc.paint(layers[0], x, y, c))
  }

  /** The pixel a draw with this clip area gives. */
  function Drawn(d: Dirty, sc: Scene, clip: Area, x: int, y: int): Colour {
    ComposeHit(Order(sc.stage), d, sc, clip, x, y, BACKGROUND)
  }

  /** The kept areas are the measured ones. */
  ghost predicate Current(d: Dirty, sc: Scene) {
    Same(d, sc.stage, sc.view) ==> forall p :: p in PartsOf(sc.stage) ==> d.part(p) == sc.area(p)
  }

  lemma OwnersOnStage(p: Part, l: Layer, stage: int)
    requires l in Order(stage) && Owns(p, l)
    ensures p in PartsOf(stage)
  {
  }

  lemma {:induction false} SkippingIsSafe(layers: seq<Layer>, d: Dirty, sc: Scene, clip: Area, x: int, y: int,
                                          c: Colour)
    requires PaintsInside(sc) && Current(d, sc) && clip.Has(x, y)
    requires forall l :: l in layers ==> l in Order(sc.stage)
    ensures ComposeHit(layers, d, sc, clip, x, y, c) == Compose(layers, sc, x, y, c)
    decreases |layers|
  {
    hide Order, PartsOf, Owns;
    if layers != [] {
      var l := layers[0];
      if Skipped(d, sc, clip, l) {
        var p: Part :| Owns(p, l) && !PartHit(d, sc, clip, p);
        OwnersOnStage(p, l, sc.stage);
        assert !sc.area(p).Has(x, y);
      }
      SkippingIsSafe(layers[1..], d, sc, clip, x, y, sc.paint(l, x, y, c));
    }
  }

  /** Inside its clip area, a draw that skips parts shows the full picture. */
  lemma DrawnIsFull(d: Dirty, sc: Scene, clip: Area, x: int, y: int)
    requires PaintsInside(sc) && Current(d, sc) && clip.Has(x, y)
    ensures Drawn(d, sc, clip, x, y) == Full(sc, x, y)
  {
    SkippingIsSafe(Order(sc.stage), d, sc, clip, x, y, BACKGROUND);
  }

  // ---- What a step may change ----

  /** What is drawn whatever moved changes only inside this area. */
  ghost predicate BaseKept(was: Scene, now: Scene, base: Area) {
    forall l: Layer, x: int, y: int, c: Colour ::
      l in Order(now.stage) && (forall p: Part :: !Owns(p, l)) && !base.Has(x, y) ==>
        now.paint(l, x, y, c) == was.paint(l, x, y, c)
  }

  /**
   A step from one scene to the next on the same stage and view: a part without its moved flag keeps its
   look and its area, and what is drawn whatever moved changes only inside the area its update reports.
   */
  ghost predicate Moves(was: Scene, now: Scene, moved: set<Part>, base: Area) {
    was.stage == now.stage && was.view == now.view &&
    (forall p: Part :: p !in moved ==> now.area(p) == was.area(p)) &&
    (forall p: Part, l: Layer, x: int, y: int, c: Colour ::
       Owns(p, l) && p !in moved ==> now.paint(l, x, y, c) == was.paint(l, x, y, c)) &&
    BaseKept(was, now, base)
  }

  /** A point that no moved part covers, before or after, and the base update does not report. */
  ghost predicate Untouched(was: Scene, now: Scene, moved: set<Part>, base: Area, x: int, y: int) {
    !base.Has(x, y) &&
    forall p :: p in PartsOf(now.stage) && p in moved ==> !was.area(p).Has(x, y) && !now.area(p).Has(x, y)
  }

  lemma {:induction false} ComposeUntouched(layers: seq<Layer>, was: Scene, now: Scene, moved: set<Part>, base: Area,
                                            x: int, y: int, c: Colour)
    requires PaintsInside(was) && PaintsInside(now) && Moves(was, now, moved, base)
    requires Untouched(was, now, moved, base, x, y)
    requires forall l :: l in layers ==> l in Order(now.stage)
    ensures Compose(layers, now, x, y, c) == Compose(layers, was, x, y, c)
    decreases |layers|
  {
    if layers != [] {
      LayerUntouched(layers[0], was, now, moved, base, x, y, c);
      ComposeUntouched(layers[1..], was, now, moved, base, x, y, now.paint(layers[0], x, y, c));
    }
  }

  lemma LayerUntouched(l: Layer, was: Scene, now: Scene, moved: set<Part>, base: Area, x: int, y: int, c: Colour)
    requires PaintsInside(was) && PaintsInside(now) && Moves(was, now, moved, base)
    requires Untouched(was, now, moved, base, x, y) && l in Order(now.stage)
    ensures now.paint(l, x, y, c) == was.paint(l, x, y, c)
  {
    hide Order, PartsOf, Owns;
    if p: Part :| Owns(p, l) {
      OwnersOnStage(p, l, now.stage);
      if p in moved {
        assert now.paint(l, x, y, c) == c;
        assert was.paint(l, x, y, c) == c;
      }
    }
  }

  /** So nothing changes there. */
  lemma UntouchedStays(was: Scene, now: Scene, moved: set<Part>, base: Area, x: int, y: int)
    requires PaintsInside(was) && PaintsInside(now) && Moves(was, now, moved, base)
    requires Untouched(was, now, moved, base, x, y)
    ensures Full(now, x, y) == Full(was, x, y)
  {
    ComposeUntouched(Order(now.stage), was, now, moved, base, x, y, BACKGROUND);
  }

  // ---- The stage object ----

  /** An area with room for the moved ones of these parts, as they were and as they are. */
  ghost predicate Holds(w: Area, parts: seq<Part>, moved: set<Part>, was: Part -> Area, now: Part -> Area) {
    forall i :: 0 <= i < |parts| && parts[i] in moved ==> w.Covers(was(parts[i])) && w.Covers(now(parts[i]))
  }

  lemma NoneInside(a: seq<Area>)
    requires a == []
    ensures forall w: Area :: AllIn(a, w)
  {
  }

  lemma HoldsNext(parts: seq<Part>, i: nat, moved: set<Part>, was: Part -> Area, now: Part -> Area)
    requires i < |parts|
    ensures forall w: Area ::
              Holds(w, parts[..i + 1], moved, was, now) ==>
                Holds(w, parts[..i], moved, was, now) &&
                (parts[i] in moved ==> w.Covers(was(parts[i])) && w.Covers(now(parts[i])))
  {
    forall w: Area | Holds(w, parts[..i + 1], moved, was, now)
      ensures Holds(w, parts[..i], moved, was, now) &&
              (parts[i] in moved ==> w.Covers(was(parts[i])) && w.Covers(now(parts[i])))
    {
      assert parts[..i + 1][i] == parts[i];
      forall k | 0 <= k < i && parts[k] in moved ensures w.Covers(was(parts[k])) && w.Covers(now(parts[k])) {
        assert parts[..i + 1][k] == parts[k];
      }
    }
  }

  /** What there is to draw, seen through any view. */
  datatype World = World(stage: int, at: View -> Scene)

  ghost predicate Good(w: World) {
    forall v: View :: w.at(v).stage == w.stage && w.at(v).view == v && PaintsInside(w.at(v))
  }

  /** A frame as the simulation hands it over. */
  datatype Frame = Frame(now: World, moved: set<Part>, base: Area)

  /** Nothing changes, in any view. */
  ghost predicate Rests(was: World, now: World) { forall u: View :: Moves(was.at(u), now.at(u), {}, NO_AREA) }

  /** The frame is a step of the simulation, seen through view v; one that moves nothing changes no view. */
  ghost predicate Steps(was: World, f: Frame, v: View) {
    was.stage == f.now.stage && Good(f.now) && Moves(was.at(v), f.now.at(v), f.moved, f.base) &&
    (f.moved == {} ==> Rests(was, f.now))
  }

  /** What a stage asks of a frame, with these kept areas: a step, but for what is redrawn as a whole. */
  ghost predicate StepsFor(was: World, f: Frame, v: View, d: Dirty, bounds: Area) {
    was.stage == f.now.stage && Good(f.now) &&
    (!bounds.Empty() && Same(d, f.now.stage, v) ==> Moves(was.at(v), f.now.at(v), f.moved, f.base)) &&
    (d.valid && f.moved == {} ==> Rests(was, f.now))
  }

  /** How the display joins the areas it is asked for and cuts them into clips: they still cover all of it. */
  type Cut = seq<Area> -> seq<Area>

  ghost predicate Covering(cut: Cut) {
    forall areas: seq<Area>, x: int, y: int :: Shown(areas, x, y) ==> Shown(cut(areas), x, y)
  }

  /**
   What happens to a stage: a frame, a new game or stage, a new place on the screen, an area that the display
   must redraw for reasons of its own, and the redrawing of all that was asked for.
   */
  datatype Event = Tick(f: Frame) | Restart(now: World) | Resize(bounds: Area) | Expose(a: Area) | Refresh(cut: Cut)

  /** How a rectangle is viewed in a stage. */
  type Fit = (int, Area) -> View

  /** Every frame is a step from the world there is, in the view there is. */
  ghost predicate Linked(w: World, bounds: Area, fit: Fit, events: seq<Event>)
    decreases |events|
  {
    events == [] ||
    var rest := events[1..];
    match events[0]
    case Tick(f) => Steps(w, f, fit(w.stage, bounds)) && Linked(f.now, bounds, fit, rest)
    case Restart(now) => Good(now) && Linked(now, bounds, fit, rest)
    case Resize(b) => Linked(w, b, fit, rest)
    case Expose(_) => Linked(w, bounds, fit, rest)
    case Refresh(cut) => Covering(cut) && Linked(w, bounds, fit, rest)
  }

  /** The world that a run leaves. */
  ghost function WorldAfter(w: World, events: seq<Event>): World {
    if events == [] then w
    else
      match events[|events| - 1]
      case Tick(f) => f.now
      case Restart(now) => now
      case Resize(_) => WorldAfter(w, events[..|events| - 1])
      case Expose(_) => WorldAfter(w, events[..|events| - 1])
      case Refresh(_) => WorldAfter(w, events[..|events| - 1])
  }

  /** The kept areas are those of this world, in the view they were measured in. */
  ghost predicate Kept(d: Dirty, w: World) {
    d.valid ==> d.stage == w.stage && forall p :: p in PartsOf(w.stage) ==> d.part(p) == w.at(d.view).area(p)
  }

  lemma GoodAt(w: World, v: View)
    requires Good(w)
    ensures w.at(v).stage == w.stage && w.at(v).view == v && PaintsInside(w.at(v))
  {
  }

  lemma KeptIsCurrent(d: Dirty, w: World, v: View)
    requires Good(w) && Kept(d, w)
    ensures Current(d, w.at(v))
  {
  }

  class Stage {
    /** The view of a stage in a rectangle. */
    const fit: Fit
    /** The stage's own rectangle: empty until it has a size. */
    var bounds: Area
    var dirty: Dirty
    /** What is asked to be redrawn, until the display gets to it. */
    var pending: seq<Area>
    ghost var screen: (int, int) -> Colour
    ghost var world: World

    ghost function Picture(): Scene
      reads this
    {
      world.at(fit(world.stage, bounds))
    }

    /** The kept areas are the world's own. */
    ghost predicate Tracks()
      reads this
    {
      Good(world) && Kept(dirty, world)
    }

    /** And but for what is to be redrawn the screen shows the world. */
    ghost predicate Valid()
      reads this
    {
      Tracks() &&
      forall x, y :: bounds.Has(x, y) && !Shown(pending, x, y) ==> screen(x, y) == Full(Picture(), x, y)
    }

    /** The screen shows the world. */
    ghost predicate Shows()
      reads this
    {
      forall x, y :: bounds.Has(x, y) ==> screen(x, y) == Full(Picture(), x, y)
    }

    constructor (fit: Fit, bounds: Area, ghost w: World)
      requires Good(w)
      ensures Valid() && !dirty.valid && world == w && this.bounds == bounds && this.fit == fit
    {
      this.fit := fit;
      this.bounds := bounds;
      dirty := Dirty(false, 0, View(0.0, 0.0, 0.0), _ => NO_AREA);
      pending := [bounds];
      screen := (x, y) => BACKGROUND;
      world := w;
      new;
      ShownMember(pending, bounds);
      hide Shown, Full, PaintsInside;
    }

    /** A new game or the next stage: nothing kept can be trusted, and the whole stage is to be redrawn. */
    method Reset(ghost w: World)
      requires Good(w)
      modifies this`dirty, this`pending, this`world
      ensures Valid() && !dirty.valid && world == w
      ensures forall x, y :: bounds.Has(x, y) ==> Shown(pending, x, y)
    {
      hide Shown, Full, PaintsInside;
      dirty := dirty.(valid := false);
      world := w;
      Ask([bounds]);
      ShownMember([bounds], bounds);
    }

    /** The stage is laid out anew; the display redraws a widget that changes its place or size. */
    method Resize(b: Area)
      requires Tracks()
      modifies this`bounds, this`pending
      ensures Tracks() && Valid() && bounds == b && forall x, y :: b.Has(x, y) ==> Shown(pending, x, y)
    {
      hide Shown, Full, PaintsInside;
      bounds := b;
      Ask([b]);
      ShownMember([b], b);
    }

    /** Ask for areas to be redrawn. */
    method Ask(areas: seq<Area>)
      modifies this`pending
      ensures pending == old(pending) + areas
      ensures forall x, y :: Shown(pending, x, y) <==> Shown(old(pending), x, y) || Shown(areas, x, y)
      ensures old(Valid()) ==> Valid()
    {
      hide Shown;
      Appended(pending, areas);
      pending := pending + areas;
    }

    /**
     The stage is drawn through a clip. What there is to draw may change as it is drawn, but for the areas of
     its parts.
     */
    method Draw(clip: Area, ghost now: World)
      requires Tracks() && Good(now) && SameAreas(world, now)
      modifies this`screen, this`world
      ensures Tracks() && world == now
      ensures forall x, y :: screen(x, y) == if clip.Has(x, y) then Full(Picture(), x, y) else old(screen)(x, y)
    {
      hide Full, PaintsInside, Current, Drawn, Good, Kept;
      KeptStays(dirty, world, now);
      world := now;
      ghost var sc, d, before := Picture(), dirty, screen;
      KeptIsCurrent(d, world, sc.view);
      GoodAt(world, fit(world.stage, bounds));
      screen := (x, y) => if clip.Has(x, y) then Drawn(d, sc, clip, x, y) else before(x, y);
      forall x, y | clip.Has(x, y) ensures screen(x, y) == Full(sc, x, y) {
        DrawnIsFull(d, sc, clip, x, y);
      }
    }

    /** Nothing is left to be redrawn. */
    method Flush() returns (areas: seq<Area>)
      modifies this`pending
      ensures pending == [] && areas == old(pending)
    {
      areas := pending;
      pending := [];
    }

    /** The display redraws what it was asked to, clip by clip, of a world that stands still meanwhile. */
    method Refresh(cut: Cut)
      requires Tracks() && Covering(cut)
      modifies this`screen, this`pending, this`world
      ensures Tracks() && pending == [] && world == old(world)
      ensures old(Valid()) ==> Valid() && Shows()
      ensures forall x, y :: !Shown(cut(old(pending)), x, y) ==> screen(x, y) == old(screen)(x, y)
    {
      hide Shown, Full, PaintsInside, Good, Kept;
      SameAreasRefl(world);
      var areas := Flush();
      var clips := cut(areas);
      NothingShown(clips[..0]);
      ghost var sc := Picture();
      for i := 0 to |clips|
        invariant Tracks() && world == old(world) && pending == []
        invariant forall x, y :: screen(x, y) == if Shown(clips[..i], x, y) then Full(sc, x, y) else old(screen)(x, y)
      {
        ShownNext(clips, i);
        Draw(clips[i], world);
      }
      assert clips[..|clips|] == clips;
      assert forall x, y :: Shown(areas, x, y) ==> Shown(clips, x, y);
    }

    /** Measure a part, and list the area it had and the one it has. */
    method Measure(list: AreaList, p: Part, sc: Scene)
      requires list.Valid()
      modifies this`dirty, list
      ensures list.Valid() && dirty == old(dirty).(part := dirty.part)
      ensures forall q: Part :: dirty.part(q) == if q == p then sc.area(p) else old(dirty.part)(q)
      ensures forall x, y :: Shown(old(list.a), x, y) || old(dirty.part)(p).Has(x, y) || sc.area(p).Has(x, y) ==>
                               Shown(list.a, x, y)
      ensures forall w: Area :: AllIn(old(list.a), w) && w.Covers(old(dirty.part)(p)) && w.Covers(sc.area(p)) ==>
                                  AllIn(list.a, w)
    {
      hide Shown, Area.Has, PaintsInside, AllIn;
      list.Add(dirty.part(p));
      var was := dirty.part;
      dirty := dirty.(part := q => if q == p then sc.area(q) else was(q));
      list.Add(dirty.part(p));
    }

    /** Measure the moved parts and list what must be redrawn. */
    method InvalidateMoved(f: Frame) returns (areas: seq<Area>)
      requires Good(f.now)
      modifies this`dirty
      ensures bounds.Empty() ==> !dirty.valid && areas == [bounds]
      ensures var sc, same := f.now.at(fit(f.now.stage, bounds)),
        old(Same(dirty, f.now.stage, fit(f.now.stage, bounds)));
              !bounds.Empty() ==>
                dirty.valid && dirty.stage == sc.stage && dirty.view == sc.view &&
                (!same ==> bounds in areas) &&
                (forall p :: p in PartsOf(sc.stage) ==> dirty.part(p) == if !same || p in f.moved then sc.area(p)
                  else old(dirty.part)(p)) &&
                (same ==>
                   (forall x, y :: f.base.Has(x, y) ==> Shown(areas, x, y)) &&
                   (forall p, x, y ::
                      p in PartsOf(sc.stage) && p in f.moved &&
                      (old(dirty.part)(p).Has(x, y) || sc.area(p).Has(x, y)) ==>
                        Shown(areas, x, y)) &&
                   (forall w: Area ::
                      w.Covers(f.base) && Holds(w, PartsOf(sc.stage), f.moved, old(dirty.part), sc.area) ==>
                        AllIn(areas, w)))
    {
      hide Shown, AreaLists.Mergeable, Area.Has, PaintsInside, AllIn, Holds, AreaLists.FirstPartner;
      if bounds.Empty() {
        dirty := dirty.(valid := false);
        return [bounds];
      }
      var list := new AreaList();
      var sc := f.now.at(fit(f.now.stage, bounds));
      var same := Same(dirty, sc.stage, sc.view);
      var moved := f.moved;
      areas := [];
      NoneInside(list.a);
      if same {
        list.Add(f.base);
      } else {
        areas := [bounds];
        dirty := Dirty(true, sc.stage, sc.view, _ => NO_AREA);
        moved := set p | p in ALL;
      }
      var parts := PartsOf(sc.stage);
      ghost var before := dirty.part;
      for i := 0 to |parts|
        invariant list.Valid() && fresh(list)
        invariant dirty.valid && dirty.stage == sc.stage && dirty.view == sc.view
        invariant forall p: Part :: dirty.part(p) == if p in parts[..i] && p in moved then sc.area(p) else before(p)
        invariant same ==> forall x, y :: f.base.Has(x, y) ==> Shown(list.a, x, y)
        invariant forall p, x, y :: p in parts[..i] && p in moved && (before(p).Has(x, y) || sc.area(p).Has(x, y)) ==>
                                      Shown(list.a, x, y)
        invariant forall w: Area :: (same ==> w.Covers(f.base)) && Holds(w, parts[..i], moved, before, sc.area) ==>
                                      AllIn(list.a, w)
      {
        var p := parts[i];
        HoldsNext(parts, i, moved, before, sc.area);
        assert parts[..i + 1] == parts[..i] + [p];
        assert p !in parts[..i];
        if p in moved {
          Measure(list, p, sc);
        }
      }
      assert parts[..|parts|] == parts;
      var merged := list.Flush();
      assert same ==> areas + merged == merged;
      Appended(areas, merged);
      areas := areas + merged;
    }

    /** One frame: nothing to do when nothing moved and the kept areas stand, else ask for what moved. */
    method RunFrame(f: Frame)
      requires Tracks() && StepsFor(world, f, fit(world.stage, bounds), dirty, bounds)
      modifies this`dirty, this`pending, this`world
      ensures Tracks() && world == f.now && (old(Valid()) ==> Valid())
      ensures forall x, y :: Shown(old(pending), x, y) ==> Shown(pending, x, y)
      ensures old(dirty).valid && f.moved == {} ==> pending == old(pending) && dirty == old(dirty)
      ensures !(old(dirty).valid && f.moved == {}) ==>
        dirty.valid == !bounds.Empty() && (dirty.valid ==> dirty.view == fit(world.stage, bounds))
    {
      hide Full, PaintsInside, Shown, Moves, Area.Has, Good, Kept, Rests;
      ghost var was, v, d := world, fit(world.stage, bounds), dirty;
      world := f.now;
      if f.moved == {} && dirty.valid {
        StillKept(was, f, d);
        forall x, y ensures Full(f.now.at(v), x, y) == Full(was.at(v), x, y) {
          NothingStays(was, f, v, x, y);
        }
        return;
      }
      GoodAt(f.now, v);
      var areas := InvalidateMoved(f);
      Ask(areas);
      MovedKept(was, f, v, d, dirty);
      if bounds.Empty() || !Same(d, f.now.stage, v) {
        ShownMember(areas, bounds);
        assert forall x, y :: bounds.Has(x, y) ==> Shown(pending, x, y);
      } else {
        forall x, y | !Shown(areas, x, y) ensures Full(f.now.at(v), x, y) == Full(was.at(v), x, y) {
          OutsideStays(was, f, v, d, areas, x, y);
        }
      }
    }

    /** Any run of frames, restarts, resizes and redraws, in any order. */
    method Play(events: seq<Event>)
      requires Valid() && Linked(world, bounds, fit, events)
      modifies this
      ensures Valid() && world == WorldAfter(old(world), events)
      ensures events != [] && events[|events| - 1].Refresh? ==> Shows()
    {
      hide Full, PaintsInside, Steps, StepsFor, Good, Kept, Covering, Shows;
      for i := 0 to |events|
        invariant Valid() && Linked(world, bounds, fit, events[i..]) && world == WorldAfter(old(world), events[..i])
        invariant i > 0 && events[i - 1].Refresh? ==> Shows()
      {
        assert events[i..][1..] == events[i + 1..] && events[..i + 1][..i] == events[..i];
        match events[i]
        case Tick(f) =>
          StepsAre(world, f, fit(world.stage, bounds), dirty, bounds);
          RunFrame(f);
        case Restart(now) => Reset(now);
        case Resize(b) => Resize(b);
        case Expose(a) => Ask([a]);
        case Refresh(cut) => Refresh(cut);
      }
      assert events[..|events|] == events;
    }
  }

  lemma StepsAre(was: World, f: Frame, v: View, d: Dirty, bounds: Area)
    requires Steps(was, f, v)
    ensures StepsFor(was, f, v, d, bounds)
  {
  }

  /** The parts measure the same in every view. */
  ghost predicate SameAreas(was: World, now: World) {
    was.stage == now.stage && forall u: View, p: Part :: now.at(u).area(p) == was.at(u).area(p)
  }

  lemma StillRests(w: World)
    ensures Rests(w, w)
  {
  }

  lemma StillMoves(w: World, v: View)
    requires Rests(w, w)
    ensures Moves(w.at(v), w.at(v), {}, NO_AREA)
  {
  }

  lemma SameAreasRefl(w: World)
    ensures SameAreas(w, w)
  {
  }

  lemma KeptStays(d: Dirty, was: World, now: World)
    requires Kept(d, was) && SameAreas(was, now)
    ensures Kept(d, now)
  {
  }

  /** A frame that moves nothing leaves the kept areas those of the world, whatever view they were measured in. */
  lemma StillKept(was: World, f: Frame, d: Dirty)
    requires Kept(d, was) && was.stage == f.now.stage && Rests(was, f.now)
    ensures Kept(d, f.now)
  {
    assert Moves(was.at(d.view), f.now.at(d.view), {}, NO_AREA);
  }

  lemma NothingStays(was: World, f: Frame, v: View, x: int, y: int)
    requires Good(was) && Good(f.now) && Rests(was, f.now)
    ensures Full(f.now.at(v), x, y) == Full(was.at(v), x, y)
  {
    hide PaintsInside, Moves, Full;
    UntouchedStays(was.at(v), f.now.at(v), {}, NO_AREA, x, y);
  }

  /** A frame leaves each area as it is measured now, or as it was when its part stood still. */
  lemma MovedKept(was: World, f: Frame, v: View, d: Dirty, d': Dirty)
    requires Good(f.now) && was.stage == f.now.stage && Kept(d, was)
    requires d'.valid && Same(d, f.now.stage, v) ==> Moves(was.at(v), f.now.at(v), f.moved, f.base)
    requires d'.valid ==>
               d'.stage == f.now.stage && d'.view == v &&
               forall p :: p in PartsOf(f.now.stage) ==>
                 d'.part(p) == if !Same(d, f.now.stage, v) || p in f.moved then f.now.at(v).area(p) else d.part(p)
    ensures Kept(d', f.now)
  {
  }

  /** Outside the areas of a frame the picture stands. */
  lemma OutsideStays(was: World, f: Frame, v: View, d: Dirty, areas: seq<Area>, x: int, y: int)
    requires Good(was) && Good(f.now) && was.stage == f.now.stage && Kept(d, was) && Same(d, f.now.stage, v)
    requires Moves(was.at(v), f.now.at(v), f.moved, f.base)
    requires !Shown(areas, x, y) && (f.base.Has(x, y) ==> Shown(areas, x, y))
    requires forall p ::
               p in PartsOf(f.now.stage) && p in f.moved && (d.part(p).Has(x, y) || f.now.at(v).area(p).Has(x, y)) ==>
                 Shown(areas, x, y)
    ensures Full(f.now.at(v), x, y) == Full(was.at(v), x, y)
  {
    hide PaintsInside, Full, Shown, Moves, Area.Has;
    UntouchedStays(was.at(v), f.now.at(v), f.moved, f.base, x, y);
  }

  lemma NothingShown(areas: seq<Area>)
    requires areas == []
    ensures forall x, y :: !Shown(areas, x, y)
  {
  }

  lemma ShownMember(areas: seq<Area>, a: Area)
    requires a in areas
    ensures forall x, y :: a.Has(x, y) ==> Shown(areas, x, y)
  {
  }

  lemma ShownNext(areas: seq<Area>, i: nat)
    requires i < |areas|
    ensures forall x, y :: Shown(areas[..i + 1], x, y) <==> Shown(areas[..i], x, y) || areas[i].Has(x, y)
  {
    forall x, y ensures Shown(areas[..i + 1], x, y) <==> Shown(areas[..i], x, y) || areas[i].Has(x, y) {
      if Shown(areas[..i], x, y) {
        var k :| 0 <= k < i && areas[..i][k].Has(x, y);
        assert areas[..i + 1][k].Has(x, y);
      }
      if areas[i].Has(x, y) { assert areas[..i + 1][i].Has(x, y); }
      if Shown(areas[..i + 1], x, y) {
        var k :| 0 <= k < i + 1 && areas[..i + 1][k].Has(x, y);
        if k < i { assert areas[..i][k].Has(x, y); }
      }
    }
  }

  lemma Appended(a: seq<Area>, b: seq<Area>)
    ensures forall x, y :: Shown(a + b, x, y) <==> Shown(a, x, y) || Shown(b, x, y)
  {
    forall x, y ensures Shown(a + b, x, y) <==> Shown(a, x, y) || Shown(b, x, y) {
      if Shown(a, x, y) {
        var k :| 0 <= k < |a| && a[k].Has(x, y);
        assert (a + b)[k].Has(x, y);
      } else if Shown(b, x, y) {
        var k :| 0 <= k < |b| && b[k].Has(x, y);
        assert (a + b)[|a| + k].Has(x, y);
      }
    }
  }
}
