/**
 Stage 1 of the Kitchen as a whole: the game, the kept image of its pile, and the stage that has only what moved
 redrawn. After any run that ends in a redraw the screen shows the game.
 */
module CucumberScreen {
  import opened Areas
  import opened AreaLists
  import opened DirtyStage
  import Slices
  import Crank
  import PileCache
  import opened KitchenBase

  /** What the cucumber's look depends on: how far it is pushed under the blade, its length, and the cuts. */
  datatype Length = Length(zf: real, len: real, cuts: nat)

  /** How everything on the board looks. */
  datatype Looks = Looks(
    board: (View, int, int, Colour) -> Colour, knife: Art<real>, cuke: Art<Length>, fly: Art<seq<Slices.Slice>>,
    pile: PileCache.Look, measure: PileCache.Measure)

  ghost predicate GoodLooks(looks: Looks) {
    Inside(looks.knife) && Inside(looks.cuke) && Inside(looks.fly) &&
    PileCache.Measures(looks.measure) && PileCache.DrawsInside(looks.pile, looks.measure)
  }

  /** A moment of the game, as far as it is seen. */
  datatype Moment = Moment(phase: real, cuke: Length, slices: seq<Slices.Slice>)

  function AreaOf(looks: Looks, m: Moment, v: View, p: Part): Area {
    match p
    case Knife => looks.knife.area(m.phase, v)
    case Cuke => looks.cuke.area(m.cuke, v)
    case Fly => looks.fly.area(m.slices, v)
    case Peeler => NO_AREA
    case Shavings => NO_AREA
  }

  function PaintOf(looks: Looks, m: Moment, v: View, l: Layer, x: int, y: int, c: Colour): Colour {
    match l
    case Board => looks.board(v, x, y, c)
    case KnifeLayer => looks.knife.paint(m.phase, v, l, x, y, c)
    case CukeBack => looks.cuke.paint(m.cuke, v, l, x, y, c)
    case CukeFront => looks.cuke.paint(m.cuke, v, l, x, y, c)
    case Pile => looks.pile(PileCache.Pile(m.slices), v, x, y, c)
    case Flying => looks.fly.paint(m.slices, v, l, x, y, c)
    case Potato => c
    case Ribbon => c
    case ShavingsLayer => c
    case PeelerLayer => c
  }

  function SceneOf(looks: Looks, m: Moment, v: View): Scene {
    Scene(0, v, (l, x, y, c) => PaintOf(looks, m, v, l, x, y, c), p => AreaOf(looks, m, v, p))
  }

  function WorldOf(looks: Looks, m: Moment): World { World(0, v => SceneOf(looks, m, v)) }

  lemma WorldIsGood(looks: Looks, m: Moment)
    requires GoodLooks(looks)
    ensures Good(WorldOf(looks, m))
  {
    hide PileCache.Measures, PileCache.DrawsInside;
    forall v: View, p: Part, l: Layer, x: int, y: int, c: Colour | Owns(p, l) && !AreaOf(looks, m, v, p).Has(x, y)
      ensures PaintOf(looks, m, v, l, x, y, c) == c
    {
    }
  }

  function MovedParts(knife: bool, cuke: bool, fly: bool): set<Part> {
    (if knife then {Knife} else {}) + (if cuke then {Cuke} else {}) + (if fly then {Fly} else {})
  }

  /** A part without its flag is as it was. */
  predicate Flagged(m: Moment, n: Moment, moved: set<Part>) {
    (Knife !in moved ==> n.phase == m.phase) && (Cuke !in moved ==> n.cuke == m.cuke) &&
    (Fly !in moved ==> n.slices == m.slices)
  }

  lemma FrameMoves(looks: Looks, m: Moment, n: Moment, v: View, moved: set<Part>, base: Area)
    requires Flagged(m, n, moved) && BaseKept(SceneOf(looks, m, v), SceneOf(looks, n, v), base)
    ensures Moves(WorldOf(looks, m).at(v), WorldOf(looks, n).at(v), moved, base)
  {
    hide BaseKept, PileCache.Pile;
  }

  lemma SceneShowsPile(looks: Looks, m: Moment, v: View)
    ensures ShowsPile(SceneOf(looks, m, v), (x, y, c) => looks.board(v, x, y, c), looks.pile,
                                  PileCache.Pile(m.slices))
  {
  }

  lemma WorldStage(looks: Looks, m: Moment)
    ensures WorldOf(looks, m).stage == 0
  {
  }

  /** What can happen on the first stage. */
  datatype Event =
    | Turn(notches: real)
    | Frame(dt: real, dice: Slices.Dice, luck: PileCache.Luck)
    | NewGame
    | Resize(bounds: Area)
    | Expose(a: Area)
    | Refresh(cut: Cut)

  ghost predicate Fair(e: Event) {
    (e.Frame? ==> e.dt >= 0.0 && Slices.Fair(e.dice)) && (e.Refresh? ==> Covering(e.cut))
  }

  class Screen {
    const stage: Stage
    const game: Slices.CucumberGame
    const pile: PileCache.PileImage
    const looks: Looks

    ghost function Now(): Moment
      reads game
    {
      Moment(game.phase, Length(game.zf, game.len, |game.slices|), game.slices)
    }

    /** The stage shows this game, wherever nothing is asked to be redrawn. */
    ghost predicate Valid()
      reads this, stage, game, pile
    {
      GoodLooks(looks) && stage.Valid() && stage.world == WorldOf(looks, Now()) &&
      game.Valid() && pile.Valid(looks.measure, game.slices)
    }

    constructor (fit: Fit, bounds: Area, looks: Looks)
      requires GoodLooks(looks)
      ensures Valid() && fresh(stage) && fresh(game) && fresh(pile)
    {
      var newGame := new Slices.CucumberGame();
      var m := Moment(newGame.phase, Length(newGame.zf, newGame.len, 0), []);
      WorldIsGood(looks, m);
      game := newGame;
      pile := new PileCache.PileImage(looks.measure);
      stage := new Stage(fit, bounds, WorldOf(looks, m));
      this.looks := looks;
      new;
      hide Good, GoodLooks, WorldOf;
    }

    method Turn(notches: real)
      requires Valid()
      modifies game
      ensures Valid()
    {
      hide Good, GoodLooks, WorldOf, Full, Shown;
      game.Turn(notches);
    }

    method NewGame()
      requires Valid()
      modifies stage, game, pile
      ensures Valid() && game.slices == [] && !stage.dirty.valid
    {
      game.NewGame();
      pile.NewGame(looks.measure);
      WorldIsGood(looks, Now());
      hide Good, GoodLooks, WorldOf, Full, Shown;
      stage.Reset(WorldOf(looks, Now()));
    }

    /** Bring the kept pile up to the moment. */
    method UpdatePile(ghost m: Moment, ghost n: Moment, s: seq<Slices.Slice>, v: View, luck: PileCache.Luck)
      returns (base: Area)
      requires GoodLooks(looks) && pile.Valid(looks.measure, m.slices)
      requires Slices.Later(m.slices, n.slices) && Slices.InOrder(n.slices) && s == n.slices
      modifies pile
      ensures pile.Valid(looks.measure, n.slices) && BaseKept(SceneOf(looks, m, v), SceneOf(looks, n, v), base)
    {
      hide Slices.Later, Slices.InOrder, PileCache.Pile, BaseKept, ShowsPile, Inside, PileCache.Measures,
        PileCache.DrawsInside;
      SceneShowsPile(looks, m, v);
      SceneShowsPile(looks, n, v);
      base := KitchenBase.UpdatePile(pile, (x, y, c) => looks.board(v, x, y, c), looks.pile, looks.measure,
                                     SceneOf(looks, m, v), SceneOf(looks, n, v), m.slices, s, v, luck);
    }

    /** A frame: a step of the game, and then only what it moved, and what the pile's update reports, is asked for. */
    method RunFrame(dt: real, dice: Slices.Dice, luck: PileCache.Luck)
      requires Valid() && dt >= 0.0 && Slices.Fair(dice)
      modifies stage, game, pile
      ensures Valid()
    {
      hide Good, GoodLooks, WorldOf, SceneOf, Full, Shown, Moves, Rests, BaseKept, Slices.Later, Slices.InOrder,
        Slices.Low, Slices.Stacked, Crank.Ease, PileCache.Pile, Kept;
      ghost var m := Now();
      var knife, cuke, fly := game.Step(dt, dice);
      var n := Moment(game.phase, Length(game.zf, game.len, |game.slices|), game.slices);
      var moved := MovedParts(knife, cuke, fly);
      var v := stage.fit(0, stage.bounds);
      var base := NO_AREA;
      WorldIsGood(looks, n);
      WorldStage(looks, m);
      WorldStage(looks, n);
      if moved == {} && stage.dirty.valid {
        assert n == m;
        StillRests(WorldOf(looks, m));
        StillMoves(WorldOf(looks, m), v);
      } else if stage.bounds.Empty() {
        pile.Passes(looks.measure, m.slices, n.slices);
      } else {
        base := UpdatePile(m, n, n.slices, v, luck);
        FrameMoves(looks, m, n, v, moved, base);
      }
      stage.RunFrame(DirtyStage.Frame(WorldOf(looks, n), moved, base));
    }

    /** Any run: after a redraw the screen shows the game. */
    method Play(events: seq<Event>)
      requires Valid() && forall e :: e in events ==> Fair(e)
      modifies stage, game, pile
      ensures Valid()
      ensures events != [] && events[|events| - 1].Refresh? ==> stage.Shows()
    {
      hide Good, GoodLooks, WorldOf, Full, Shown, Covering;
      for i := 0 to |events|
        invariant Valid()
        invariant i > 0 && events[i - 1].Refresh? ==> stage.Shows()
      {
        assert events[i] in events;
        match events[i]
        case Turn(notches) => Turn(notches);
        case Frame(dt, dice, luck) => RunFrame(dt, dice, luck);
        case NewGame => NewGame();
        case Resize(b) => stage.Resize(b);
        case Expose(a) => stage.Ask([a]);
        case Refresh(cut) => stage.Refresh(cut);
      }
    }
  }
}
