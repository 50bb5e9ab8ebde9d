/** How stage 1 plays: the cucumber slides on after a cut, and a full turn of the wheel is a slice. */
module Cutting {
  import opened Crank
  import opened Slices

  // ---- The slide ----

  /** A frame leaves the part of a gap that is here; less than the second argument to 0 when that is small. */
  function Left(gap: real, dt: real): real { gap * (1.0 - Min(1.0, 14.0 * dt)) }

  lemma PullLeaves(gap: real, dt: real)
    ensures gap - Pull(gap, dt) == Left(gap, dt)
  {
  }

  /** The gap to the target closes by that factor, and to nothing once it is below 0.005; a gap of 0.001 stays. */
  lemma SlideCloses(zf: real, target: real, dt: real)
    ensures var gap, z := target - zf, Slid(zf, target, dt);
            if Abs(gap) <= 0.001 then z == zf
            else if Abs(Left(gap, dt)) < 0.005 then z == target
            else target - z == Left(gap, dt)
  {
    PullLeaves(target - zf, dt);
    hide Left, Pull;
  }

  /** The knife arms within 0.6 of the top; the move owed since a cut starts then, and the target moves only so. */
  lemma FedWhen(f: Feed, phase: real, dt: real)
    ensures var g := Fed(f, phase, dt);
            (g.armed <==> f.armed || phase < 0.6) &&
            (g.pending <==> f.pending && (f.armed || phase >= 0.6)) &&
            g.target == (if f.pending && !g.pending then T else f.target) && g.zf == Slid(f.zf, g.target, dt)
  {
  }

  // ---- Frames ----

  ghost predicate Times(dts: seq<real>) { forall i :: 0 <= i < |dts| ==> dts[i] >= 0.0 }

  function Frames(m: Machine, dts: seq<real>): Machine
    decreases |dts|
  {
    if dts == [] then m else Frames(Framed(m, dts[0]), dts[1..])
  }

  function Seconds(dts: seq<real>): real { if dts == [] then 0.0 else dts[0] + Seconds(dts[1..]) }

  /** What frames of these lengths are worth to the knife, in full frames. */
  function Worth(dts: seq<real>): real { if dts == [] then 0.0 else Min(1.0, 16.0 * dts[0]) + Worth(dts[1..]) }

  // ---- The knife ----

  function Far(m: Machine): real { Abs(m.aim - m.phase) }

  predicate OnTravel(m: Machine) { 0.0 <= m.phase <= TRAVEL && 0.0 <= m.aim <= TRAVEL }

  lemma EaseStepAtLeast(diff: real, dt: real)
    requires dt >= 0.0 && Abs(diff) > 0.001
    ensures Abs(EaseStep(diff, dt)) >= 0.02 * Min(1.0, 16.0 * dt) || EaseStep(diff, dt) == diff
  {
    var f := Min(1.0, 16.0 * dt);
    if Abs(diff) >= 0.02 {
      EaseStepIs(diff, dt, f);
      TimesAtLeast(diff, f, EaseStep(diff, dt));
      hide EaseStep, Abs;
    }
  }

  lemma EaseStepIs(diff: real, dt: real, f: real)
    requires f == Min(1.0, 16.0 * dt) && Abs(diff) >= 0.02
    ensures EaseStep(diff, dt) == diff * f
  {
  }

  lemma TimesAtLeast(diff: real, f: real, e: real)
    requires e == diff * f && f >= 0.0 && Abs(diff) >= 0.02
    ensures Abs(e) >= 0.02 * f
  {
    MoreTimes(Abs(diff), f);
    TimesAbs(diff, f);
  }

  lemma MoreTimes(a: real, f: real)
    requires a >= 0.02 && f >= 0.0
    ensures a * f >= 0.02 * f
  {
  }

  lemma TimesAbs(a: real, f: real)
    requires f >= 0.0
    ensures Abs(a * f) == Abs(a) * f
  {
  }

  /** A frame brings the knife nearer by at least 0.02 of a full frame, or there. */
  lemma Nearer(m: Machine, dt: real)
    requires dt >= 0.0 && OnTravel(m)
    ensures var n := Framed(m, dt);
            OnTravel(n) && (Far(n) <= 0.001 || Far(n) <= Far(m) - 0.02 * Min(1.0, 16.0 * dt))
  {
    EaseBetween(m.phase, m.aim, dt);
    if Far(m) > 0.001 {
      EaseStepAtLeast(m.aim - m.phase, dt);
      EaseStepBetween(m.aim - m.phase, dt);
    }
    hide EaseStep, Fed, Cuts;
  }

  /** Frames worth 150 full ones bring it there from anywhere. */
  lemma {:induction false} Arrives(m: Machine, dts: seq<real>)
    requires Times(dts) && OnTravel(m)
    ensures var n := Frames(m, dts);
            OnTravel(n) && n.aim == m.aim && (Far(n) <= 0.001 || Far(n) <= Far(m) - 0.02 * Worth(dts))
    decreases |dts|
  {
    if dts != [] {
      Nearer(m, dts[0]);
      Arrives(Framed(m, dts[0]), dts[1..]);
      StaysNear(Framed(m, dts[0]), dts[1..]);
    }
    hide Framed;
  }

  lemma {:induction false} StaysNear(m: Machine, dts: seq<real>)
    requires Times(dts) && OnTravel(m)
    ensures Far(m) <= 0.001 ==> Far(Frames(m, dts)) <= 0.001
    decreases |dts|
  {
    if dts != [] && Far(m) <= 0.001 {
      Nearer(m, dts[0]);
      assert Framed(m, dts[0]).phase == m.phase;
      StaysNear(Framed(m, dts[0]), dts[1..]);
    }
  }

  // ---- The feed between two cuts ----

  /** Armed, and on the way: s seconds with the knife up have closed the gap by a factor of 1 + 14 s at least. */
  predicate Coming(f: Feed, s: real) {
    f.armed && !f.pending && f.target == T && 0.0 <= f.zf <= T &&
    (f.zf == T || (T - f.zf >= 0.005 && (T - f.zf) * (1.0 + 14.0 * s) <= T))
  }

  /** As a cut leaves it, as a new game starts, or on the way. */
  predicate Waiting(f: Feed, s: real) {
    (!f.armed && f.pending && f.zf == 0.0 && f.target == 0.0) || (!f.armed && !f.pending && f.zf == T == f.target) ||
    Coming(f, s)
  }

  /** 1 - x is at most 1 / (1 + x). */
  lemma LeftBound(gap: real, s: real, dt: real)
    requires gap >= 0.0 && s >= 0.0 && dt >= 0.0 && gap * (1.0 + 14.0 * s) <= T
    ensures 0.0 <= Left(gap, dt) <= gap && Left(gap, dt) * (1.0 + 14.0 * (s + dt)) <= T
  {
    var x := 14.0 * dt;
    if x >= 1.0 {
      assert Left(gap, dt) == gap * 0.0 == 0.0;
    } else {
      var a := 1.0 + 14.0 * s;
      assert 1.0 + 14.0 * (s + dt) == a + x;
      ShrinkBound(gap, a, x);
    }
  }

  lemma ShrinkBound(gap: real, a: real, x: real)
    requires gap >= 0.0 && a >= 1.0 && 0.0 <= x < 1.0 && gap * a <= T
    ensures 0.0 <= gap * (1.0 - x) <= gap && gap * (1.0 - x) * (a + x) <= T
  {
    assert (1.0 - x) * (a + x) == a - x * (a - 1.0 + x);
    assert x * (a - 1.0 + x) >= 0.0;
    var y := (1.0 - x) * (a + x);
    assert gap * (1.0 - x) * (a + x) == gap * y;
    assert gap * y <= gap * a;
    assert gap * x >= 0.0 && gap * (1.0 - x) == gap - gap * x;
    assert gap * (1.0 - x) >= 0.0;
  }

  lemma ComingSlides(f: Feed, s: real, phase: real, dt: real)
    requires Coming(f, s) && s >= 0.0 && dt >= 0.0
    ensures Coming(Fed(f, phase, dt), s + dt)
  {
    SlideCloses(f.zf, T, dt);
    if f.zf != T { LeftBound(T - f.zf, s, dt); }
    hide Left, Slid;
  }

  lemma LessTime(f: Feed, s: real, r: real)
    requires Coming(f, s) && 0.0 <= r <= s
    ensures Coming(f, r)
  {
    if f.zf != T { MoreOf(1.0 + 14.0 * r, 1.0 + 14.0 * s, T - f.zf); }
  }

  /** With the knife up the feed comes; with it down it goes on doing what it did. */
  lemma WaitingGoesOn(f: Feed, s: real, phase: real, dt: real)
    requires Waiting(f, s) && s >= 0.0 && dt >= 0.0
    ensures phase < 0.6 ==> Coming(Fed(f, phase, dt), if f.armed then s + dt else dt)
    ensures Waiting(Fed(f, phase, dt), 0.0)
  {
    if f.armed {
      ComingSlides(f, s, phase, dt);
      LessTime(Fed(f, phase, dt), s + dt, 0.0);
    } else {
      var g := Feed(true, false, f.zf, T);
      assert Coming(g, 0.0);
      ComingSlides(g, 0.0, phase, dt);
      LessTime(Fed(g, phase, dt), dt, 0.0);
      assert phase < 0.6 ==> Fed(f, phase, dt) == Fed(g, phase, dt);
      SlideCloses(f.zf, f.target, dt);
    }
    hide Slid, Coming;
  }

  // ---- Strokes ----

  /** The knife goes up: nothing is cut, and the feed comes from when the knife is up. */
  lemma {:induction false} LiftKeeps(m: Machine, dts: seq<real>)
    requires Times(dts) && OnTravel(m) && m.aim == 0.0 && Waiting(m.feed, 0.0)
    ensures var n := Frames(m, dts); n.cuts == m.cuts && Waiting(n.feed, 0.0)
    decreases |dts|
  {
    if dts != [] {
      var n := Framed(m, dts[0]);
      EaseBetween(m.phase, m.aim, dts[0]);
      WaitingGoesOn(m.feed, 0.0, n.phase, dts[0]);
      hide Waiting, Ease, Fed;
      LiftKeeps(n, dts[1..]);
    }
  }

  lemma {:induction false} UpComes(m: Machine, s: real, dts: seq<real>)
    requires Times(dts) && OnTravel(m) && m.aim == 0.0 && m.phase < 0.6 && Coming(m.feed, s) && s >= 0.0
    ensures var n := Frames(m, dts); n.cuts == m.cuts && Coming(n.feed, s + Seconds(dts))
    decreases |dts|
  {
    if dts != [] {
      var n := Framed(m, dts[0]);
      EaseBetween(m.phase, m.aim, dts[0]);
      ComingSlides(m.feed, s, n.phase, dts[0]);
      hide Coming, Ease, Fed;
      UpComes(n, s + dts[0], dts[1..]);
    }
  }

  /** Armed, with more than 0.6 of a slice under the knife. */
  predicate Ready(f: Feed) { Coming(f, 0.0) && f.zf > T * 0.6 }

  /** More than 3/28 of a second with the knife up after a cut, in whatever frames, is enough. */
  lemma UpMakesReady(m: Machine, dts: seq<real>)
    requires Times(dts) && OnTravel(m) && m.aim == 0.0 && m.phase < 0.6 && Waiting(m.feed, 0.0)
    requires Seconds(dts) > 3.0 / 28.0
    ensures var n := Frames(m, dts); n.cuts == m.cuts && Ready(n.feed)
  {
    var n := Framed(m, dts[0]);
    var s := if m.feed.armed then 0.0 + dts[0] else dts[0];
    EaseBetween(m.phase, m.aim, dts[0]);
    WaitingGoesOn(m.feed, 0.0, n.phase, dts[0]);
    UpComes(n, s, dts[1..]);
    LongIsReady(Frames(m, dts).feed, s + Seconds(dts[1..]));
    hide Waiting, Ease, Fed, Coming, Ready;
  }

  lemma LongIsReady(f: Feed, s: real)
    requires Coming(f, s) && s > 3.0 / 28.0
    ensures Ready(f)
  {
    LessTime(f, s, 0.0);
    if f.zf != T { Smaller(T - f.zf, 1.0 + 14.0 * s); }
  }

  lemma Smaller(gap: real, a: real)
    requires a > 2.5 && gap * a <= T
    ensures gap < T * 0.4
  {
    if gap >= T * 0.4 {
      MoreOf(T * 0.4, gap, a);
      assert false;
    }
  }

  lemma MoreOf(a: real, b: real, f: real)
    requires a <= b && f >= 0.0
    ensures a * f <= b * f && f * a <= f * b
  {
  }

  /** A frame of the stroke stays above the bottom, still ready, or is the cut. */
  lemma StrokeFrame(m: Machine, dt: real)
    requires dt >= 0.0 && OnTravel(m) && m.aim == TRAVEL && m.phase < BOTTOM && Ready(m.feed) && m.cuts < MAX_SLICES
    ensures var n := Framed(m, dt);
            if n.phase < BOTTOM then n.cuts == m.cuts && Ready(n.feed)
            else n.cuts == m.cuts + 1 && (n.cuts < MAX_SLICES ==> Spent(n.feed))
  {
    var n := Framed(m, dt);
    ComingSlides(m.feed, 0.0, n.phase, dt);
    LessTime(Fed(m.feed, n.phase, dt), dt, 0.0);
    SlideOnward(m.feed.zf, dt);
    hide Ease, Slid;
    SlideCloses(0.0, 0.0, dt);
  }

  predicate Spent(f: Feed) { !f.armed && f.pending && f.zf == 0.0 && f.target == 0.0 }

  lemma SlideOnward(zf: real, dt: real)
    requires zf <= T && dt >= 0.0
    ensures zf <= Slid(zf, T, dt)
  {
    SlideCloses(zf, T, dt);
    LeftAtMost(T - zf, dt);
    hide Left, Slid;
  }

  lemma LeftAtMost(gap: real, dt: real)
    requires gap >= 0.0 && dt >= 0.0
    ensures Left(gap, dt) <= gap
  {
  }

  /** The knife goes all the way down: that is a slice, as soon as it arrives, and only one. */
  lemma {:induction false} StrokeCuts(m: Machine, dts: seq<real>)
    requires Times(dts) && OnTravel(m) && m.aim == TRAVEL && m.phase < BOTTOM && Ready(m.feed) && m.cuts < MAX_SLICES
    ensures var n := Frames(m, dts);
            if n.phase < BOTTOM then n.cuts == m.cuts && Ready(n.feed)
            else n.cuts == m.cuts + 1 && (n.cuts < MAX_SLICES ==> Spent(n.feed))
    decreases |dts|
  {
    if dts != [] {
      var n := Framed(m, dts[0]);
      StrokeFrame(m, dts[0]);
      EaseBetween(m.phase, m.aim, dts[0]);
      hide Framed, Ready, Spent;
      if n.phase < BOTTOM { StrokeCuts(n, dts[1..]); } else { DownRests(n, dts[1..]); }
    }
  }

  /** On the board nothing more happens until the knife is lifted. */
  lemma {:induction false} DownRests(m: Machine, dts: seq<real>)
    requires Times(dts) && OnTravel(m) && m.aim == TRAVEL && m.phase >= BOTTOM
    ensures var n := Frames(m, dts); n.phase >= BOTTOM && n.cuts == m.cuts && (Spent(m.feed) ==> n.feed == m.feed)
    decreases |dts|
  {
    if dts != [] {
      var n := Framed(m, dts[0]);
      EaseBetween(m.phase, m.aim, dts[0]);
      hide Ease;
      DownRests(n, dts[1..]);
    }
  }

  // ---- A game ----

  /** The wheel all the way up, frames that lift the knife and frames with it up, all the way down, and frames. */
  datatype Round = Round(up: real, lift: seq<real>, rest: seq<real>, down: real, stroke: seq<real>)

  ghost predicate Full(r: Round) {
    r.up >= TRAVEL && r.down >= TRAVEL && Times(r.lift) && Times(r.rest) && Times(r.stroke) &&
    Worth(r.lift) >= 150.0 && Seconds(r.rest) > 3.0 / 28.0 && Worth(r.stroke) >= 150.0
  }

  function Turned(m: Machine, notches: real): Machine { m.(aim := KnifeTarget(m.aim, notches, TRAVEL)) }

  function Lifted(m: Machine, r: Round): Machine { Frames(Frames(Turned(m, -r.up), r.lift), r.rest) }

  function Played(m: Machine, r: Round): Machine { Frames(Turned(Lifted(m, r), r.down), r.stroke) }

  function Game(m: Machine, rounds: seq<Round>): Machine {
    if rounds == [] then m else Played(Game(m, rounds[..|rounds| - 1]), rounds[|rounds| - 1])
  }

  lemma LiftReady(m: Machine, r: Round)
    requires Full(r) && OnTravel(m) && Waiting(m.feed, 0.0)
    ensures var n := Lifted(m, r); OnTravel(n) && n.phase <= 0.001 && n.cuts == m.cuts && Ready(n.feed)
  {
    var a := Turned(m, -r.up);
    var b := Frames(a, r.lift);
    Arrives(a, r.lift);
    LiftKeeps(a, r.lift);
    Arrives(b, r.rest);
    StaysNear(b, r.rest);
    UpMakesReady(b, r.rest);
    hide Frames, Waiting, Ready, Worth, Seconds, Times;
  }

  /** From between two cuts, a full turn of the wheel is one slice more, whatever the frames' lengths. */
  lemma RoundCuts(m: Machine, r: Round)
    requires Full(r) && OnTravel(m) && Waiting(m.feed, 0.0) && m.cuts < MAX_SLICES
    ensures var n := Played(m, r);
            OnTravel(n) && n.cuts == m.cuts + 1 && (n.cuts < MAX_SLICES ==> Waiting(n.feed, 0.0))
  {
    LiftReady(m, r);
    var a := Turned(Lifted(m, r), r.down);
    StrokeCuts(a, r.stroke);
    Arrives(a, r.stroke);
    hide Frames, Lifted, Ready, Worth, Seconds, Times, Coming;
  }

  /** After the last slice nothing is cut. */
  lemma {:induction false} DoneIsDone(m: Machine, dts: seq<real>)
    requires m.cuts == MAX_SLICES
    ensures Frames(m, dts).cuts == MAX_SLICES
    decreases |dts|
  {
    hide Fed;
    if dts != [] { DoneIsDone(Framed(m, dts[0]), dts[1..]); }
  }

  /** A game of full turns cuts a slice at each, up to the 39 that end it. */
  lemma {:induction false} WholeGame(rounds: seq<Round>)
    requires forall i :: 0 <= i < |rounds| ==> Full(rounds[i])
    ensures var n := Game(NEW_GAME, rounds);
            n.cuts == (if |rounds| < MAX_SLICES then |rounds| else MAX_SLICES) &&
            (n.cuts < MAX_SLICES ==> OnTravel(n) && Waiting(n.feed, 0.0))
  {
    if rounds != [] {
      var k := |rounds| - 1;
      WholeGame(rounds[..k]);
      var m, r := Game(NEW_GAME, rounds[..k]), rounds[k];
      if m.cuts < MAX_SLICES {
        RoundCuts(m, r);
      } else {
        DoneIsDone(Turned(m, -r.up), r.lift);
        DoneIsDone(Frames(Turned(m, -r.up), r.lift), r.rest);
        DoneIsDone(Turned(Lifted(m, r), r.down), r.stroke);
      }
    }
    hide Frames, Full, Waiting;
  }

  // ---- Frames of one length ----

  function Steady(dt: real, n: nat): seq<real> { seq(n, _ => dt) }

  lemma {:induction false} SteadyIs(dt: real, n: nat)
    ensures Worth(Steady(dt, n)) == n as real * Min(1.0, 16.0 * dt) && Seconds(Steady(dt, n)) == n as real * dt
  {
    if n > 0 {
      assert Steady(dt, n)[1..] == Steady(dt, n - 1);
      SteadyIs(dt, n - 1);
      OneMore(n as real - 1.0, Min(1.0, 16.0 * dt));
      OneMore(n as real - 1.0, dt);
    }
  }

  lemma OneMore(n: real, x: real)
    ensures (n + 1.0) * x == n * x + x
  {
  }

  lemma Enough(x: real, goal: real) returns (n: nat)
    requires x > 0.0 && goal >= 0.0
    ensures n as real * x > goal
  {
    var q := goal / x;
    n := q.Floor + 1;
    assert q * x == goal;
    assert (n as real - q) * x > 0.0;
    assert (n as real - q) * x == n as real * x - q * x;
  }

  /** At any frame rate there are such rounds. */
  lemma AnyRate(dt: real) returns (r: Round)
    requires dt > 0.0
    ensures Full(r) && forall i :: 0 <= i < |r.lift| ==> r.lift[i] == dt
    ensures forall i :: 0 <= i < |r.rest| ==> r.rest[i] == dt
    ensures forall i :: 0 <= i < |r.stroke| ==> r.stroke[i] == dt
  {
    var k := Enough(Min(1.0, 16.0 * dt), 150.0);
    var n := Enough(dt, 1.0);
    SteadyIs(dt, k);
    SteadyIs(dt, n);
    r := Round(TRAVEL, Steady(dt, k), Steady(dt, n), TRAVEL, Steady(dt, k));
    hide Worth, Seconds, Min;
  }
}
