/** Stage 1 of the Kitchen: slices leave the cucumber in cut order, fly for a while, and land. */
module Slices {
  import opened Crank

  // Scene dimensions, in world units.
  const R := 0.7
  const T := 0.22
  const L_TOTAL := 10.5
  const MAX_SLICES := 39
  const TRAVEL := PERIOD * 0.5
  const BT := 0.45
  const BZ1 := 4.2
  const FLIGHT := 0.45

  datatype Point = Point(x: real, y: real, z: real)

  datatype Slice = Slice(to: Point, yaw: real, t: real, tip: bool)

  predicate Landed(s: Slice) { s.t >= 1.0 }

  /** Slices take off in cut order, so an earlier one is never behind a later one. */
  ghost predicate InOrder(s: seq<Slice>) {
    (forall i :: 0 <= i < |s| ==> 0.0 <= s[i].t <= 1.0) &&
    forall i, j :: 0 <= i < j < |s| ==> s[j].t <= s[i].t
  }

  function CountLanded(s: seq<Slice>): (n: nat)
    ensures n <= |s|
  {
    if s == [] then 0 else CountLanded(s[..|s| - 1]) + (if Landed(s[|s| - 1]) then 1 else 0)
  }

  method CountLandedLoop(s: seq<Slice>) returns (n: nat)
    ensures n == CountLanded(s)
  {
    n := 0;
    for i := 0 to |s|
      invariant n == CountLanded(s[..i])
    {
      assert s[..i + 1][..i] == s[..i];
      if Landed(s[i]) { n := n + 1; }
    }
    assert s[..|s|] == s;
  }

  /** The landed slices are the first ones cut. */
  lemma {:induction false} LandedIsPrefix(s: seq<Slice>)
    requires InOrder(s)
    ensures forall i :: 0 <= i < |s| ==> (Landed(s[i]) <==> i < CountLanded(s))
  {
    if s != [] {
      var front := s[..|s| - 1];
      LandedIsPrefix(front);
      if Landed(s[|s| - 1]) {
        assert forall i :: 0 <= i < |front| ==> Landed(front[i]);
        AllLanded(front);
      }
    }
  }

  lemma {:induction false} AllLanded(s: seq<Slice>)
    requires forall i :: 0 <= i < |s| ==> Landed(s[i])
    ensures CountLanded(s) == |s|
  {
    if s != [] { AllLanded(s[..|s| - 1]); }
  }

  /** What one game does to its slices over time: more are cut, none moves its landing place, all only fly on. */
  ghost predicate Later(s: seq<Slice>, s': seq<Slice>) {
    |s| <= |s'| &&
    forall i :: 0 <= i < |s| ==>
      s'[i].to == s[i].to && s'[i].yaw == s[i].yaw && s'[i].tip == s[i].tip && s[i].t <= s'[i].t
  }

  /** The key is sound: at two moments of one game, an equal count means the very same landed slices. */
  lemma CountDetermines(s: seq<Slice>, s': seq<Slice>)
    requires InOrder(s) && InOrder(s') && Later(s, s') && CountLanded(s) == CountLanded(s')
    ensures s'[..CountLanded(s')] == s[..CountLanded(s)]
  {
    LandedIsPrefix(s);
    LandedIsPrefix(s');
    var n := CountLanded(s);
    forall i | 0 <= i < n ensures s'[i] == s[i] {
      assert Landed(s[i]) && Landed(s'[i]);
    }
  }

  // ---- Where a slice lands ----

  function Sq(a: real): real { a * a }

  /** The discs of two flat slices overlap. */
  predicate Overlap(a: Point, b: Point) { Sq(a.x - b.x) + Sq(a.z - b.z) < Sq(2.0 * R) }

  /** A slice that holds up what lands at (x, z) on a surface. */
  predicate Holds(o: Slice, x: real, z: real, base: real) {
    !o.tip && (o.to.y < 0.0 <==> base < 0.0) && Overlap(o.to, Point(x, 0.0, z))
  }

  /** What lies on the board holds nothing up on the table, nor the other way round; the tip holds nothing up. */
  lemma SurfacesApart(o: Slice, x: real, z: real)
    ensures !(Holds(o, x, z, 0.0) && Holds(o, x, z, -BT)) && (o.tip ==> !Holds(o, x, z, 0.0) && !Holds(o, x, z, -BT))
    ensures !o.tip && Sq(o.to.x - x) + Sq(o.to.z - z) < 1.96 ==> Holds(o, x, z, if o.to.y < 0.0 then -BT else 0.0)
  {
  }

  /** The top of the pile under (x, z). */
  method PileTop(s: seq<Slice>, x: real, z: real, base: real) returns (top: real)
    ensures top >= base
    ensures forall i :: 0 <= i < |s| && Holds(s[i], x, z, base) ==> s[i].to.y + T * 0.5 <= top
    ensures top == base || exists i :: 0 <= i < |s| && Holds(s[i], x, z, base) && s[i].to.y + T * 0.5 == top
  {
    hide Overlap;
    top := base;
    for i := 0 to |s|
      invariant top >= base
      invariant forall k :: 0 <= k < i && Holds(s[k], x, z, base) ==> s[k].to.y + T * 0.5 <= top
      invariant top == base || exists k :: 0 <= k < i && Holds(s[k], x, z, base) && s[k].to.y + T * 0.5 == top
    {
      if Holds(s[i], x, z, base) { top := Max(top, s[i].to.y + T * 0.5); }
    }
  }

  /** Random numbers of the game, each in [0, 1). */
  datatype Dice = Dice(surface: real, yaw: real, xs: seq<real>, zs: seq<real>)

  predicate Fair(d: Dice) {
    |d.xs| == |d.zs| == 10 && 0.0 <= d.surface < 1.0 && 0.0 <= d.yaw < 1.0 &&
    forall i :: 0 <= i < 10 ==> 0.0 <= d.xs[i] < 1.0 && 0.0 <= d.zs[i] < 1.0
  }

  predicate OnBoard(s: Slice) { !s.tip && s.to.z < BZ1 }

  /** On the board, slices lie on one another and never in one another. */
  ghost predicate Stacked(s: seq<Slice>) {
    (forall i :: 0 <= i < |s| && OnBoard(s[i]) ==> s[i].to.y >= T * 0.5) &&
    forall i, j :: 0 <= i < j < |s| && OnBoard(s[i]) && OnBoard(s[j]) && Overlap(s[j].to, s[i].to) ==>
      s[i].to.y + T <= s[j].to.y
  }

  /** The pile cannot climb faster than a slice at a time. */
  ghost predicate Low(s: seq<Slice>) { forall i :: 0 <= i < |s| ==> s[i].to.y <= 1.0 + T * i as real }

  lemma OverlapFlat(a: Point, b: Point)
    ensures Overlap(a, b) == Overlap(b, a)
    ensures Overlap(a, Point(b.x, 0.0, b.z)) == Overlap(a, b)
  {
    SqSign(a.x - b.x);
    SqSign(a.z - b.z);
  }

  lemma SqSign(a: real)
    ensures Sq(-a) == Sq(a)
  {
  }

  predicate OffBoard(d: Dice) { d.surface < 0.2 }

  function Surface(d: Dice): real { if OffBoard(d) then -BT else 0.0 }

  /** The k-th spot tried: on the board, or on the table in front of it. */
  function SpotX(d: Dice, k: nat): real
    requires k < |d.xs|
  {
    0.3 + d.xs[k] * 4.6
  }

  function SpotZ(d: Dice, k: nat): real
    requires k < |d.zs|
  {
    if OffBoard(d) then BZ1 + R + 0.1 + d.zs[k] * 0.5 else 1.0 + d.zs[k] * 2.4
  }

  /** The top of what holds the k-th spot up. */
  ghost predicate SpotTop(s: seq<Slice>, d: Dice, k: nat, top: real) {
    k < |d.xs| && k < |d.zs| && Rests(s, SpotX(d, k), SpotZ(d, k), Surface(d), top)
  }

  /** The k-th spot, at this height, is the lowest of the first n, and the first of those as low. */
  ghost predicate Lowest(s: seq<Slice>, d: Dice, k: nat, top: real, n: nat) {
    k < n && SpotTop(s, d, k, top) &&
    forall j: nat, y: real :: j < n && SpotTop(s, d, j, y) ==> top <= y && (j < k ==> top < y)
  }

  ghost predicate LiesAt(n: Slice, d: Dice, k: nat, top: real) {
    k < |d.xs| && k < |d.zs| && n.to == Point(SpotX(d, k), top + T * 0.5, SpotZ(d, k))
  }

  /** A new slice lies on the lowest of the ten spots; it has all of its flight ahead of it. */
  ghost predicate Dropped(s: seq<Slice>, d: Dice, n: Slice) {
    n.t == 0.0 && (s != [] ==> exists k: nat, top: real :: Lowest(s, d, k, top, 10) && LiesAt(n, d, k, top))
  }

  /** Of ten random spots, the lowest; the first slice is the tip, which rolls clear of the pile. */
  method Spawn(s: seq<Slice>, d: Dice) returns (n: Slice)
    requires Fair(d) && |s| < MAX_SLICES && Low(s)
    ensures n.t == 0.0 && n.tip == (s == [])
    ensures Dropped(s, d, n)
    ensures Low(s + [n])
    ensures Stacked(s) ==> Stacked(s + [n])
  {
    hide Overlap, Stacked, Low;
    if s == [] {
      n := Slice(Point(-4.0, R, 2.4 + d.zs[0] * 0.5), -(1.2 + d.yaw * 0.5), 0.0, true);
      TipStacked(n);
      return;
    }
    var base := Surface(d);
    var bx, bz, low := 0.0, 0.0, 1000000000.0;
    ghost var best: nat := 0;
    for k := 0 to 10
      invariant k > 0 ==> Lowest(s, d, best, low, k) && bx == SpotX(d, best) && bz == SpotZ(d, best)
      invariant k == 0 ==> low == 1000000000.0
    {
      var x, z := SpotX(d, k), SpotZ(d, k);
      var y := PileTop(s, x, z, base);
      TopIsLow(s, x, z, base, y);
      if k > 0 { NextSpot(s, d, best, low, k, y); } else { FirstSpot(s, d, y); }
      if y < low {
        bx, bz, low := x, z, y;
        best := k;
      }
    }
    n := Slice(Point(bx, low + T * 0.5, bz), (d.yaw - 0.5) * 1.2, 0.0, false);
    assert LiesAt(n, d, best, low);
    NewSlice(s, n, base, low);
  }

  lemma RestsOnce(s: seq<Slice>, x: real, z: real, base: real, a: real, b: real)
    requires Rests(s, x, z, base, a) && Rests(s, x, z, base, b)
    ensures a == b
  {
    hide Holds;
  }

  lemma FirstSpot(s: seq<Slice>, d: Dice, y: real)
    requires SpotTop(s, d, 0, y)
    ensures Lowest(s, d, 0, y, 1)
  {
    forall z: real | SpotTop(s, d, 0, z) ensures y == z { RestsOnce(s, SpotX(d, 0), SpotZ(d, 0), Surface(d), y, z); }
    hide SpotTop;
  }

  lemma NextSpot(s: seq<Slice>, d: Dice, best: nat, low: real, k: nat, y: real)
    requires Lowest(s, d, best, low, k) && SpotTop(s, d, k, y)
    ensures if y < low then Lowest(s, d, k, y, k + 1) else Lowest(s, d, best, low, k + 1)
  {
    forall z: real | SpotTop(s, d, k, z) ensures y == z { RestsOnce(s, SpotX(d, k), SpotZ(d, k), Surface(d), y, z); }
    hide SpotTop;
  }

  /** The height is the top of what holds the place up. */
  ghost predicate Rests(s: seq<Slice>, x: real, z: real, base: real, top: real) {
    top >= base &&
    (forall i :: 0 <= i < |s| && Holds(s[i], x, z, base) ==> s[i].to.y + T * 0.5 <= top) &&
    (top == base || exists i :: 0 <= i < |s| && Holds(s[i], x, z, base) && s[i].to.y + T * 0.5 == top)
  }

  lemma TopIsLow(s: seq<Slice>, x: real, z: real, base: real, top: real)
    requires Low(s) && 0 < |s| <= MAX_SLICES && base <= 0.0 && Rests(s, x, z, base, top)
    ensures top + T * 0.5 <= 1.0 + T * |s| as real && top < 1000000000.0
  {
    hide Overlap;
    if top != base {
      var i :| 0 <= i < |s| && Holds(s[i], x, z, base) && s[i].to.y + T * 0.5 == top;
      assert T * i as real <= T * (|s| - 1) as real;
    }
  }

  lemma TipStacked(n: Slice)
    requires n.tip && n.to.y == R
    ensures Stacked([] + [n]) && Low([] + [n])
  {
    assert [] + [n] == [n];
  }

  lemma NewSlice(s: seq<Slice>, n: Slice, base: real, low: real)
    requires 0 < |s| < MAX_SLICES && Low(s) && !n.tip && n.to.y == low + T * 0.5
    requires base == 0.0 || base == -BT
    requires if base == 0.0 then n.to.z < BZ1 else n.to.z >= BZ1
    requires Rests(s, n.to.x, n.to.z, base, low)
    ensures Low(s + [n])
    ensures Stacked(s) ==> Stacked(s + [n])
  {
    hide Overlap;
    TopIsLow(s, n.to.x, n.to.z, base, low);
    if Stacked(s) && base == 0.0 {
      forall i | 0 <= i < |s| && OnBoard(s[i]) && Overlap(n.to, s[i].to) ensures s[i].to.y + T <= n.to.y {
        OverlapFlat(n.to, s[i].to);
        OverlapFlat(s[i].to, n.to);
        assert Holds(s[i], n.to.x, n.to.z, base);
      }
    }
  }

  // ---- The game ----

  /** Where the crank has the blade: 1 is knife up, 0 is blade on the board. */
  function TriWave(p: real): real {
    var q := p / PERIOD - (p / PERIOD).Floor as real;
    var w := 1.0 - 2.0 * q;
    if w < 0.0 then -w else w
  }

  /** On its travel the knife is up for the next cut within 0.6 of the top. */
  lemma ArmedWhenUp(phase: real)
    requires 0.0 <= phase <= TRAVEL
    ensures TriWave(phase) > 0.8 <==> phase < 0.6
  {
    if phase < TRAVEL {
      assert (phase / PERIOD).Floor == 0;
    } else {
      assert phase / PERIOD == 0.5;
    }
  }

  /** How the cucumber is fed to the knife: armed for a cut, owing a move, where its face is and is going. */
  datatype Feed = Feed(armed: bool, pending: bool, zf: real, target: real)

  /** How much of a gap a frame closes. */
  function Pull(gap: real, dt: real): real { gap * Min(1.0, dt * 14.0) }

  /** The face's next place on its way to the target. */
  function Slid(zf: real, target: real, dt: real): real {
    if Abs(target - zf) <= 0.001 then zf
    else
      var z := zf + Pull(target - zf, dt);
      if Abs(target - z) < 0.005 then target else z
  }

  /** A frame with the knife at this phase. */
  function Fed(f: Feed, phase: real, dt: real): Feed {
    var arms := !f.armed && phase < 0.6;
    var target := if arms && f.pending then T else f.target;
    Feed(f.armed || arms, f.pending && !arms, Slid(f.zf, target, dt), target)
  }

  /** The game but for where the slices lie: the knife, where the wheel wants it, the feed, and the cuts made. */
  datatype Machine = Machine(phase: real, aim: real, feed: Feed, cuts: nat)

  const BOTTOM := TRAVEL - 0.01

  const NEW_GAME := Machine(0.0, 0.0, Feed(false, false, T, T), 0)

  predicate Cuts(m: Machine, dt: real) {
    m.feed.armed && m.cuts < MAX_SLICES && m.feed.zf > T * 0.6 &&
    m.phase < BOTTOM <= Ease(m.phase, m.aim, PERIOD, dt)
  }

  function Framed(m: Machine, dt: real): Machine {
    var phase := Ease(m.phase, m.aim, PERIOD, dt);
    if Cuts(m, dt) then
      var feed := Feed(false, m.feed.pending || m.cuts + 1 < MAX_SLICES, 0.0, 0.0);
      Machine(phase, m.aim, Fed(feed, phase, dt), m.cuts + 1)
    else Machine(phase, m.aim, Fed(m.feed, phase, dt), m.cuts)
  }

  class CucumberGame {
    var phase: real
    var phaseTarget: real
    var zf: real
    var zfTarget: real
    var len: real
    var armed: bool
    var pendingAdvance: bool
    var done: bool
    var slices: seq<Slice>
    /** A frame has ended with the knife up since the last cut, or since the game began. */
    ghost var lifted: bool

    /** Every cut takes one slice's thickness off the cucumber and there are 39 of them; slices land in cut order. */
    ghost predicate Valid()
      reads this
    {
      0.0 <= phase <= TRAVEL && 0.0 <= phaseTarget <= TRAVEL &&
      |slices| <= MAX_SLICES && (done <==> |slices| == MAX_SLICES) && (armed <==> lifted) &&
      len + T * |slices| as real == L_TOTAL &&
      (forall i :: 0 <= i < |slices| ==> (slices[i].tip <==> i == 0)) &&
      InOrder(slices) && Low(slices) && Stacked(slices)
    }

    ghost function FeedNow(): Feed
      reads this
    {
      Feed(armed, pendingAdvance, zf, zfTarget)
    }

    ghost function Now(): Machine
      reads this
    {
      Machine(phase, phaseTarget, FeedNow(), |slices|)
    }

    constructor ()
      ensures Valid() && slices == [] && Now() == NEW_GAME
    {
      phase, phaseTarget := 0.0, 0.0;
      zf, zfTarget := T, T;
      len := L_TOTAL;
      armed, pendingAdvance, done := false, false, false;
      slices := [];
      lifted := false;
    }

    method NewGame()
      modifies this
      ensures Valid() && slices == [] && Now() == NEW_GAME
    {
      phase, phaseTarget := 0.0, 0.0;
      zf, zfTarget := T, T;
      len := L_TOTAL;
      armed, pendingAdvance, done := false, false, false;
      slices := [];
      lifted := false;
    }

    /** The wheel moves the knife's target along its travel. */
    method Turn(notches: real)
      requires Valid()
      modifies this`phaseTarget
      ensures Valid() && phaseTarget == KnifeTarget(old(phaseTarget), notches, TRAVEL)
      ensures Now() == old(Now()).(aim := phaseTarget)
    {
      hide Stacked, Low, InOrder;
      KnifeOnTravel(phaseTarget, notches, TRAVEL, 0.0);
      phaseTarget := KnifeTarget(phaseTarget, notches, TRAVEL);
    }

    method Cut(d: Dice)
      requires Valid() && !done && Fair(d)
      modifies this
      ensures Valid() && Later(old(slices), slices) && |slices| == |old(slices)| + 1
      ensures slices[..|old(slices)|] == old(slices) && Dropped(old(slices), d, slices[|old(slices)|])
      ensures !armed && !lifted && zf == 0.0 && zfTarget == 0.0
      ensures pendingAdvance == (old(pendingAdvance) || !done)
      ensures len == old(len) - T
      ensures phase == old(phase) && phaseTarget == old(phaseTarget)
    {
      hide Stacked, Low, Dropped;
      var s := Spawn(slices, d);
      slices := slices + [s];
      len := len - T;
      zf, zfTarget := 0.0, 0.0;
      armed, lifted := false, false;
      if |slices| >= MAX_SLICES { done := true; } else { pendingAdvance := true; }
    }

    /** The slices in the air fly on. */
    method Fly(dt: real) returns (flying: bool)
      requires Valid() && dt >= 0.0
      modifies this`slices
      ensures Valid() && Later(old(slices), slices) && |slices| == |old(slices)|
      ensures !flying ==> slices == old(slices)
      ensures forall i :: 0 <= i < |slices| ==> slices[i] == Flown(old(slices)[i], dt)
      ensures forall i :: 0 <= i < |slices| ==> slices[i].t == if Landed(old(slices)[i]) then 1.0
        else Min(1.0, old(slices)[i].t + dt / FLIGHT)
    {
      hide Stacked, Low, InOrder, Later;
      flying := false;
      ghost var was := slices;
      TimesBounded(was);
      for i := 0 to |slices|
        invariant |slices| == |was|
        invariant forall k :: 0 <= k < |was| ==> slices[k] == if k < i then Flown(was[k], dt) else was[k]
        invariant !flying ==> slices == was
      {
        if slices[i].t < 1.0 {
          slices := slices[i := slices[i].(t := Min(1.0, slices[i].t + dt / FLIGHT))];
          flying := true;
        }
      }
      FlownKeeps(was, slices, dt);
    }

    /** With the knife up again the cucumber moves on under it, a slice's thickness after a cut. */
    method Rearm(dt: real) returns (slid: bool)
      requires 0.0 <= phase <= TRAVEL
      modifies this`armed, this`lifted, this`pendingAdvance, this`zf, this`zfTarget
      ensures lifted == (old(lifted) || phase < 0.6)
      ensures FeedNow() == Fed(old(FeedNow()), phase, dt)
      ensures slid <==> Abs(zfTarget - old(zf)) > 0.001
      ensures !slid ==> zf == old(zf)
      ensures armed <==> old(armed) || phase < 0.6
    {
      hide TriWave, Pull;
      ArmedWhenUp(phase);
      if phase < 0.6 { lifted := true; }
      if !armed && TriWave(phase) > 0.8 {
        armed := true;
        if pendingAdvance {
          pendingAdvance := false;
          zfTarget := T;
        }
      }
      slid := Abs(zfTarget - zf) > 0.001;
      if slid {
        zf := zf + Pull(zfTarget - zf, dt);
        if Abs(zfTarget - zf) < 0.005 { zf := zfTarget; }
      }
    }

    /**
     A frame of stage 1, and what it moved: the knife, the cucumber's advance, and the slices in the air. Between
     two cuts some frame has ended with the knife up: a cut takes that away, and only the knife gives it back.
     */
    method Step(dt: real, d: Dice) returns (knife: bool, cuke: bool, fly: bool)
      requires Valid() && Fair(d) && dt >= 0.0
      modifies this
      ensures Valid() && Later(old(slices), slices)
      ensures phase == Ease(old(phase), old(phaseTarget), PERIOD, dt) && phaseTarget == old(phaseTarget)
      ensures knife == Moved(old(phase), old(phaseTarget)) && (!knife ==> phase == old(phase))
      ensures Now() == Framed(old(Now()), dt)
      ensures cuke <==> |slices| != |old(slices)| || Abs(zfTarget - old(zf)) > 0.001
      ensures !cuke ==> zf == old(zf) && len == old(len)
      ensures !fly ==> slices == old(slices)
      ensures var cut := old(armed) && !old(done) && old(zf) > T * 0.6 && old(phase) < TRAVEL - 0.01 <= phase;
              |slices| == |old(slices)| + (if cut then 1 else 0) &&
              (forall i :: 0 <= i < |old(slices)| ==> slices[i] == Flown(old(slices)[i], dt)) &&
              (cut ==> exists n :: Dropped(old(slices), d, n) && slices[|old(slices)|] == Flown(n, dt)) &&
              (cut ==> old(lifted)) && lifted == ((old(lifted) && !cut) || phase < 0.6)
    {
      hide Stacked, Low, InOrder, Later, Ease, TriWave, Pull, Dropped, Flown;
      LaterRefl(slices);
      NotMoved(phase, phaseTarget, dt);
      EaseBetween(phase, phaseTarget, dt);
      ghost var was := slices;
      var before := phase;
      knife, cuke, fly := Moved(phase, phaseTarget), false, false;
      if knife {
        phase := Ease(phase, phaseTarget, PERIOD, dt);
        if before < BOTTOM && phase >= BOTTOM && armed && !done && zf > T * 0.6 {
          Cut(d);
          cuke, fly := true, true;
        }
      }
      ghost var mid := slices;
      var slid := Rearm(dt);
      var flying := Fly(dt);
      cuke, fly := cuke || slid, fly || flying;
      LaterTrans(was, mid, slices);
      if |mid| > |was| {
        assert Dropped(was, d, mid[|was|]) && slices[|was|] == Flown(mid[|was|], dt);
      }
    }
  }

  function Flown(s: Slice, dt: real): Slice {
    if s.t < 1.0 then s.(t := Min(1.0, s.t + dt / FLIGHT)) else s
  }

  lemma TimesBounded(s: seq<Slice>)
    requires InOrder(s)
    ensures forall i :: 0 <= i < |s| ==> 0.0 <= s[i].t <= 1.0
  {
  }

  lemma LaterRefl(s: seq<Slice>)
    ensures Later(s, s)
  {
  }

  lemma LaterTrans(a: seq<Slice>, b: seq<Slice>, c: seq<Slice>)
    requires Later(a, b) && Later(b, c)
    ensures Later(a, c)
  {
  }

  lemma FlownKeeps(s: seq<Slice>, s': seq<Slice>, dt: real)
    requires dt >= 0.0 && |s'| == |s| && forall k :: 0 <= k < |s| ==> s'[k] == Flown(s[k], dt)
    requires InOrder(s) && Low(s) && Stacked(s)
    ensures InOrder(s') && Low(s') && Stacked(s') && Later(s, s')
  {
    hide Overlap;
  }
}
