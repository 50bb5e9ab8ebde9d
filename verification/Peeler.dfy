/** Stage 2 of the Kitchen: the crank drives the peeler down a strip and lifts it back, sixteen times. */
module Peeler {
  import opened Crank

  const STRIPS := 16
  const MAX_SH := 4
  const AIR_TIME := 1.6

  /** The blade releases the peel of strip k here, just short of the bottom. */
  function Release(k: int): real { (k as real + PEEL_END) * PERIOD - 0.01 }

  /** What the crank shows: strip k, and how far its stroke has got, 1 standing for all of it. */
  datatype Pose = Pose(k: int, pp: real)

  function ShownPose(phase: real): Pose {
    var ph := Min(phase, Start(STRIPS)) / PERIOD;
    var k := ph.Floor;
    var p := if k >= STRIPS then 0.0 else ph - k as real;
    Pose(if k >= STRIPS then STRIPS else k, if p >= PEEL_END - 0.002 then 1.0 else p / PEEL_END)
  }

  /** The blade going on never shows less peeled: it shows the strip it is in, and how much of its stroke is done. */
  lemma ShownGrows(p: real, q: real)
    requires 0.0 <= p <= q
    ensures var a, b := ShownPose(p), ShownPose(q);
            a.k <= b.k <= STRIPS && (a.k == b.k ==> a.pp <= b.pp) &&
            (a.k < STRIPS ==> Start(a.k) <= p < Start(a.k + 1) && (p < Release(a.k) - 0.002 ==>
                                a.pp * (PERIOD * PEEL_END) == p - Start(a.k)))
  {
    assert Start(STRIPS) / PERIOD == STRIPS as real;
  }

  /** Strip j is drawn with no skin left. */
  predicate ShownPeeled(q: Pose, j: int) { j < q.k || (j == q.k && q.pp >= 1.0) }

  /**
   Past the release point the wheel can still take the blade back, and the strip then shows its skin again,
   exactly until the target counts as returning: a thousandth before the bottom, where the release comes a
   hundredth before it.
   */
  lemma BackedUp(target: real, notches: real)
    requires 0.0 <= target && Strip(target) < STRIPS && target >= Release(Strip(target))
    ensures Returning(target) ==> ShownPeeled(ShownPose(PeelerTarget(target, notches)), Strip(target))
    ensures !Returning(target) && notches <= -1.0 ==>
      !ShownPeeled(ShownPose(PeelerTarget(target, notches)), Strip(target))
  {
    var k, t := Strip(target), PeelerTarget(target, notches);
    TargetKeepsStrip(target, notches);
    StripBounds(target);
    StripBounds(t);
  }

  /** A peel in the air: the strip it came off, and for how long. */
  datatype Shaving = Shaving(strip: int, t: real)

  function Aged(s: Shaving, dt: real): Shaving { s.(t := s.t + dt) }

  /** A new peel in the air: with four there already, the oldest makes room for it. */
  function Joined(sh: seq<Shaving>, k: nat): (r: seq<Shaving>)
    ensures |r| > 0 && r[|r| - 1] == Shaving(k, 0.0)
  {
    (if |sh| == MAX_SH then sh[1..] else sh) + [Shaving(k, 0.0)]
  }

  /** The peels in the air are the last ones released, oldest first. */
  ghost predicate LastReleased(sh: seq<Shaving>, strips: int) {
    |sh| <= MAX_SH && |sh| <= strips &&
    (forall i :: 0 <= i < |sh| ==> sh[i].strip == strips - |sh| + i && sh[i].t >= 0.0) &&
    forall i, j :: 0 <= i < j < |sh| ==> sh[j].t <= sh[i].t
  }

  /** How many of the first n release points the position has got to. */
  function PointsReached(reach: real, n: nat): (c: nat)
    ensures c <= n
  {
    if n == 0 then 0 else PointsReached(reach, n - 1) + (if reach >= Release(n - 1) then 1 else 0)
  }

  lemma {:induction false} ReachedIsPrefix(reach: real, strips: nat, n: nat)
    requires strips <= STRIPS && n <= STRIPS
    requires strips > 0 ==> reach >= Release(strips - 1)
    requires strips < STRIPS ==> reach < Release(strips)
    ensures PointsReached(reach, n) == if n <= strips then n else strips
  {
    if n > 0 { ReachedIsPrefix(reach, strips, n - 1); }
  }

  function Kept(sh: seq<Shaving>, dt: real): (r: seq<Shaving>)
    ensures |r| <= |sh|
  {
    if sh == [] then [] else
    var last := Aged(sh[|sh| - 1], dt);
    Kept(sh[..|sh| - 1], dt) + if last.t < AIR_TIME then [last] else []
  }

  lemma KeptNext(sh: seq<Shaving>, i: nat, dt: real)
    requires i < |sh|
    ensures Kept(sh[..i + 1], dt) == Kept(sh[..i], dt) + if Aged(sh[i], dt).t < AIR_TIME then [Aged(sh[i], dt)] else []
  {
    assert sh[..i + 1][..i] == sh[..i];
  }

  lemma Compacted(sh: seq<Shaving>, keep: nat, i: nat, x: Shaving)
    requires keep <= i < |sh|
    ensures sh[i := x][keep := x][..keep + 1] == sh[..keep] + [x]
    ensures sh[i := x][keep := x][i + 1..] == sh[i + 1..]
    ensures sh[i := x][..keep] == sh[..keep] && sh[i := x][i + 1..] == sh[i + 1..]
  {
  }

  /** The last ones, aged and with time left; the others' time is up. */
  ghost predicate Youngest(sh: seq<Shaving>, r: seq<Shaving>, dt: real) {
    |r| <= |sh| &&
    (forall i :: 0 <= i < |r| ==> r[i] == Aged(sh[|sh| - |r| + i], dt) && r[i].t < AIR_TIME) &&
    forall i :: 0 <= i < |sh| - |r| ==> Aged(sh[i], dt).t >= AIR_TIME
  }

  /** Those that stay are the youngest. */
  lemma {:induction false} KeptAreYoungest(sh: seq<Shaving>, dt: real)
    requires forall i, j :: 0 <= i < j < |sh| ==> sh[j].t <= sh[i].t
    ensures Youngest(sh, Kept(sh, dt), dt)
  {
    if sh != [] {
      var n := |sh| - 1;
      var r := Kept(sh[..n], dt);
      KeptAreYoungest(sh[..n], dt);
      assert sh[..n] + [sh[n]] == sh;
      if Aged(sh[n], dt).t < AIR_TIME {
        MoreStay(sh[..n], r, sh[n], dt);
      } else {
        NoneStays(sh[..n], r, sh[n], dt);
      }
    }
  }

  lemma NoneStays(sh: seq<Shaving>, r: seq<Shaving>, x: Shaving, dt: real)
    requires Youngest(sh, r, dt) && Aged(x, dt).t >= AIR_TIME && forall i :: 0 <= i < |sh| ==> x.t <= sh[i].t
    ensures r == [] && Youngest(sh + [x], r, dt)
  {
    if r != [] { LastStays(sh, r, dt); }
  }

  lemma LastStays(sh: seq<Shaving>, r: seq<Shaving>, dt: real)
    requires Youngest(sh, r, dt) && r != []
    ensures Aged(sh[|sh| - 1], dt).t < AIR_TIME
  {
    assert r[|r| - 1].t < AIR_TIME;
  }

  lemma MoreStay(sh: seq<Shaving>, r: seq<Shaving>, x: Shaving, dt: real)
    requires Youngest(sh, r, dt) && Aged(x, dt).t < AIR_TIME
    ensures Youngest(sh + [x], r + [Aged(x, dt)], dt)
  {
    hide Aged;
  }

  lemma StillLast(sh: seq<Shaving>, strips: int, dt: real)
    requires LastReleased(sh, strips) && dt >= 0.0
    ensures LastReleased(Kept(sh, dt), strips)
  {
    KeptAreYoungest(sh, dt);
    hide Kept;
    var r := Kept(sh, dt);
    var gone := |sh| - |r|;
    assert forall i :: 0 <= i < |r| ==>
      r[i] == Aged(sh[gone + i], dt) && sh[gone + i].strip == strips - |sh| + gone + i;
  }

  /**
   The blade is past the release point of every strip that is off and has never been at the next one; no
   strip it has been in lies after the one it is in; and that one is no later than the target's.
   */
  ghost predicate Sound(phase: real, target: real, strips: nat, reach: real) {
    0.0 <= phase <= reach && 0.0 <= target && strips <= STRIPS &&
    (strips > 0 ==> reach >= Release(strips - 1)) &&
    (if strips == STRIPS then reach < Release(STRIPS - 1) + PERIOD * 0.45 && target == phase
      else reach < Release(strips)) &&
    Strip(reach) == Strip(phase) <= Strip(target)
  }

  lemma EasedSound(phase: real, target: real, strips: nat, reach: real, dt: real)
    requires Sound(phase, target, strips, reach) && dt >= 0.0
    ensures var p := Ease(phase, target, PERIOD, dt);
            var n := if strips < STRIPS && p >= Release(strips) then strips + 1 else strips;
            Sound(p, if n == STRIPS then p else target, n, Max(reach, p)) && Strip(phase) <= Strip(p) &&
            (!Moved(phase, target) ==> p == phase && n == strips && (n == STRIPS ==> p == target))
  {
    EaseBetween(phase, target, dt);
    hide Ease;
    Onward(phase, Ease(phase, target, PERIOD, dt), target, reach);
  }

  class Potato {
    var phase: real
    var phaseTarget: real
    var strips: nat
    var done: bool
    var sh: seq<Shaving>
    /** The furthest the blade has ever been. */
    ghost var reach: real

    ghost predicate Valid()
      reads this
    {
      strips <= STRIPS && (done <==> strips == STRIPS) &&
      Sound(phase, phaseTarget, strips, reach) && LastReleased(sh, strips)
    }

    constructor ()
      ensures Valid() && strips == 0 && sh == [] && phase == phaseTarget == reach == 0.0
    {
      phase, phaseTarget, strips, done, sh, reach := 0.0, 0.0, 0, false, [], 0.0;
    }

    /** As many strips are off as release points were ever reached; the one on show is the last of them or the next. */
    lemma ReleasedOnce()
      requires Valid()
      ensures strips == PointsReached(reach, STRIPS)
      ensures Strip(phase) <= strips <= Strip(phase) + 1
    {
      ReachedIsPrefix(reach, strips, STRIPS);
      StripBounds(reach);
    }

    /**
     A strip is drawn peeled exactly from 0.002 before its release point on. That agrees with the count for
     all strips but the one on show, and for that one while the blade is not taken back from its release.
     */
    lemma ShownAgrees(j: nat)
      requires Valid() && j < STRIPS
      ensures ShownPeeled(ShownPose(phase), j) <==> phase >= Release(j) - 0.002
      ensures phase >= Release(j) ==> j < strips
      ensures j < Strip(phase) ==> j < strips && ShownPeeled(ShownPose(phase), j)
      ensures j > Strip(phase) ==> j >= strips && !ShownPeeled(ShownPose(phase), j)
      ensures j < strips && !ShownPeeled(ShownPose(phase), j) ==>
                j == Strip(phase) == strips - 1 && phase < Release(j) - 0.002 && Release(j) <= reach
    {
      hide LastReleased;
      ReleasedOnce();
      StripBounds(phase);
    }

    /** The wheel moves the target only. */
    method Crank(notches: real)
      requires Valid()
      modifies this`phaseTarget
      ensures Valid()
      ensures phaseTarget == if done then old(phaseTarget) else PeelerTarget(old(phaseTarget), notches)
    {
      if done { return; }
      TargetKeepsStrip(phaseTarget, notches);
      StripBounds(phaseTarget);
      phaseTarget := PeelerTarget(phaseTarget, notches);
      StripBounds(phaseTarget);
    }

    /** A strip comes off and its peel flies; with four in the air the oldest is dropped. */
    method FinishStrip(k: nat)
      requires k == strips && LastReleased(sh, strips)
      modifies this`strips, this`sh
      ensures strips == k + 1 && LastReleased(sh, strips)
      ensures |sh| > 0 && sh == Joined(old(sh), k)
    {
      if |sh| == MAX_SH { sh := sh[1..]; }
      sh := sh + [Shaving(k, 0.0)];
      strips := k + 1;
    }

    /** The peels in the air age together; those whose time is up leave, and the others close up. */
    method AgeShavings(dt: real)
      requires LastReleased(sh, strips) && dt >= 0.0
      modifies this`sh
      ensures sh == Kept(old(sh), dt) && LastReleased(sh, strips)
    {
      ghost var was := sh;
      StillLast(sh, strips, dt);
      assert was[..0] == [] && Kept(was[..0], dt) == [];
      hide LastReleased, Kept, Aged;
      var keep := 0;
      for i := 0 to |sh|
        invariant 0 <= keep <= i && |sh| == |was|
        invariant sh[..keep] == Kept(was[..i], dt)
        invariant sh[i..] == was[i..]
      {
        assert sh[i] == sh[i..][0] && sh[i + 1..] == sh[i..][1..];
        KeptNext(was, i, dt);
        Compacted(sh, keep, i, Aged(sh[i], dt));
        sh := sh[i := Aged(sh[i], dt)];
        if sh[i].t < AIR_TIME {
          sh := sh[keep := sh[i]];
          keep := keep + 1;
        }
      }
      assert was[..|was|] == was;
      sh := sh[..keep];
    }

    /** The blade eases toward the target and, on reaching the release point of the next strip, takes it off, once. */
    method Turn(dt: real) returns (turned: bool)
      requires Valid() && dt >= 0.0
      modifies this`phase, this`phaseTarget, this`strips, this`done, this`sh, this`reach
      ensures Valid() && reach == Max(old(reach), phase)
      ensures phase == Ease(old(phase), old(phaseTarget), PERIOD, dt)
      ensures strips == old(strips) || strips == old(strips) + 1
      ensures sh == if strips == old(strips) then old(sh) else Joined(old(sh), old(strips))
      ensures Strip(old(phase)) <= Strip(phase) && phaseTarget == if done then phase else old(phaseTarget)
      ensures turned == Moved(old(phase), old(phaseTarget))
      ensures !turned ==> phase == old(phase) && sh == old(sh)
    {
      EasedSound(phase, phaseTarget, strips, reach, dt);
      hide Ease, Sound, LastReleased, Strip, Release, Kept, Aged, Joined;
      reach := Max(reach, Ease(phase, phaseTarget, PERIOD, dt));
      turned := Moved(phase, phaseTarget);
      if turned {
        phase := Ease(phase, phaseTarget, PERIOD, dt);
        if strips < STRIPS && phase >= Release(strips) {
          FinishStrip(strips);
          if strips >= STRIPS {
            phaseTarget := phase;
            done := true;
          }
        }
      }
    }

    /** A frame, and what it moved: the potato with the peeler, and the peels in the air. */
    method Step(dt: real) returns (turned: bool, flew: bool)
      requires Valid() && dt >= 0.0
      modifies this
      ensures Valid() && reach == Max(old(reach), phase)
      ensures phase == Ease(old(phase), old(phaseTarget), PERIOD, dt)
      ensures old(strips) <= strips <= old(strips) + 1 && Strip(old(phase)) <= Strip(phase)
      ensures sh == Kept(if strips == old(strips) then old(sh) else Joined(old(sh), old(strips)), dt)
      ensures phaseTarget == if done then phase else old(phaseTarget)
      ensures turned == Moved(old(phase), old(phaseTarget)) && (!turned ==> phase == old(phase))
      ensures !flew ==> sh == old(sh) == []
      ensures !turned && old(sh) == [] ==> !flew
    {
      hide Ease, Sound, LastReleased, Strip, Release, Kept, Aged, Joined;
      turned := Turn(dt);
      flew := sh != [];
      AgeShavings(dt);
    }
  }

  /** And the wheel does take it back: strip 0 is off, and is drawn with its skin. */
  method ShowSkinAgain() returns (p: Potato)
    ensures fresh(p) && p.Valid() && p.strips == 1 && !ShownPeeled(ShownPose(p.phase), 0)
  {
    hide Sound, LastReleased, Ease, PeelerTarget, Release, Strip, ShownPose;
    Numbers();
    p := new Potato();
    p.Crank(4.795);
    var _, _ := p.Step(0.0625);
    var _, _ := p.Step(0.0625);
    p.ReleasedOnce();
    p.ShownAgrees(0);
    p.Crank(-3.0);
    var _, _ := p.Step(0.0625);
    p.ReleasedOnce();
    p.ShownAgrees(0);
  }

  lemma Numbers()
    ensures PeelerTarget(0.0, 4.795) == 4.795 && PeelerTarget(4.795, -3.0) == 1.795 && Release(0) == 4.79
    ensures Ease(0.0, 4.795, PERIOD, 0.0625) == 2.7 && Ease(2.7, 4.795, PERIOD, 0.0625) == 4.795
    ensures Ease(4.795, 1.795, PERIOD, 0.0625) == 2.095
    ensures Strip(2.7) == Strip(4.795) == Strip(2.095) == 0
  {
    StripBounds(4.795);
    StripBounds(2.095);
    StripBounds(2.7);
  }

  /** Between the blade and its target there is no strip to fall back to. */
  lemma Onward(was: real, phase: real, target: real, reach: real)
    requires Strip(reach) == Strip(was) <= Strip(target) && was <= reach
    requires if was <= target then was <= phase <= target else target <= phase <= was
    ensures Strip(was) <= Strip(phase) <= Strip(target) && Strip(Max(reach, phase)) == Strip(phase)
  {
  }
}
