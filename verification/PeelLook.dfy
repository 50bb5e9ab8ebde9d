/**
 What the colours of a potato's pixel mean: skin where nothing is peeled, flesh where its strip is, and a rim in
 between. A strip that is drawn peeled shows flesh, one that is still to come shows skin.
 */
module PeelLook {
  import opened StripIndex
  import opened PotatoImage
  import Peeler

  /** Two strips go into a byte: one in the low half, one in the high half. */
  lemma Packed(p: Px, own: nat, above: nat, right: nat, left: nat)
    requires own < 16 && above < 16 && right < 16 && left < 16
    requires p.s0 == own + 16 * above && p.s1 == right + 16 * left
    ensures p.Ok() && p.Own() == own && p.Above() == above && p.Right() == right && p.Left() == left
  {
  }

  predicate Coloured(p: Px) { p.Ok() && p.flesh != p.rim && p.rim != p.skin && p.flesh != p.skin }

  /** Flesh exactly where the pixel's own strip is peeled down past it. */
  lemma FleshWhen(p: Px, pc: Peel)
    requires Coloured(p)
    ensures Pick(p, pc) == p.flesh <==> pc[p.Own()] < p.uy
  {
  }

  /** Skin where every line that the pixel sees is above it by the edge; and there is skin only where none is below. */
  lemma SkinWhen(p: Px, pc: Peel)
    requires Coloured(p)
    ensures (forall k: nat | k < STRIPS && p.Sees(k) :: p.uy + 0.045 <= pc[k]) ==> Pick(p, pc) == p.skin
    ensures Pick(p, pc) == p.skin ==> forall k: nat | k < STRIPS && p.Sees(k) :: p.uy <= pc[k]
  {
    assert p.Sees(p.Own()) && p.Sees(p.Above()) && p.Sees(p.Right()) && p.Sees(p.Left());
  }

  /** A rim is the border of what is peeled: a line next to the pixel is below it, or above it by less than the edge. */
  lemma RimWhen(p: Px, pc: Peel)
    requires Coloured(p) && Pick(p, pc) == p.rim
    ensures pc[p.Own()] >= p.uy && exists k: nat :: k < STRIPS && p.Sees(k) && pc[k] < p.uy + 0.045
  {
    assert p.Sees(p.Above()) && p.Sees(p.Right()) && p.Sees(p.Left());
  }

  /** How far the peeling of a pixel has got. */
  function Bareness(p: Px, look: Pixel): int { if look == p.flesh then 2 else if look == p.rim then 1 else 0 }

  /** Peeling on never covers anything again. */
  lemma PeelsOn(p: Px, pc: Peel, pc': Peel)
    requires Coloured(p) && forall k :: 0 <= k < STRIPS ==> pc'[k] <= pc[k]
    ensures Bareness(p, Pick(p, pc)) <= Bareness(p, Pick(p, pc'))
  {
  }

  // ---- The lines of a pose ----

  /** The peel lines of a pose; stroke gives the line for how far a stroke has got. */
  function Lines(q: Peeler.Pose, stroke: real -> real): Peel {
    seq(STRIPS, k requires 0 <= k < STRIPS =>
      if k < q.k || (k == q.k && q.pp >= 1.0) then -2.0
      else if k == q.k && q.pp > 0.0 then stroke(q.pp)
      else 2.0)
  }

  /** A strip that is drawn peeled shows flesh on all its pixels. */
  lemma PeeledShowsFlesh(cast: Cast, q: Peeler.Pose, stroke: real -> real, n: nat)
    requires GoodCast(cast) && n < |cast| && cast[n].Covered? && -1.0 <= cast[n].px.uy <= 1.0
    requires Peeler.ShownPeeled(q, cast[n].px.Own())
    ensures FullImage(cast, Lines(q, stroke))[n] == cast[n].px.flesh
  {
  }

  /** In a game: from just before its release on, while the blade is not taken back, a strip is bare. */
  lemma ReleasedIsBare(potato: Peeler.Potato, cast: Cast, stroke: real -> real, n: nat)
    requires potato.Valid() && GoodCast(cast) && n < |cast| && cast[n].Covered? && -1.0 <= cast[n].px.uy <= 1.0
    requires potato.phase >= Peeler.Release(cast[n].px.Own()) - 0.002
    ensures FullImage(cast, Lines(Peeler.ShownPose(potato.phase), stroke))[n] == cast[n].px.flesh
  {
    hide Peeler.ShownPose, Peeler.ShownPeeled, Peeler.Release, FullImage, Lines;
    potato.ShownAgrees(cast[n].px.Own());
    PeeledShowsFlesh(cast, Peeler.ShownPose(potato.phase), stroke, n);
  }

  /** Where no strip next to a pixel has been begun there is skin. */
  lemma UntouchedShowsSkin(cast: Cast, q: Peeler.Pose, stroke: real -> real, n: nat)
    requires GoodCast(cast) && n < |cast| && cast[n].Covered? && -1.0 <= cast[n].px.uy <= 1.0
    requires forall k: nat | k < STRIPS && cast[n].px.Sees(k) :: k > q.k || (k == q.k && q.pp <= 0.0)
    ensures FullImage(cast, Lines(q, stroke))[n] == cast[n].px.skin
  {
    var p := cast[n].px;
    assert p.Sees(p.Own()) && p.Sees(p.Above()) && p.Sees(p.Right()) && p.Sees(p.Left());
  }

  /** And beside the potato there is nothing. */
  lemma BackgroundIsClear(cast: Cast, pc: Peel, n: nat)
    requires GoodCast(cast) && n < |cast| && cast[n].Background?
    ensures FullImage(cast, pc)[n] == CLEAR
  {
  }
}
