/** The peeler's poses baked into images: found again by a key, within a budget, the least recently used going first. */
module SpriteCache {
  const SLOTS := 32
  const BUDGET := 4 * 1024 * 1024

  /** Angle and roll in steps, and which way the fork faces. */
  datatype Pose = Pose(ang: int, roll: int, flip: bool)

  function Key(p: Pose): int { (p.ang + 512) * 256 + (p.roll % 128) * 2 + if p.flip then 1 else 0 }

  /** The steps that a handle's angle and roll can have. */
  predicate Snapped(p: Pose) { -512 <= p.ang < 512 && 0 <= p.roll < 128 }

  function Unkey(k: int): Pose { Pose(k / 256 - 512, k % 256 / 2, k % 2 == 1) }

  lemma UnkeyKey(p: Pose)
    ensures Unkey(Key(p)) == Pose(p.ang, p.roll % 128, p.flip)
  {
    var low := p.roll % 128 * 2 + if p.flip then 1 else 0;
    assert Key(p) == (p.ang + 512) * 256 + low;
    HighAndLow(p.ang + 512, low);
  }

  lemma HighAndLow(high: int, low: nat)
    requires low < 256
    ensures (high * 256 + low) / 256 == high && (high * 256 + low) % 256 == low && (high * 256 + low) % 2 == low % 2
  {
    Even(high * 128, low);
    assert (high * 256 + low) / 256 == high;
  }

  lemma Even(half: int, low: nat)
    ensures (2 * half + low) % 2 == low % 2
  {
  }

  /** Two poses share a key exactly when only whole turns of the roll's counter tell them apart; snapped ones never. */
  lemma KeyTells(p: Pose, q: Pose)
    ensures Key(p) == Key(q) <==> p.ang == q.ang && p.roll % 128 == q.roll % 128 && p.flip == q.flip
    ensures Snapped(p) && Snapped(q) && Key(p) == Key(q) ==> p == q
  {
    UnkeyKey(p);
    UnkeyKey(q);
  }

  datatype Sprite<P> = Sprite(key: int, pic: P, bytes: nat, used: nat)

  function Sum<P>(s: seq<Sprite<P>>): nat { if s == [] then 0 else Sum(s[..|s| - 1]) + s[|s| - 1].bytes }

  /** Slot i is given to the last sprite. */
  function SwappedOut<P>(s: seq<Sprite<P>>, i: nat): (r: seq<Sprite<P>>)
    requires i < |s|
    ensures |r| == |s| - 1
  {
    s[i := s[|s| - 1]][..|s| - 1]
  }

  lemma {:induction false} SumUpdate<P>(s: seq<Sprite<P>>, i: nat, x: Sprite<P>)
    requires i < |s|
    ensures Sum(s[i := x]) == Sum(s) - s[i].bytes + x.bytes
  {
    var n := |s| - 1;
    if i < n {
      SumUpdate(s[..n], i, x);
      assert s[i := x][..n] == s[..n][i := x];
    } else {
      assert s[i := x][..n] == s[..n];
    }
  }

  lemma SumSwapped<P>(s: seq<Sprite<P>>, i: nat)
    requires i < |s|
    ensures Sum(SwappedOut(s, i)) == Sum(s) - s[i].bytes
  {
    SumUpdate(s, i, s[|s| - 1]);
  }

  /** How a pose is drawn at a scale, how much its image takes, and whether it covers anything. */
  datatype Artist<!P> = Artist(draw: (Pose, real) -> P, bytes: (Pose, real) -> nat, blank: (Pose, real) -> bool)

  /** Which steps of a bake succeed: room for the drawing tasks, the canvas, and the memory. */
  datatype Luck = Luck(tasks: bool, canvas: bool, memory: bool)

  ghost predicate Tells<P>(s: seq<Sprite<P>>, clock: nat) {
    (forall i :: 0 <= i < |s| ==> s[i].used <= clock) &&
    forall i, j :: 0 <= i < j < |s| ==> s[i].key != s[j].key && s[i].used != s[j].used
  }

  ghost predicate Shows<P>(s: seq<Sprite<P>>, artist: Artist<P>, scale: real) {
    forall i :: 0 <= i < |s| ==> s[i].pic == artist.draw(Unkey(s[i].key), scale)
  }

  /** r is what is left of s; whatever is gone was used before all that is left. */
  ghost predicate OldestGone<P>(s: seq<Sprite<P>>, r: seq<Sprite<P>>) {
    (forall x :: x in r ==> x in s) && forall x, y :: x in s && x !in r && y in r ==> x.used < y.used
  }

  lemma Swapped<P(!new)>(s: seq<Sprite<P>>, i: nat)
    requires i < |s|
    ensures forall x :: x in SwappedOut(s, i) ==> x in s
    ensures forall x :: x in s && x !in SwappedOut(s, i) ==> x == s[i]
  {
    var r := SwappedOut(s, i);
    forall k | 0 <= k < |s| && k != i ensures s[k] in r {
      if k < |r| { assert r[k] == s[k]; } else { assert r[i] == s[k]; }
    }
  }

  lemma OldestNext<P(!new)>(s: seq<Sprite<P>>, t: seq<Sprite<P>>, i: nat, clock: nat)
    requires OldestGone(s, t) && Tells(t, clock) && i < |t|
    requires forall k :: 0 <= k < |t| ==> t[i].used <= t[k].used
    ensures OldestGone(s, SwappedOut(t, i))
  {
    var r := SwappedOut(t, i);
    Swapped(t, i);
    forall x, y | x in s && x !in r && y in r ensures x.used < y.used {
      if x in t {
        var k :| 0 <= k < |t| && t[k] == y;
        assert t[i] !in r by { NotIn(t, i, clock); }
      }
    }
  }

  lemma NotIn<P(!new)>(t: seq<Sprite<P>>, i: nat, clock: nat)
    requires Tells(t, clock) && i < |t|
    ensures t[i] !in SwappedOut(t, i)
  {
    var r := SwappedOut(t, i);
    forall k | 0 <= k < |r| ensures r[k].key != t[i].key {
      assert r[k] == if k == i then t[|t| - 1] else t[k];
    }
  }

  /** Of what went from s, this sprite was used last, and with it kept there was no room yet. */
  ghost predicate LastToGo<P>(s: seq<Sprite<P>>, r: seq<Sprite<P>>, bytes: nat, last: Sprite<P>, need: nat) {
    last in s && last !in r && (forall x :: x in s && x !in r ==> x.used <= last.used) &&
    (|r| + 1 == SLOTS || bytes + last.bytes + need > BUDGET)
  }

  lemma LastWent<P(!new)>(s: seq<Sprite<P>>, t: seq<Sprite<P>>, bytes: nat, i: nat, clock: nat, need: nat)
    requires OldestGone(s, t) && Tells(t, clock) && i < |t|
    requires bytes == Sum(t) && Sum(SwappedOut(t, i)) == bytes - t[i].bytes
    requires forall k :: 0 <= k < |t| ==> t[i].used <= t[k].used
    requires |t| == SLOTS || bytes + need > BUDGET
    ensures LastToGo(s, SwappedOut(t, i), Sum(SwappedOut(t, i)), t[i], need)
  {
    Swapped(t, i);
    NotIn(t, i, clock);
    assert t[i] in t;
  }

  class Sprites<!P(!new)> {
    var slots: seq<Sprite<P>>
    var bytes: nat
    var clock: nat
    var scale: real
    var canvas: bool

    ghost predicate Valid(artist: Artist<P>)
      reads this
    {
      |slots| <= SLOTS && bytes == Sum(slots) <= BUDGET && Tells(slots, clock) && Shows(slots, artist, scale)
    }

    constructor (artist: Artist<P>)
      ensures Valid(artist) && slots == []
    {
      slots, bytes, clock, scale, canvas := [], 0, 0, 0.0, false;
    }

    method Evict(i: nat, ghost artist: Artist<P>)
      requires Valid(artist) && i < |slots|
      modifies this`slots, this`bytes
      ensures Valid(artist) && slots == SwappedOut(old(slots), i)
    {
      SumSwapped(slots, i);
      bytes := bytes - slots[i].bytes;
      slots := SwappedOut(slots, i);
    }

    method Oldest() returns (o: nat)
      requires slots != []
      ensures o < |slots| && forall k :: 0 <= k < |slots| ==> slots[o].used <= slots[k].used
    {
      o := 0;
      for i := 1 to |slots|
        invariant o < |slots| && forall k :: 0 <= k < i ==> slots[o].used <= slots[k].used
      {
        if slots[i].used < slots[o].used { o := i; }
      }
    }

    predicate Full(need: nat)
      reads this
    {
      |slots| == SLOTS || bytes + need > BUDGET
    }

    /** Sprites go, least recently used first, until there is room or none is left. */
    method MakeRoom(need: nat, ghost artist: Artist<P>)
      requires Valid(artist)
      modifies this`slots, this`bytes
      ensures Valid(artist) && OldestGone(old(slots), slots) && (slots == [] || !Full(need))
      ensures !old(Full(need)) ==> slots == old(slots)
      ensures slots == old(slots) || exists last :: LastToGo(old(slots), slots, bytes, last, need)
    {
      hide Tells, Shows, Sum, LastToGo;
      while slots != [] && Full(need)
        invariant Valid(artist) && OldestGone(old(slots), slots)
        invariant !old(Full(need)) ==> slots == old(slots)
        invariant slots == old(slots) || exists last :: LastToGo(old(slots), slots, bytes, last, need)
        decreases |slots|
      {
        var o := Oldest();
        OldestNext(old(slots), slots, o, clock);
        ghost var t, b := slots, bytes;
        Evict(o, artist);
        SumSwapped(t, o);
        LastWent(old(slots), t, b, o, clock, need);
      }
    }

    /** The slot of a key, or -1. */
    method Lookup(key: int) returns (i: int)
      ensures -1 <= i < |slots| && (i >= 0 ==> slots[i].key == key)
      ensures i < 0 ==> forall k :: 0 <= k < |slots| ==> slots[k].key != key
    {
      for k := 0 to |slots|
        invariant forall j :: 0 <= j < k ==> slots[j].key != key
      {
        if slots[k].key == key { return k; }
      }
      i := -1;
    }

    /** Sprites of another scale are of no use. */
    method SetScale(s: real, ghost artist: Artist<P>)
      requires Valid(artist)
      modifies this
      ensures Valid(artist) && scale == s
      ensures slots == if old(scale) == s then old(slots) else []
    {
      if scale != s {
        slots := [];
        bytes := 0;
        clock := 0;
        scale := s;
      }
    }

    /**
     The sprite of a pose, or -1 to have it drawn live. What is returned is what drawing it live would show.
     A pose that is there is found and nothing goes; one that is not is baked when asked to, and only then
     may others go, the least recently used first.
     */
    method Get(p: Pose, s: real, bake: bool, artist: Artist<P>, luck: Luck) returns (i: int)
      requires Valid(artist) && Snapped(p)
      modifies this
      ensures Valid(artist) && scale == s && -1 <= i < |slots|
      ensures i >= 0 ==> slots[i].pic == artist.draw(p, s) && slots[i].key == Key(p) && slots[i].used == clock
      ensures var was := if old(scale) == s then old(slots) else [];
              if HasKey(was, Key(p)) then i >= 0 && |slots| == |was|
              else if !bake || artist.blank(p, s) then i < 0 && slots == was
              else OldestGone(was, if i < 0 then slots else slots[..i])
      ensures bake && !artist.blank(p, s) && artist.bytes(p, s) <= BUDGET && luck == Luck(true, true, true) ==> i >= 0
    {
      hide Tells, Shows, Sum, OldestGone, Key, Unkey;
      SetScale(s, artist);
      ghost var was := slots;
      UnkeyOf(p);
      i := Lookup(Key(p));
      if i >= 0 {
        Touched(slots, i, clock, artist, scale);
        ShownAt(slots, i, artist, scale);
        clock := clock + 1;
        slots := slots[i := slots[i].(used := clock)];
        return;
      }
      if !bake { return; }
      if artist.blank(p, s) { return; }
      var need := artist.bytes(p, s);
      MakeRoom(need, artist);
      StillNoKey(was, slots, Key(p));
      if need > BUDGET || !luck.tasks { return; }
      if luck.canvas { canvas := true; }
      if !canvas || !luck.memory { return; }
      Fits(slots, bytes, need);
      var x := Sprite(Key(p), artist.draw(p, s), need, clock + 1);
      Appended(slots, x, clock, artist, scale);
      clock := clock + 1;
      i := |slots|;
      slots := slots + [x];
      bytes := bytes + need;
      assert slots[..i] == slots[..|slots| - 1];
    }
  }

  predicate HasKey<P>(s: seq<Sprite<P>>, key: int) { exists k :: 0 <= k < |s| && s[k].key == key }

  lemma UnkeyOf(p: Pose)
    requires Snapped(p)
    ensures Unkey(Key(p)) == p
  {
    UnkeyKey(p);
  }

  lemma ShownAt<P>(s: seq<Sprite<P>>, i: nat, artist: Artist<P>, scale: real)
    requires i < |s| && Shows(s, artist, scale)
    ensures s[i].pic == artist.draw(Unkey(s[i].key), scale)
  {
  }

  lemma StillNoKey<P(!new)>(s: seq<Sprite<P>>, r: seq<Sprite<P>>, key: int)
    requires OldestGone(s, r) && forall k :: 0 <= k < |s| ==> s[k].key != key
    ensures forall k :: 0 <= k < |r| ==> r[k].key != key
  {
    forall k | 0 <= k < |r| ensures r[k].key != key {
      assert r[k] in s;
    }
  }

  lemma Fits<P>(s: seq<Sprite<P>>, bytes: nat, need: nat)
    requires bytes == Sum(s) && need <= BUDGET && (s == [] || (|s| != SLOTS && bytes + need <= BUDGET))
    ensures bytes + need <= BUDGET
  {
  }

  lemma Touched<P>(s: seq<Sprite<P>>, i: nat, clock: nat, artist: Artist<P>, scale: real)
    requires i < |s| && Tells(s, clock) && Shows(s, artist, scale)
    ensures var r := s[i := s[i].(used := clock + 1)];
            Tells(r, clock + 1) && Shows(r, artist, scale) && Sum(r) == Sum(s)
  {
    SumUpdate(s, i, s[i].(used := clock + 1));
  }

  lemma Appended<P>(s: seq<Sprite<P>>, x: Sprite<P>, clock: nat, artist: Artist<P>, scale: real)
    requires Tells(s, clock) && Shows(s, artist, scale) && x.used == clock + 1
    requires x.pic == artist.draw(Unkey(x.key), scale) && forall k :: 0 <= k < |s| ==> s[k].key != x.key
    ensures Tells(s + [x], clock + 1) && Shows(s + [x], artist, scale) && Sum(s + [x]) == Sum(s) + x.bytes
  {
    SumMore(s, x);
    hide Sum, Unkey;
  }

  lemma SumMore<P>(s: seq<Sprite<P>>, x: Sprite<P>)
    ensures Sum(s + [x]) == Sum(s) + x.bytes
  {
    assert (s + [x])[..|s|] == s;
  }
}
