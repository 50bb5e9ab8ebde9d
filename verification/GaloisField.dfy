/**
 Arithmetic in GF(2^8) with the AES reduction polynomial x^8 + x^4 + x^3 + x + 1
 (section 4.2 of FIPS-197).
 */
module GaloisField {

  /** Addition. The algebra below treats it as a symbol with the laws Xor* prove. */
  function Add(a: bv8, b: bv8): bv8 { a ^ b }

  function Shift(a: bv8): bv8 { a << 1 }

  /** What the bit shifted out at the top folds back to. */
  function Fold(a: bv8): bv8 { if a & 0x80 != 0 then 0x1B else 0 }

  /** Times x. */
  function XTime(a: bv8): bv8 { Add(Shift(a), Fold(a)) }

  /** a when b's low bit is set. */
  function Pick(b: bv8, a: bv8): bv8 { if b & 1 != 0 then a else 0 }

  function Half(b: bv8): bv8 { b >> 1 }

  /** Times the polynomial given by the n low bits of b, low bit first. */
  function MulBits(a: bv8, b: bv8, n: nat): bv8
    decreases n
  {
    if n == 0 then 0 else Add(Pick(b, a), MulBits(XTime(a), Half(b), n - 1))
  }

  function Mul(a: bv8, b: bv8): bv8 { MulBits(a, b, 8) }

  /** The shift-and-add loop. */
  method Gmul(a0: bv8, b0: bv8) returns (p: bv8)
    ensures p == Mul(a0, b0)
  {
    hide XTime, Pick, Half, Add;
    var a, b := a0, b0;
    p := 0;
    AddLaws(0, MulBits(a, b, 8), 0, 0);
    for i := 0 to 8
      invariant Add(p, MulBits(a, b, 8 - i)) == Mul(a0, b0)
    {
      var hi := a & 0x80;
      ghost var was := (p, a, b);
      if b & 1 != 0 { p := p ^ a; }
      a := a << 1;
      if hi != 0 { a := a ^ 0x1B; }
      b := b >> 1;
      LoopStep(was.0, was.1, was.2);
      AddLaws(was.0, Pick(was.2, was.1), MulBits(a, b, 7 - i), 0);
    }
    AddLaws(0, p, 0, 0);
  }

  lemma LoopStep(p: bv8, a: bv8, b: bv8)
    ensures (if b & 1 != 0 then p ^ a else p) == Add(p, Pick(b, a))
    ensures (if a & 0x80 != 0 then (a << 1) ^ 0x1B else a << 1) == XTime(a)
    ensures b >> 1 == Half(b)
  {
  }

  lemma AddUnit(b: bv8)
    ensures Add(0, b) == b && Add(b, 0) == b && Add(b, b) == 0
  {
  }

  lemma AddComm(a: bv8, b: bv8)
    ensures Add(a, b) == Add(b, a)
    ensures Add(a, b) == 0 ==> a == b
  {
  }

  lemma AddAssoc(a: bv8, b: bv8, c: bv8)
    ensures Add(Add(a, b), c) == Add(a, Add(b, c))
  {
  }

  lemma AddLaws(a: bv8, b: bv8, c: bv8, d: bv8)
    ensures Add(a, b) == Add(b, a)
    ensures Add(0, b) == b && Add(b, 0) == b && Add(b, b) == 0
    ensures Add(Add(a, b), c) == Add(a, Add(b, c))
    ensures Add(Add(a, b), Add(c, d)) == Add(Add(a, c), Add(b, d))
    ensures Add(a, b) == 0 ==> a == b
  {
    hide Add;
    AddUnit(b);
    AddComm(a, b);
    AddAssoc(a, b, c);
    AddAssoc(a, b, Add(c, d));
    AddAssoc(b, c, d);
    AddComm(b, c);
    AddAssoc(c, b, d);
    AddAssoc(a, c, Add(b, d));
  }

  lemma XTimeLaws(a: bv8, b: bv8)
    ensures XTime(Add(a, b)) == Add(XTime(a), XTime(b)) && XTime(0) == 0
  {
    hide Add, Shift, Fold;
    ShiftLaws(a, b);
    FoldLaws(a, b);
    AddUnit(0);
    AddLaws(Shift(a), Shift(b), Fold(a), Fold(b));
  }

  lemma ShiftLaws(a: bv8, b: bv8)
    ensures Shift(Add(a, b)) == Add(Shift(a), Shift(b)) && Shift(0) == 0
  {
  }

  lemma FoldLaws(a: bv8, b: bv8)
    ensures Fold(Add(a, b)) == Add(Fold(a), Fold(b)) && Fold(0) == 0
  {
  }

  lemma HalfLaws(b: bv8, c: bv8)
    ensures Half(Add(b, c)) == Add(Half(b), Half(c)) && Half(0) == 0
  {
  }

  lemma PickLaws(a: bv8, b: bv8, c: bv8)
    ensures Pick(Add(b, c), a) == Add(Pick(b, a), Pick(c, a)) && Pick(0, a) == 0
  {
  }

  lemma PickLinear(a: bv8, b: bv8, c: bv8)
    ensures Pick(b, Add(a, c)) == Add(Pick(b, a), Pick(b, c)) && Pick(b, 0) == 0
    ensures XTime(Pick(b, a)) == Pick(b, XTime(a))
  {
    if b & 1 == 0 {
      assert Pick(b, a) == 0 && Pick(b, c) == 0;
    }
  }

  lemma BitLaws(a: bv8, b: bv8, c: bv8)
    ensures XTime(Add(a, b)) == Add(XTime(a), XTime(b)) && XTime(0) == 0
    ensures Half(Add(b, c)) == Add(Half(b), Half(c)) && Half(0) == 0
    ensures Pick(Add(b, c), a) == Add(Pick(b, a), Pick(c, a)) && Pick(0, a) == 0
    ensures Pick(b, Add(a, c)) == Add(Pick(b, a), Pick(b, c)) && Pick(b, 0) == 0
    ensures XTime(Pick(b, a)) == Pick(b, XTime(a))
  {
    hide XTime, Half, Pick, Add;
    XTimeLaws(a, b);
    HalfLaws(b, c);
    PickLaws(a, b, c);
    PickLinear(a, b, c);
  }

  // ---- Mul is a commutative, associative, bilinear product with unit 1 ----

  lemma {:induction false} LinearLeft(a: bv8, c: bv8, b: bv8, n: nat)
    ensures MulBits(Add(a, c), b, n) == Add(MulBits(a, b, n), MulBits(c, b, n))
    decreases n
  {
    hide XTime, Pick, Half, Add;
    if n == 0 {
      AddLaws(0, 0, 0, 0);
    } else {
      LinearLeft(XTime(a), XTime(c), Half(b), n - 1);
      BitLaws(a, c, 0);
      BitLaws(a, b, c);
      AddLaws(Pick(b, a), Pick(b, c), MulBits(XTime(a), Half(b), n - 1), MulBits(XTime(c), Half(b), n - 1));
    }
  }

  lemma {:induction false} LinearRight(a: bv8, b: bv8, c: bv8, n: nat)
    ensures MulBits(a, Add(b, c), n) == Add(MulBits(a, b, n), MulBits(a, c, n))
    decreases n
  {
    hide XTime, Pick, Half, Add;
    if n == 0 {
      AddLaws(0, 0, 0, 0);
    } else {
      LinearRight(XTime(a), Half(b), Half(c), n - 1);
      BitLaws(a, b, c);
      AddLaws(Pick(b, a), Pick(c, a), MulBits(XTime(a), Half(b), n - 1), MulBits(XTime(a), Half(c), n - 1));
    }
  }

  lemma {:induction false} MulXTimeLeft(a: bv8, b: bv8, n: nat)
    ensures MulBits(XTime(a), b, n) == XTime(MulBits(a, b, n))
    decreases n
  {
    hide XTime, Pick, Half, Add;
    BitLaws(0, 0, 0);
    if n > 0 {
      MulXTimeLeft(XTime(a), Half(b), n - 1);
      BitLaws(Pick(b, a), MulBits(XTime(a), Half(b), n - 1), 0);
      BitLaws(a, b, 0);
    }
  }

  lemma {:induction false} MulZero(a: bv8, b: bv8, n: nat)
    ensures MulBits(0, b, n) == 0 && MulBits(a, 0, n) == 0
    decreases n
  {
    hide XTime, Pick, Half, Add;
    if n > 0 {
      BitLaws(a, b, 0);
      AddLaws(0, 0, 0, 0);
      MulZero(XTime(a), Half(b), n - 1);
    }
  }

  /** b halved k times. */
  function Halves(b: bv8, k: nat): bv8 {
    if k == 0 then b else Halves(Half(b), k - 1)
  }

  lemma FourHalves(b: bv8)
    ensures Halves(b, 4) == Half(Half(Half(Half(b))))
  {
    hide Half;
    assert Halves(b, 4) == Halves(Half(b), 3);
    assert Halves(Half(b), 3) == Halves(Half(Half(b)), 2);
    assert Halves(Half(Half(b)), 2) == Halves(Half(Half(Half(b))), 1);
    assert Halves(Half(Half(Half(b))), 1) == Halves(Half(Half(Half(Half(b)))), 0);
  }

  lemma EightHalves(b: bv8)
    ensures Halves(b, 8) == 0
  {
    var h := Half(Half(Half(Half(b))));
    assert Half(Half(Half(Half(h)))) == 0;
    FourHalves(b);
    FourHalves(h);
    HalvesAdd(b, 4, 4);
  }

  lemma {:induction false} HalvesAdd(b: bv8, j: nat, k: nat)
    ensures Halves(b, j + k) == Halves(Halves(b, j), k)
    decreases j
  {
    hide Half;
    if j > 0 { HalvesAdd(Half(b), j - 1, k); }
  }

  /** Bits past the last set one add nothing. */
  lemma {:induction false} MulExtra(a: bv8, b: bv8, n: nat)
    requires Halves(b, n) == 0
    ensures MulBits(a, b, n + 1) == MulBits(a, b, n)
    decreases n
  {
    hide XTime, Pick, Half, Add;
    if n == 0 {
      MulZero(a, b, 1);
    } else {
      MulExtra(XTime(a), Half(b), n - 1);
    }
  }

  /** Horner's rule for the right factor. */
  lemma HornerRight(a: bv8, b: bv8)
    ensures Mul(a, b) == Add(Pick(b, a), XTime(Mul(a, Half(b))))
  {
    hide XTime, Pick, Half, Add;
    EightHalves(b);
    assert Halves(Half(b), 7) == 0;
    MulExtra(XTime(a), Half(b), 7);
    MulXTimeLeft(a, Half(b), 8);
  }

  /** Horner's rule for the left factor. */
  lemma HornerLeft(a: bv8, b: bv8)
    ensures Mul(a, b) == Add(Pick(a, b), XTime(Mul(Half(a), b)))
  {
    hide XTime, Half, Add, MulBits;
    var low := Pick(a, 1);
    assert a == Add(low, XTime(Half(a))) by { Split(a); }
    LinearLeft(low, XTime(Half(a)), b, 8);
    MulXTimeLeft(Half(a), b, 8);
    MulZero(a, b, 8);
    OneMul(b);
  }

  lemma Split(a: bv8)
    ensures a == Add(Pick(a, 1), XTime(Half(a)))
  {
  }

  lemma {:induction false} CommHalves(a: bv8, b: bv8, k: nat)
    requires Halves(a, k) == 0
    ensures Mul(a, b) == Mul(b, a)
    decreases k
  {
    hide XTime, Pick, Half, Add, MulBits;
    if k == 0 {
      MulZero(b, b, 8);
    } else {
      CommHalves(Half(a), b, k - 1);
      HornerLeft(a, b);
      HornerRight(b, a);
    }
  }

  lemma Commutes(a: bv8, b: bv8)
    ensures Mul(a, b) == Mul(b, a)
  {
    EightHalves(a);
    CommHalves(a, b, 8);
  }

  lemma {:induction false} AssocHalves(a: bv8, b: bv8, c: bv8, k: nat)
    requires Halves(a, k) == 0
    ensures Mul(Mul(a, b), c) == Mul(a, Mul(b, c))
    decreases k
  {
    hide XTime, Pick, Half, Add, MulBits;
    if k == 0 {
      MulZero(a, b, 8);
      MulZero(a, c, 8);
      MulZero(a, Mul(b, c), 8);
    } else {
      AssocHalves(Half(a), b, c, k - 1);
      HornerLeft(a, b);
      HornerLeft(a, Mul(b, c));
      LinearLeft(Pick(a, b), XTime(Mul(Half(a), b)), c, 8);
      MulXTimeLeft(Mul(Half(a), b), c, 8);
      MulPick(a, b, c);
    }
  }

  lemma MulPick(a: bv8, b: bv8, c: bv8)
    ensures Mul(Pick(a, b), c) == Pick(a, Mul(b, c))
  {
    hide XTime, Half, Add, MulBits;
    MulZero(b, c, 8);
  }

  lemma Associates(a: bv8, b: bv8, c: bv8)
    ensures Mul(Mul(a, b), c) == Mul(a, Mul(b, c))
  {
    EightHalves(a);
    AssocHalves(a, b, c, 8);
  }

  lemma OneMul(b: bv8)
    ensures Mul(1, b) == b
  {
    MulUnrolled(1, b);
  }

  function PickBit(b: bv8, mask: bv8, a: bv8): bv8 { if b & mask != 0 then a else 0 }

  /** The eight steps written out: on given operands this is plain bit arithmetic. */
  function Unrolled(a: bv8, b: bv8): bv8 {
    var a1 := XTime(a);
    var a2 := XTime(a1);
    var a3 := XTime(a2);
    var a4 := XTime(a3);
    var a5 := XTime(a4);
    var a6 := XTime(a5);
    var a7 := XTime(a6);
    Add(PickBit(b, 0x01, a), Add(PickBit(b, 0x02, a1), Add(PickBit(b, 0x04, a2), Add(PickBit(b, 0x08, a3),
    Add(PickBit(b, 0x10, a4), Add(PickBit(b, 0x20, a5), Add(PickBit(b, 0x40, a6), PickBit(b, 0x80, a7))))))))
  }

  lemma MulUnrolled(a: bv8, b: bv8)
    ensures Mul(a, b) == Unrolled(a, b)
  {
    hide XTime, Add, Pick, PickBit, Half, MulBits;
    var a1, b1 := XTime(a), Half(b);
    var a2, b2 := XTime(a1), Half(b1);
    var a3, b3 := XTime(a2), Half(b2);
    var a4, b4 := XTime(a3), Half(b3);
    var a5, b5 := XTime(a4), Half(b4);
    var a6, b6 := XTime(a5), Half(b5);
    LastBit(XTime(a6), Half(b6));
    MulStep(a6, b6, 2);
    MulStep(a5, b5, 3);
    MulStep(a4, b4, 4);
    MulStep(a3, b3, 5);
    MulStep(a2, b2, 6);
    MulStep(a1, b1, 7);
    MulStep(a, b, 8);
    PicksLow(b, a, a1, a2, a3);
    PicksHigh(b, a4, a5, a6, XTime(a6));
  }

  lemma MulStep(a: bv8, b: bv8, n: nat)
    requires n > 0
    ensures MulBits(a, b, n) == Add(Pick(b, a), MulBits(XTime(a), Half(b), n - 1))
  {
    hide XTime, Add, Pick, Half;
  }

  lemma LastBit(a: bv8, b: bv8)
    ensures MulBits(a, b, 1) == Pick(b, a)
  {
    assert MulBits(XTime(a), Half(b), 0) == 0;
    AddUnit(Pick(b, a));
  }

  lemma PicksLow(b: bv8, a: bv8, a1: bv8, a2: bv8, a3: bv8)
    ensures Pick(b, a) == PickBit(b, 0x01, a)
    ensures Pick(Half(b), a1) == PickBit(b, 0x02, a1)
    ensures Pick(Half(Half(b)), a2) == PickBit(b, 0x04, a2)
    ensures Pick(Half(Half(Half(b))), a3) == PickBit(b, 0x08, a3)
  {
  }

  lemma PicksHigh(b: bv8, a4: bv8, a5: bv8, a6: bv8, a7: bv8)
    ensures var h := Half(Half(Half(Half(b))));
            Pick(h, a4) == PickBit(b, 0x10, a4) && Pick(Half(h), a5) == PickBit(b, 0x20, a5) &&
            Pick(Half(Half(h)), a6) == PickBit(b, 0x40, a6) && Pick(Half(Half(Half(h))), a7) == PickBit(b, 0x80, a7)
  {
  }

  // ---- Every element but 0 has exactly one inverse ----
  //
  // a^17 always lies in the subfield of 16 elements, where inverses are few enough to list:
  // 1/a is a^16 times the listed inverse of a^17.

  /** a^16: squaring is linear, so this is a choice of eight constants. */
  function Power16(a: bv8): bv8 {
    Add(PickBit(a, 0x01, 0x01), Add(PickBit(a, 0x02, 0x5E), Add(PickBit(a, 0x04, 0xE4), Add(PickBit(a, 0x08, 0xE8),
    Add(PickBit(a, 0x10, 0x4D), Add(PickBit(a, 0x20, 0x91), Add(PickBit(a, 0x40, 0x1D), PickBit(a, 0x80, 0x6C))))))))
  }

  predicate InSubfield(n: bv8) {
    n == 0x01 || n == 0x0C || n == 0x0D || n == 0x50 || n == 0x51 || n == 0x5C || n == 0x5D || n == 0xB0 || n ==
    0xB1 || n == 0xBC || n == 0xBD || n == 0xE0 || n == 0xE1 || n == 0xEC || n == 0xED
  }

  function SubfieldInverse(n: bv8): bv8 {
    if n == 0x01 then 0x01 else if n == 0x0C then 0xB0 else if n == 0x0D then 0xE1 else if n == 0x50 then 0xED
    else if n == 0x51 then 0x5C else if n == 0x5C then 0x51 else if n == 0x5D then 0xEC else if n == 0xB0 then
    0x0C else if n == 0xB1 then 0xE0 else if n == 0xBC then 0xBD else if n == 0xBD then 0xBC else if n == 0xE0
    then 0xB1 else if n == 0xE1 then 0x0D else if n == 0xEC then 0x5D else 0x50
  }

  /** a times b lies in the subfield: the powers of x written out in bit arithmetic, which makes this easy to decide. */
  predicate TimesInSubfield(a: bv8, b: bv8) {
    var a1: bv8 := (a << 1) ^ (if a & 0x80 != 0 then 0x1B else 0);
    var a2: bv8 := (a1 << 1) ^ (if a1 & 0x80 != 0 then 0x1B else 0);
    var a3: bv8 := (a2 << 1) ^ (if a2 & 0x80 != 0 then 0x1B else 0);
    var a4: bv8 := (a3 << 1) ^ (if a3 & 0x80 != 0 then 0x1B else 0);
    var a5: bv8 := (a4 << 1) ^ (if a4 & 0x80 != 0 then 0x1B else 0);
    var a6: bv8 := (a5 << 1) ^ (if a5 & 0x80 != 0 then 0x1B else 0);
    var a7: bv8 := (a6 << 1) ^ (if a6 & 0x80 != 0 then 0x1B else 0);
    InSubfield(
      Add(PickBit(b, 0x01, a), Add(PickBit(b, 0x02, a1), Add(PickBit(b, 0x04, a2), Add(PickBit(b, 0x08, a3),
      Add(PickBit(b, 0x10, a4), Add(PickBit(b, 0x20, a5), Add(PickBit(b, 0x40, a6), PickBit(b, 0x80, a7)))))))))
  }

  lemma NormsLow(a: bv8)
    requires a != 0 && a & 0x80 == 0
    ensures TimesInSubfield(a, Power16(a))
  {
  }

  lemma NormsHigh(a: bv8)
    requires a & 0x80 != 0
    ensures TimesInSubfield(a, Power16(a))
  {
  }

  lemma XTimeBits(a: bv8)
    ensures XTime(a) == (a << 1) ^ (if a & 0x80 != 0 then 0x1B else 0)
  {
  }

  lemma NormInSubfield(a: bv8)
    requires a != 0
    ensures InSubfield(Unrolled(a, Power16(a)))
  {
    hide XTime, PickBit, Add;
    var a1 := XTime(a);
    var a2 := XTime(a1);
    var a3 := XTime(a2);
    var a4 := XTime(a3);
    var a5 := XTime(a4);
    var a6 := XTime(a5);
    var a7 := XTime(a6);
    XTimeBits(a);
    XTimeBits(a1);
    XTimeBits(a2);
    XTimeBits(a3);
    XTimeBits(a4);
    XTimeBits(a5);
    XTimeBits(a6);
    if a & 0x80 == 0 { NormsLow(a); } else { NormsHigh(a); }
  }

  lemma PairsLow()
    ensures Unrolled(0x01, 0x01) == 1
    ensures Unrolled(0x0C, 0xB0) == 1
    ensures Unrolled(0x0D, 0xE1) == 1
    ensures Unrolled(0x50, 0xED) == 1
    ensures Unrolled(0x51, 0x5C) == 1
  {
  }

  lemma PairsMiddle()
    ensures Unrolled(0x5C, 0x51) == 1
    ensures Unrolled(0x5D, 0xEC) == 1
    ensures Unrolled(0xB0, 0x0C) == 1
    ensures Unrolled(0xB1, 0xE0) == 1
    ensures Unrolled(0xBC, 0xBD) == 1
  {
  }

  lemma PairsHigh()
    ensures Unrolled(0xBD, 0xBC) == 1
    ensures Unrolled(0xE0, 0xB1) == 1
    ensures Unrolled(0xE1, 0x0D) == 1
    ensures Unrolled(0xEC, 0x5D) == 1
    ensures Unrolled(0xED, 0x50) == 1
  {
  }

  lemma SubfieldHasInverses(n: bv8)
    requires InSubfield(n)
    ensures Unrolled(n, SubfieldInverse(n)) == 1
  {
    PairsLow();
    PairsMiddle();
    PairsHigh();
    hide Unrolled;
  }

  /** The inverse of a, and 0 for 0. */
  function Inverse(a: bv8): bv8 {
    if a == 0 then 0 else Mul(Power16(a), SubfieldInverse(Unrolled(a, Power16(a))))
  }

  lemma InverseIs(a: bv8)
    ensures Inverse(0) == 0
    ensures a != 0 ==> Inverse(a) == Mul(Power16(a), SubfieldInverse(Unrolled(a, Power16(a))))
  {
    hide Mul, Unrolled, Power16, SubfieldInverse;
  }

  lemma MulNothing(a: bv8)
    ensures Mul(a, 0) == 0
  {
    hide Add, XTime, Pick;
    MulZero(a, a, 8);
  }

  /** The norm of a lies in the subfield, where every element has an inverse. */
  lemma InverseLaw(a: bv8)
    ensures a != 0 ==> Mul(a, Inverse(a)) == 1 && Inverse(a) != 0
    ensures Inverse(0) == 0
  {
    hide *;
    InverseIs(a);
    if a != 0 {
      var n := Unrolled(a, Power16(a));
      NormInSubfield(a);
      SubfieldHasInverses(n);
      MulUnrolled(a, Power16(a));
      MulUnrolled(n, SubfieldInverse(n));
      Associates(a, Power16(a), SubfieldInverse(n));
      MulNothing(a);
    }
  }

  lemma InverseUnique(a: bv8, b: bv8)
    requires Mul(a, b) == 1
    ensures b == Inverse(a)
  {
    hide XTime, Add, MulBits, Inverse;
    MulZero(a, b, 8);
    InverseLaw(a);
    var c := Inverse(a);
    Commutes(a, c);
    Associates(c, a, b);
    OneMul(b);
    Commutes(c, 1);
    OneMul(c);
  }

  lemma InverseInvolution(a: bv8)
    ensures Inverse(Inverse(a)) == a
  {
    hide Inverse, MulBits;
    InverseLaw(a);
    InverseLaw(Inverse(a));
    if a != 0 {
      Commutes(a, Inverse(a));
      InverseUnique(Inverse(a), a);
    }
  }

  /** The example of section 4.2 of FIPS-197. */
  lemma FiftySeven()
    ensures Mul(0x57, 0x83) == 0xC1 && Mul(0x57, 0x13) == 0xFE && XTime(0x57) == 0xAE && XTime(0x8E) == 0x07
  {
    MulUnrolled(0x57, 0x83);
    MulUnrolled(0x57, 0x13);
    hide Mul;
  }
}
