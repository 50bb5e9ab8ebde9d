/** The AES S-box and its inverse, as the oracle builds them at start-up (section 5.1.1 of FIPS-197). */
module SubBytes {
  import opened GaloisField

  function RotL(b: bv8): bv8 { (b << 1) | (b >> 7) }

  function Affine(b: bv8): bv8 {
    b ^ RotL(b) ^ RotL(RotL(b)) ^ RotL(RotL(RotL(b))) ^ RotL(RotL(RotL(RotL(b)))) ^ 0x63
  }

  function InvAffine(s: bv8): bv8 {
    RotL(s) ^ RotL(RotL(RotL(s))) ^ RotL(RotL(RotL(RotL(RotL(RotL(s)))))) ^ 0x05
  }

  function SBox(x: bv8): bv8 { Affine(Inverse(x)) }

  function InvSBox(y: bv8): bv8 { Inverse(InvAffine(y)) }

  lemma AffineInverse(b: bv8)
    ensures InvAffine(Affine(b)) == b && Affine(InvAffine(b)) == b
  {
  }

  /** The S-box is a permutation of the bytes, and InvSBox its inverse. */
  lemma SBoxBijective(x: bv8)
    ensures InvSBox(SBox(x)) == x && SBox(InvSBox(x)) == x
  {
    hide Affine, InvAffine, Inverse;
    AffineInverse(Inverse(x));
    AffineInverse(x);
    InverseInvolution(x);
    InverseInvolution(InvAffine(x));
  }

  // ---- The tables ----

  type Table = s: seq<bv8> | |s| == 256 witness seq(256, _ => 0)

  function Index(x: bv8): (n: nat)
    ensures n < 256
  {
    x as int
  }

  function Byte(n: nat): bv8
    requires n < 256
  {
    n as bv8
  }

  function At(t: Table, x: bv8): bv8 { t[Index(x)] }

  ghost predicate IsSBox(t: Table) { forall x: bv8 :: At(t, x) == SBox(x) }

  ghost predicate IsInvSBox(t: Table) { forall y: bv8 :: At(t, y) == InvSBox(y) }

  lemma IndexByte(x: bv8)
    ensures Byte(Index(x)) == x
    ensures x != 0 ==> Index(x) > 0
    ensures Index(x) == 255 ==> x == 0xFF
  {
  }

  lemma IndexNext(x: bv8)
    requires x != 0xFF
    ensures Index(x + 1) == Index(x) + 1
  {
  }

  /** Counting up from 0 meets every index. */
  lemma {:induction false} ByteIndex(n: nat)
    requires n < 256
    ensures Index(Byte(n)) == n
  {
    if n == 0 {
      assert Index(0) == 0;
      IndexByte(0);
    } else {
      ByteIndex(n - 1);
      var x := Byte(n - 1);
      IndexByte(x);
      IndexNext(x);
      IndexByte(x + 1);
    }
  }

  /** The first b, counting up, with a * b == 1; 0 when there is none. */
  method SearchInverse(a: bv8) returns (r: bv8)
    ensures r == Inverse(a)
  {
    hide Inverse, Mul;
    r := 0;
    for n := 1 to 256
      invariant forall m :: 1 <= m < n ==> Mul(a, Byte(m)) != 1
    {
      var b := Byte(n);
      var p := Gmul(a, b);
      if p == 1 {
        InverseUnique(a, b);
        return b;
      }
    }
    InverseLaw(a);
    if a != 0 {
      IndexByte(Inverse(a));
      assert false;
    }
  }

  /** The affine step: fold in the four rotations. */
  method AffineLoop(inv: bv8) returns (s: bv8)
    ensures s == Affine(inv)
  {
    var b := inv;
    s := b;
    for i := 0 to 4
      invariant i == 0 ==> b == inv && s == inv
      invariant i == 1 ==> b == RotL(inv) && s == inv ^ RotL(inv)
      invariant i == 2 ==> b == RotL(RotL(inv)) && s == inv ^ RotL(inv) ^ RotL(RotL(inv))
      invariant i == 3 ==> b == RotL(RotL(RotL(inv))) && s == inv ^ RotL(inv) ^ RotL(RotL(inv)) ^ RotL(RotL(RotL(inv)))
      invariant i == 4 ==> s ^ 0x63 == Affine(inv)
    {
      b := (b << 1) | (b >> 7);
      s := s ^ b;
    }
    s := s ^ 0x63;
  }

  method BuildSBox() returns (out: Table)
    ensures IsSBox(out)
  {
    hide Inverse, Affine, Mul;
    var inv: seq<bv8> := [];
    for a := 0 to 256
      invariant |inv| == a && forall n :: 0 <= n < a ==> inv[n] == Inverse(Byte(n))
    {
      var b := SearchInverse(Byte(a));
      inv := inv + [b];
    }
    var box: seq<bv8> := [];
    for a := 0 to 256
      invariant |box| == a && forall n :: 0 <= n < a ==> box[n] == SBox(Byte(n))
    {
      var s := AffineLoop(inv[a]);
      box := box + [s];
    }
    out := box;
    forall x: bv8 ensures At(out, x) == SBox(x) { IndexByte(x); }
  }

  /** Turn the table round. No entry is written twice, since the S-box is injective. */
  method BuildInvSBox(sbox: Table) returns (out: Table)
    requires IsSBox(sbox)
    ensures IsInvSBox(out)
  {
    hide SBox, InvSBox;
    var inv := new bv8[256](_ => 0);
    for i := 0 to 256
      invariant forall n :: 0 <= n < i ==> inv[Index(SBox(Byte(n)))] == Byte(n)
    {
      ByteIndex(i);
      var v := At(sbox, Byte(i));
      forall n | 0 <= n < i ensures Index(SBox(Byte(n))) != Index(v) { SBoxInjective(n, i); }
      inv[Index(v)] := Byte(i);
    }
    out := inv[..];
    forall y: bv8 ensures At(out, y) == InvSBox(y) {
      SBoxBijective(y);
      IndexByte(InvSBox(y));
      assert inv[Index(SBox(Byte(Index(InvSBox(y)))))] == InvSBox(y);
    }
  }

  lemma SBoxInjective(m: nat, n: nat)
    requires m < 256 && n < 256 && m != n
    ensures Index(SBox(Byte(m))) != Index(SBox(Byte(n)))
  {
    hide SBox, InvSBox;
    ByteIndex(m);
    ByteIndex(n);
    SBoxBijective(Byte(m));
    SBoxBijective(Byte(n));
    IndexByte(SBox(Byte(m)));
    IndexByte(SBox(Byte(n)));
  }

  // ---- The values of the standard ----

  function Bit(b: bv8, i: nat): bv8
    requires i < 8
  {
    (b >> i) & 1
  }

  /** Bit i of the affine step, as section 5.1.1 of FIPS-197 has it. */
  lemma AffineBits(b: bv8, i: nat)
    requires i < 8
    ensures Bit(Affine(b), i) ==
            Bit(b, i) ^ Bit(b, (i + 4) % 8) ^ Bit(b, (i + 5) % 8) ^ Bit(b, (i + 6) % 8) ^ Bit(b, (i + 7) % 8) ^
            Bit(0x63, i)
  {
    if i == 0 {} else if i == 1 {} else if i == 2 {} else if i == 3 {}
    else if i == 4 {} else if i == 5 {} else if i == 6 {}
  }

  lemma SBoxIs(x: bv8, v: bv8, y: bv8)
    requires Unrolled(x, v) == 1 && Affine(v) == y
    ensures SBox(x) == y
  {
    hide Affine, Unrolled, Inverse, Mul;
    MulUnrolled(x, v);
    InverseUnique(x, v);
  }

  lemma SBoxOfNothing()
    ensures SBox(0) == 0x63
  {
    InverseLaw(0);
    hide Inverse;
  }

  /** Some entries of the table in figure 7 of FIPS-197. */
  lemma SBoxValues()
    ensures SBox(0x00) == 0x63 && SBox(0x01) == 0x7C && SBox(0x53) == 0xED
    ensures SBox(0x14) == 0xFA && SBox(0xDF) == 0x9E && SBox(0xF4) == 0xBF && SBox(0x09) == 0x01
    ensures SBox(0x20) == 0xB7 && SBox(0x67) == 0x85 && SBox(0xFC) == 0xB0 && SBox(0xDE) == 0x1D
  {
    hide SBox;
    SBoxOfNothing();
    SBoxIs(0x01, 0x01, 0x7C);
    SBoxIs(0x53, 0xCA, 0xED);
    SBoxIs(0x14, 0x99, 0xFA);
    SBoxIs(0xDF, 0x6B, 0x9E);
    SBoxIs(0xF4, 0x68, 0xBF);
    SBoxIs(0x09, 0x4F, 0x01);
    SBoxIs(0x20, 0x3A, 0xB7);
    SBoxIs(0x67, 0x43, 0x85);
    SBoxIs(0xFC, 0xCD, 0xB0);
    SBoxIs(0xDE, 0x90, 0x1D);
  }
}
