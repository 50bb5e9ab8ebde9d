/** The AES-256 block cipher of the notes oracle (section 5 of FIPS-197). */
module Aes {
  import opened GaloisField
  import opened SubBytes

  type Word = s: seq<bv8> | |s| == 4 witness [0, 0, 0, 0]
  type Block = s: seq<bv8> | |s| == 16 witness seq(16, _ => 0)
  const ZERO: Block := seq(16, _ => 0)
  type Schedule = s: seq<Block> | |s| == 15 witness seq(15, _ => ZERO)

  function Xor(a: Block, b: Block): Block { seq(16, i requires 0 <= i < 16 => Add(a[i], b[i])) }

  function Substitute(s: Block): Block { seq(16, i requires 0 <= i < 16 => SBox(s[i])) }

  function InvSubstitute(s: Block): Block { seq(16, i requires 0 <= i < 16 => InvSBox(s[i])) }

  // Byte r + 4 * c of the state is row r, column c.

  /** Which byte moves where: row r turns r columns to the left, and back. */
  const LEFT: seq<nat> := [0, 5, 10, 15, 4, 9, 14, 3, 8, 13, 2, 7, 12, 1, 6, 11]
  const RIGHT: seq<nat> := [0, 13, 10, 7, 4, 1, 14, 11, 8, 5, 2, 15, 12, 9, 6, 3]

  lemma LeftRight(k: nat)
    requires k < 16
    ensures LEFT[k] < 16 && RIGHT[k] < 16 && LEFT[RIGHT[k]] == k && RIGHT[LEFT[k]] == k
  {
  }

  function Permute(s: Block, from: seq<nat>): Block
    requires |from| == 16
  {
    seq(16, i requires 0 <= i < 16 => if from[i] < 16 then s[from[i]] else 0)
  }

  function ShiftRows(s: Block): Block { Permute(s, LEFT) }

  function InvShiftRows(s: Block): Block { Permute(s, RIGHT) }

  // ---- Columns ----

  const MIX: Word := [2, 3, 1, 1]
  const INV_MIX: Word := [14, 11, 13, 9]

  function Sum(a: bv8, b: bv8, c: bv8, d: bv8): bv8 { Add(Add(Add(a, b), c), d) }

  function Dot(a: bv8, b: bv8, c: bv8, d: bv8, m: Word): bv8 {
    Sum(Mul(a, m[0]), Mul(b, m[1]), Mul(c, m[2]), Mul(d, m[3]))
  }

  /** A column times the circulant matrix of m: each row starts the coefficients at its own byte. */
  function MixColumn(w: Word, m: Word): Word {
    [Dot(w[0], w[1], w[2], w[3], m), Dot(w[1], w[2], w[3], w[0], m),
     Dot(w[2], w[3], w[0], w[1], m), Dot(w[3], w[0], w[1], w[2], m)]
  }

  function Join(a: Word, b: Word, c: Word, d: Word): Block { a + b + c + d }

  function Mix(s: Block, m: Word): Block {
    Join(MixColumn(s[0..4], m), MixColumn(s[4..8], m), MixColumn(s[8..12], m), MixColumn(s[12..16], m))
  }

  lemma SumAdd(a: bv8, b: bv8, c: bv8, d: bv8, a': bv8, b': bv8, c': bv8, d': bv8)
    ensures Sum(Add(a, a'), Add(b, b'), Add(c, c'), Add(d, d')) == Add(Sum(a, b, c, d), Sum(a', b', c', d'))
  {
    hide Add;
    AddLaws(a, a', b, b');
    AddLaws(Add(a, b), Add(a', b'), c, c');
    AddLaws(Add(Add(a, b), c), Add(Add(a', b'), c'), d, d');
  }

  lemma DotAdd(a: bv8, b: bv8, c: bv8, d: bv8, a': bv8, b': bv8, c': bv8, d': bv8, m: Word)
    ensures Dot(Add(a, a'), Add(b, b'), Add(c, c'), Add(d, d'), m) == Add(Dot(a, b, c, d, m), Dot(a', b', c', d', m))
  {
    hide Add, MulBits, Sum;
    LinearLeft(a, a', m[0], 8);
    LinearLeft(b, b', m[1], 8);
    LinearLeft(c, c', m[2], 8);
    LinearLeft(d, d', m[3], 8);
    SumAdd(Mul(a, m[0]), Mul(b, m[1]), Mul(c, m[2]), Mul(d, m[3]),
           Mul(a', m[0]), Mul(b', m[1]), Mul(c', m[2]), Mul(d', m[3]));
  }

  /** The first byte of a column mixed by m and then by k. */
  function Twice(a: bv8, b: bv8, c: bv8, d: bv8, m: Word, k: Word): bv8 {
    Dot(Dot(a, b, c, d, m), Dot(b, c, d, a, m), Dot(c, d, a, b, m), Dot(d, a, b, c, m), k)
  }

  lemma TwiceAdd(a: bv8, b: bv8, c: bv8, d: bv8, a': bv8, b': bv8, c': bv8, d': bv8, m: Word, k: Word)
    ensures Twice(Add(a, a'), Add(b, b'), Add(c, c'), Add(d, d'), m, k) ==
            Add(Twice(a, b, c, d, m, k), Twice(a', b', c', d', m, k))
  {
    hide Add, Dot;
    DotAdd(a, b, c, d, a', b', c', d', m);
    DotAdd(b, c, d, a, b', c', d', a', m);
    DotAdd(c, d, a, b, c', d', a', b', m);
    DotAdd(d, a, b, c, d', a', b', c', m);
    DotAdd(Dot(a, b, c, d, m), Dot(b, c, d, a, m), Dot(c, d, a, b, m), Dot(d, a, b, c, m),
           Dot(a', b', c', d', m), Dot(b', c', d', a', m), Dot(c', d', a', b', m), Dot(d', a', b', c', m), k);
  }

  /** Two coefficient rows whose circulant matrices are inverse to each other. */
  ghost predicate InverseRows(m: Word, k: Word) {
    Sum(Mul(m[0], k[0]), Mul(m[3], k[1]), Mul(m[2], k[2]), Mul(m[1], k[3])) == 1 &&
    Sum(Mul(m[1], k[0]), Mul(m[0], k[1]), Mul(m[3], k[2]), Mul(m[2], k[3])) == 0 &&
    Sum(Mul(m[2], k[0]), Mul(m[1], k[1]), Mul(m[0], k[2]), Mul(m[3], k[3])) == 0 &&
    Sum(Mul(m[3], k[0]), Mul(m[2], k[1]), Mul(m[1], k[2]), Mul(m[0], k[3])) == 0
  }

  lemma MixRowsInverse()
    ensures InverseRows(MIX, INV_MIX) && InverseRows(INV_MIX, MIX)
  {
    hide MulBits;
    ConstantProducts(2, 3, 1);
  }

  lemma ConstantProducts(two: bv8, three: bv8, one: bv8)
    requires two == 2 && three == 3 && one == 1
    ensures Mul(2, 14) == Mul(14, 2) == 0x1C && Mul(2, 11) == Mul(11, 2) == 0x16
    ensures Mul(2, 13) == Mul(13, 2) == 0x1A && Mul(2, 9) == Mul(9, 2) == 0x12
    ensures Mul(3, 14) == Mul(14, 3) == 0x12 && Mul(3, 11) == Mul(11, 3) == 0x1D
    ensures Mul(3, 13) == Mul(13, 3) == 0x17 && Mul(3, 9) == Mul(9, 3) == 0x1B
    ensures Mul(1, 14) == Mul(14, 1) == 14 && Mul(1, 11) == Mul(11, 1) == 11
    ensures Mul(1, 13) == Mul(13, 1) == 13 && Mul(1, 9) == Mul(9, 1) == 9
  {
    hide Mul;
    forall x: bv8, y: bv8 ensures Mul(x, y) == Mul(y, x) == Unrolled(x, y) {
      MulUnrolled(x, y);
      Commutes(x, y);
    }
  }

  /** A lone byte anywhere in the column: only position 0 reaches the first byte again. */
  lemma LoneByte(x: bv8, m: Word, k: Word)
    requires InverseRows(m, k)
    ensures Twice(x, 0, 0, 0, m, k) == x
    ensures Twice(0, x, 0, 0, m, k) == 0
    ensures Twice(0, 0, x, 0, m, k) == 0
    ensures Twice(0, 0, 0, x, m, k) == 0
  {
    hide Add, MulBits, Dot, Sum;
    LoneDot(x, m);
    Scaled(x, m[0], m[3], m[2], m[1], k);
    Scaled(x, m[1], m[0], m[3], m[2], k);
    Scaled(x, m[2], m[1], m[0], m[3], k);
    Scaled(x, m[3], m[2], m[1], m[0], k);
    MulZero(x, x, 8);
    Commutes(x, 1);
    OneMul(x);
  }

  lemma LoneDot(x: bv8, m: Word)
    ensures Dot(x, 0, 0, 0, m) == Mul(x, m[0]) && Dot(0, x, 0, 0, m) == Mul(x, m[1])
    ensures Dot(0, 0, x, 0, m) == Mul(x, m[2]) && Dot(0, 0, 0, x, m) == Mul(x, m[3])
  {
    hide Add, MulBits;
    forall i | 0 <= i < 4 ensures Mul(0, m[i]) == 0 && Add(0, Mul(x, m[i])) == Add(Mul(x, m[i]), 0) == Mul(x, m[i]) {
      MulZero(x, m[i], 8);
      AddUnit(Mul(x, m[i]));
    }
    AddUnit(0);
  }

  lemma Scaled(x: bv8, p: bv8, q: bv8, r: bv8, s: bv8, k: Word)
    ensures Dot(Mul(x, p), Mul(x, q), Mul(x, r), Mul(x, s), k) ==
            Mul(x, Sum(Mul(p, k[0]), Mul(q, k[1]), Mul(r, k[2]), Mul(s, k[3])))
  {
    hide Add, MulBits;
    Associates(x, p, k[0]);
    Associates(x, q, k[1]);
    Associates(x, r, k[2]);
    Associates(x, s, k[3]);
    var a, b, c, d := Mul(p, k[0]), Mul(q, k[1]), Mul(r, k[2]), Mul(s, k[3]);
    LinearRight(x, a, b, 8);
    LinearRight(x, Add(a, b), c, 8);
    LinearRight(x, Add(Add(a, b), c), d, 8);
  }

  lemma MixedByte(a: bv8, b: bv8, c: bv8, d: bv8, m: Word, k: Word)
    requires InverseRows(m, k)
    ensures Twice(a, b, c, d, m, k) == a
  {
    hide Add, Twice, InverseRows;
    LoneByte(a, m, k);
    LoneByte(b, m, k);
    LoneByte(c, m, k);
    LoneByte(d, m, k);
    AddUnit(a);
    AddUnit(b);
    AddUnit(c);
    AddUnit(d);
    AddUnit(0);
    TwiceAdd(a, 0, 0, 0, 0, b, 0, 0, m, k);
    TwiceAdd(a, b, 0, 0, 0, 0, c, 0, m, k);
    TwiceAdd(a, b, c, 0, 0, 0, 0, d, m, k);
  }

  lemma MixUndone(s: Block, m: Word, k: Word)
    requires InverseRows(m, k)
    ensures Mix(Mix(s, m), k) == s
  {
    hide MixColumn, InverseRows, Join;
    ColumnUndone(s[0..4], m, k);
    ColumnUndone(s[4..8], m, k);
    ColumnUndone(s[8..12], m, k);
    ColumnUndone(s[12..16], m, k);
    Columns(MixColumn(s[0..4], m), MixColumn(s[4..8], m), MixColumn(s[8..12], m), MixColumn(s[12..16], m));
    Whole(s);
  }

  lemma Whole(s: Block)
    ensures Join(s[0..4], s[4..8], s[8..12], s[12..16]) == s
  {
  }

  lemma Columns(a: Word, b: Word, c: Word, d: Word)
    ensures var t := Join(a, b, c, d);
            t[0..4] == a && t[4..8] == b && t[8..12] == c && t[12..16] == d
  {
  }

  lemma ColumnUndone(w: Word, m: Word, k: Word)
    requires InverseRows(m, k)
    ensures MixColumn(MixColumn(w, m), k) == w
  {
    hide Dot, InverseRows;
    MixedByte(w[0], w[1], w[2], w[3], m, k);
    MixedByte(w[1], w[2], w[3], w[0], m, k);
    MixedByte(w[2], w[3], w[0], w[1], m, k);
    MixedByte(w[3], w[0], w[1], w[2], m, k);
  }

  // ---- The cipher ----

  function Scramble(s: Block): Block { ShiftRows(Substitute(s)) }

  function Unscramble(s: Block): Block { InvShiftRows(InvSubstitute(s)) }

  /** Rounds 1..n. */
  function Rounds(rk: Schedule, s: Block, n: nat): Block
    requires n <= 13
  {
    if n == 0 then s else Xor(Mix(Scramble(Rounds(rk, s, n - 1)), MIX), rk[n])
  }

  /** Inverse rounds n, n - 1, .., 1. */
  function InvRounds(rk: Schedule, s: Block, n: nat): Block
    requires n <= 13
    decreases n
  {
    if n == 0 then s else InvRounds(rk, Mix(Xor(Unscramble(s), rk[n]), INV_MIX), n - 1)
  }

  function Encrypt(rk: Schedule, block: Block): Block {
    Xor(Scramble(Rounds(rk, Xor(block, rk[0]), 13)), rk[14])
  }

  function Decrypt(rk: Schedule, block: Block): Block {
    Xor(Unscramble(InvRounds(rk, Xor(block, rk[14]), 13)), rk[0])
  }

  lemma XorTwice(a: Block, k: Block)
    ensures Xor(Xor(a, k), k) == a
  {
    hide Add;
    forall i | 0 <= i < 16 ensures Add(Add(a[i], k[i]), k[i]) == a[i] {
      AddLaws(a[i], k[i], k[i], 0);
      AddUnit(k[i]);
      AddUnit(a[i]);
    }
  }

  lemma ScrambleBothWays(s: Block)
    ensures Unscramble(Scramble(s)) == s && Scramble(Unscramble(s)) == s
  {
    hide SBox, InvSBox;
    forall i | 0 <= i < 16
      ensures Unscramble(Scramble(s))[i] == s[i] && Scramble(Unscramble(s))[i] == s[i]
    {
      LeftRight(i);
      SBoxBijective(s[i]);
    }
  }

  /** One inverse round takes back one round, up to the scrambling the next one takes back. */
  lemma RoundUndone(s: Block, k: Block)
    ensures var t := Xor(Mix(Scramble(s), MIX), k);
            Mix(Xor(Unscramble(Scramble(t)), k), INV_MIX) == Scramble(s)
  {
    hide Scramble, Unscramble, Mix, Xor;
    ScrambleBothWays(Xor(Mix(Scramble(s), MIX), k));
    XorTwice(Mix(Scramble(s), MIX), k);
    MixRowsInverse();
    MixUndone(Scramble(s), MIX, INV_MIX);
  }

  lemma {:induction false} RoundsUndone(rk: Schedule, s: Block, n: nat)
    requires n <= 13
    ensures InvRounds(rk, Scramble(Rounds(rk, s, n)), n) == Scramble(s)
    decreases n
  {
    hide Scramble, Unscramble, Mix, Xor;
    if n > 0 {
      RoundUndone(Rounds(rk, s, n - 1), rk[n]);
      RoundsUndone(rk, s, n - 1);
    }
  }

  lemma {:induction false} InvRoundsUndone(rk: Schedule, t: Block, n: nat)
    requires n <= 13
    ensures Scramble(Rounds(rk, Unscramble(InvRounds(rk, t, n)), n)) == t
    decreases n
  {
    hide Scramble, Unscramble, Mix, Xor;
    ScrambleBothWays(t);
    if n > 0 {
      var unkeyed := Xor(Unscramble(t), rk[n]);
      InvRoundsUndone(rk, Mix(unkeyed, INV_MIX), n - 1);
      MixRowsInverse();
      MixUndone(unkeyed, INV_MIX, MIX);
      XorTwice(Unscramble(t), rk[n]);
    }
  }

  /** The cipher is a permutation of the blocks under any fifteen round keys, and Decrypt its inverse. */
  lemma CipherBijective(rk: Schedule, block: Block)
    ensures Decrypt(rk, Encrypt(rk, block)) == block
    ensures Encrypt(rk, Decrypt(rk, block)) == block
  {
    hide Scramble, Unscramble, Mix, Xor;
    var s := Xor(block, rk[0]);
    XorTwice(Scramble(Rounds(rk, s, 13)), rk[14]);
    RoundsUndone(rk, s, 13);
    ScrambleBothWays(s);
    XorTwice(block, rk[0]);
    var t := Xor(block, rk[14]);
    XorTwice(Unscramble(InvRounds(rk, t, 13)), rk[0]);
    InvRoundsUndone(rk, t, 13);
    XorTwice(block, rk[14]);
  }

  // ---- The cipher byte by byte ----

  /** Row r turns r columns to the left (section 5.1.2 of FIPS-197). */
  lemma RowsTurn(s: Block, r: nat, c: nat)
    requires r < 4 && c < 4
    ensures ShiftRows(s)[r + 4 * c] == s[r + 4 * ((c + r) % 4)]
    ensures InvShiftRows(s)[r + 4 * ((c + r) % 4)] == s[r + 4 * c]
  {
    TurnedTo(r, c);
    LeftRight(r + 4 * c);
  }

  lemma TurnedTo(r: nat, c: nat)
    requires r < 4 && c < 4
    ensures LEFT[r + 4 * c] == r + 4 * ((c + r) % 4)
  {
    if r == 0 {} else if r == 1 {} else if r == 2 {}
    if c == 0 {} else if c == 1 {} else if c == 2 {}
  }

  /** Twice a byte and three times a byte, the coefficients of a mixed column. */
  function Two(a: bv8): bv8 { XTime(a) }

  function Three(a: bv8): bv8 { XTime(a) ^ a }

  lemma Coefficients(a: bv8)
    ensures Mul(a, 1) == a && Mul(a, 2) == Two(a) && Mul(a, 3) == Three(a)
  {
    hide Mul, XTime;
    MulUnrolled(a, 1);
    MulUnrolled(a, 2);
    MulUnrolled(a, 3);
    XTimeBits(a);
    LowBits(a);
  }

  lemma LowBits(a: bv8)
    ensures Unrolled(a, 1) == a
    ensures Unrolled(a, 2) == (a << 1) ^ (if a & 0x80 != 0 then 0x1B else 0)
    ensures Unrolled(a, 3) == (a << 1) ^ (if a & 0x80 != 0 then 0x1B else 0) ^ a
  {
  }

  lemma DotMixes(a: bv8, b: bv8, c: bv8, d: bv8)
    ensures Dot(a, b, c, d, MIX) == Sum(Two(a), Three(b), c, d)
  {
    hide Mul, Two, Three, Sum;
    Coefficients(a);
    Coefficients(b);
    Coefficients(c);
    Coefficients(d);
  }

  /** The byte of column c that is mixed from the bytes i, i + 1, i + 2 and i + 3 of it, going round. */
  function MixedAt(s: Block, c: nat, i: nat): bv8
    requires c < 4 && i < 4
  {
    Sum(Two(s[4 * c + i]), Three(s[4 * c + (i + 1) % 4]), s[4 * c + (i + 2) % 4], s[4 * c + (i + 3) % 4])
  }

  lemma ColumnAt(s: Block, m: Word, c: nat)
    requires c < 4
    ensures Mix(s, m)[4 * c..4 * c + 4] == MixColumn(s[4 * c..4 * c + 4], m)
  {
    hide MixColumn;
    Columns(MixColumn(s[0..4], m), MixColumn(s[4..8], m), MixColumn(s[8..12], m), MixColumn(s[12..16], m));
    if c == 0 {} else if c == 1 {} else if c == 2 {}
  }

  lemma WordMixes(w: Word, i: nat)
    requires i < 4
    ensures MixColumn(w, MIX)[i] == Sum(Two(w[i]), Three(w[(i + 1) % 4]), w[(i + 2) % 4], w[(i + 3) % 4])
  {
    hide Dot, Two, Three, Sum;
    DotMixes(w[i], w[(i + 1) % 4], w[(i + 2) % 4], w[(i + 3) % 4]);
    if i == 0 {} else if i == 1 {} else if i == 2 {}
  }

  /** The columns times the matrix of section 5.1.3. */
  lemma ColumnsMix(s: Block, c: nat, i: nat)
    requires c < 4 && i < 4
    ensures Mix(s, MIX)[4 * c + i] == MixedAt(s, c, i)
  {
    hide Mix, MixColumn, Two, Three, Sum;
    ColumnAt(s, MIX, c);
    WordMixes(s[4 * c..4 * c + 4], i);
    assert Mix(s, MIX)[4 * c + i] == Mix(s, MIX)[4 * c..4 * c + 4][i];
  }

  /** One round, byte by byte: the S-box on four bytes of four columns, mixed, and the round key. */
  ghost predicate IsRound(s: Block, k: Block, t: Block) {
    forall c, i :: 0 <= c < 4 && 0 <= i < 4 ==> IsRoundAt(s, k, t, c, i)
  }

  predicate IsRoundAt(s: Block, k: Block, t: Block, c: nat, i: nat)
    requires c < 4 && i < 4
  {
    t[4 * c + i] ==
    Add(Sum(Two(Came(s, c, i)), Three(Came(s, c, (i + 1) % 4)), Came(s, c, (i + 2) % 4), Came(s, c, (i + 3) % 4)),
        k[4 * c + i])
  }

  /** The byte that comes to row r of column c: substituted, from as many columns on as its row says. */
  function Came(s: Block, c: nat, r: nat): bv8
    requires c < 4 && r < 4
  {
    SBox(s[4 * ((c + r) % 4) + r])
  }

  lemma RoundIs(s: Block, k: Block)
    ensures IsRound(s, k, Xor(Mix(Scramble(s), MIX), k))
  {
    hide Mix, SBox, Two, Three, Sum, Add;
    forall c, i | 0 <= c < 4 && 0 <= i < 4 ensures IsRoundAt(s, k, Xor(Mix(Scramble(s), MIX), k), c, i) {
      ColumnsMix(Scramble(s), c, i);
      CameTo(s, c, i);
      CameTo(s, c, (i + 1) % 4);
      CameTo(s, c, (i + 2) % 4);
      CameTo(s, c, (i + 3) % 4);
      hide Scramble, Came;
    }
  }

  lemma CameTo(s: Block, c: nat, r: nat)
    requires c < 4 && r < 4
    ensures Scramble(s)[4 * c + r] == Came(s, c, r)
  {
    hide SBox;
    RowsTurn(Substitute(s), r, c);
  }

  /** The last round does not mix. */
  ghost predicate IsLastRound(s: Block, k: Block, t: Block) {
    forall c, r :: 0 <= c < 4 && 0 <= r < 4 ==> t[4 * c + r] == Add(Came(s, c, r), k[4 * c + r])
  }

  /** The cipher of section 5.1: the first key added, thirteen rounds with the next keys, and the last round. */
  lemma {:induction false} EncryptIs(rk: Schedule, block: Block, t: seq<Block>)
    requires |t| == 14 && (forall i :: 0 <= i < 16 ==> t[0][i] == Add(block[i], rk[0][i]))
    requires forall n :: 0 <= n < 13 ==> IsRound(t[n], rk[n + 1], t[n + 1])
    ensures IsLastRound(t[13], rk[14], Encrypt(rk, block))
  {
    hide Add, Rounds, IsRound, Came, Scramble;
    assert t[0] == Xor(block, rk[0]);
    RoundsAre(rk, t, 13);
    forall c, r | 0 <= c < 4 && 0 <= r < 4
      ensures Encrypt(rk, block)[4 * c + r] == Add(Came(t[13], c, r), rk[14][4 * c + r])
    {
      CameTo(t[13], c, r);
    }
  }

  lemma {:induction false} RoundsAre(rk: Schedule, t: seq<Block>, n: nat)
    requires n <= 13 && |t| == 14 && forall n :: 0 <= n < 13 ==> IsRound(t[n], rk[n + 1], t[n + 1])
    ensures Rounds(rk, t[0], n) == t[n]
  {
    hide IsRound, Xor, Mix, Scramble;
    if n > 0 {
      RoundsAre(rk, t, n - 1);
      RoundIs(t[n - 1], rk[n]);
      OneRound(t[n - 1], rk[n], t[n], Xor(Mix(Scramble(t[n - 1]), MIX), rk[n]));
    }
  }

  lemma OneRound(s: Block, k: Block, t: Block, u: Block)
    requires IsRound(s, k, t) && IsRound(s, k, u)
    ensures t == u
  {
    hide Add, Sum, Two, Three, Came;
    forall i | 0 <= i < 16 ensures t[i] == u[i] {
      assert IsRoundAt(s, k, t, i / 4, i % 4) && IsRoundAt(s, k, u, i / 4, i % 4);
    }
  }
}
