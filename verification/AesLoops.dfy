/** AES as loops over tables: key expansion and the block functions (section 5 of FIPS-197). */
module AesLoops {
  import opened GaloisField
  import opened SubBytes
  import opened Aes

  type Key = s: seq<bv8> | |s| == 32 witness seq(32, _ => 0)

  // ---- Key expansion ----

  function XorWord(a: Word, b: Word): Word { [Add(a[0], b[0]), Add(a[1], b[1]), Add(a[2], b[2]), Add(a[3], b[3])] }

  function SubWord(w: Word): Word { [SBox(w[0]), SBox(w[1]), SBox(w[2]), SBox(w[3])] }

  function RotWord(w: Word): Word { [w[1], w[2], w[3], w[0]] }

  const RCON: seq<bv8> := [0x01, 0x02, 0x04, 0x08, 0x10, 0x20, 0x40, 0x80, 0x1B, 0x36]

  /** What word i - 1 turns into before it is added to word i - 8. */
  function Temp(w: Word, i: nat): Word
    requires 8 <= i < 60
  {
    if i % 8 == 0 then XorWord(SubWord(RotWord(w)), [RCON[i / 8 - 1], 0, 0, 0])
    else if i % 8 == 4 then SubWord(w)
    else w
  }

  function KeyWord(key: Key, i: nat): Word
    requires i < 60
  {
    if i < 8 then key[4 * i..4 * i + 4] else XorWord(KeyWord(key, i - 8), Temp(KeyWord(key, i - 1), i))
  }

  function RoundKey(key: Key, r: nat): Block
    requires r < 15
  {
    Join(KeyWord(key, 4 * r), KeyWord(key, 4 * r + 1), KeyWord(key, 4 * r + 2), KeyWord(key, 4 * r + 3))
  }

  function Expand(key: Key): Schedule {
    seq(15, r requires 0 <= r < 15 => RoundKey(key, r))
  }

  method NextTemp(sbox: Table, last: Word, i: nat) returns (temp: Word)
    requires IsSBox(sbox) && 8 <= i < 60
    ensures temp == Temp(last, i)
  {
    hide SBox, Add;
    temp := last;
    if i % 8 == 0 {
      temp := temp[1..] + temp[..1];
      temp := [At(sbox, temp[0]), At(sbox, temp[1]), At(sbox, temp[2]), At(sbox, temp[3])];
      AddUnit(temp[1]);
      AddUnit(temp[2]);
      AddUnit(temp[3]);
      temp := temp[0 := Add(temp[0], RCON[i / 8 - 1])];
    } else if i % 8 == 4 {
      temp := [At(sbox, temp[0]), At(sbox, temp[1]), At(sbox, temp[2]), At(sbox, temp[3])];
    }
  }

  method ExpandWords(sbox: Table, key: Key) returns (words: seq<Word>)
    requires IsSBox(sbox)
    ensures |words| == 60 && forall n :: 0 <= n < 60 ==> words[n] == KeyWord(key, n)
  {
    hide XorWord, Temp, IsSBox;
    words := [];
    for i := 0 to 8
      invariant |words| == i && forall n :: 0 <= n < i ==> words[n] == KeyWord(key, n)
    {
      words := words + [key[4 * i..4 * i + 4]];
    }
    for i := 8 to 60
      invariant |words| == i && forall n :: 0 <= n < i ==> words[n] == KeyWord(key, n)
    {
      var temp := NextTemp(sbox, words[i - 1], i);
      words := words + [XorWord(words[i - 8], temp)];
    }
  }

  method ExpandKey(sbox: Table, key: Key) returns (rk: Schedule)
    requires IsSBox(sbox)
    ensures rk == Expand(key)
  {
    hide Join, KeyWord, IsSBox;
    var words := ExpandWords(sbox, key);
    var keys: seq<Block> := [];
    for r := 0 to 15
      invariant |keys| == r && forall n :: 0 <= n < r ==> keys[n] == RoundKey(key, n)
    {
      keys := keys + [Join(words[4 * r], words[4 * r + 1], words[4 * r + 2], words[4 * r + 3])];
    }
    rk := keys;
  }

  // ---- The state transforms ----

  function SubWith(t: Table, s: Block): Block { seq(16, i requires 0 <= i < 16 => At(t, s[i])) }

  lemma SubWithTables(t: Table, s: Block)
    ensures IsSBox(t) ==> SubWith(t, s) == Substitute(s)
    ensures IsInvSBox(t) ==> SubWith(t, s) == InvSubstitute(s)
  {
    hide SBox, InvSBox;
  }

  method ShiftRowsLoop(s: Block, inverse: bool) returns (out: Block)
    ensures out == if inverse then InvShiftRows(s) else ShiftRows(s)
  {
    hide RowsDone;
    ghost var from := if inverse then RIGHT else LEFT;
    out := ZERO;
    NoRows(out, s, from);
    for r := 0 to 4
      invariant RowsDone(out, s, from, r, 0)
    {
      for c := 0 to 4
        invariant RowsDone(out, s, from, r, c)
      {
        var src := if inverse then (c - r) % 4 else (c + r) % 4;
        Shifts(r, c);
        CellDone(out, s, from, r, c);
        out := out[Pos(r, c) := s[Pos(r, src)]];
      }
      RowEnd(out, s, from, r);
    }
    RowsAllDone(out, s, from);
  }

  /** Row r, column c of the state. */
  function Pos(r: nat, c: nat): (n: nat)
    requires r < 4 && c < 4
    ensures n < 16
  {
    r + 4 * c
  }

  lemma Shifts(r: nat, c: nat)
    requires r < 4 && c < 4
    ensures LEFT[Pos(r, c)] == Pos(r, (c + r) % 4) && RIGHT[Pos(r, c)] == Pos(r, (c - r) % 4)
  {
    if r == 0 {
      assert (c + r) % 4 == c == (c - r) % 4;
    } else if r == 1 {
      assert (c + r) % 4 == [1, 2, 3, 0][c] && (c - r) % 4 == [3, 0, 1, 2][c];
    } else if r == 2 {
      assert (c + r) % 4 == [2, 3, 0, 1][c] && (c - r) % 4 == [2, 3, 0, 1][c];
    } else {
      assert (c + r) % 4 == [3, 0, 1, 2][c] && (c - r) % 4 == [1, 2, 3, 0][c];
    }
  }

  ghost predicate RowsDone(a: Block, s: Block, from: seq<nat>, r: nat, c: nat)
    requires |from| == 16
  {
    forall r': nat, c': nat :: r' < 4 && c' < 4 && (r' < r || (r' == r && c' < c)) ==>
      a[Pos(r', c')] == Permute(s, from)[Pos(r', c')]
  }

  lemma NoRows(a: Block, s: Block, from: seq<nat>)
    requires |from| == 16
    ensures RowsDone(a, s, from, 0, 0)
  {
  }

  lemma CellDone(a: Block, s: Block, from: seq<nat>, r: nat, c: nat)
    requires |from| == 16 && r < 4 && c < 4 && RowsDone(a, s, from, r, c)
    ensures RowsDone(a[Pos(r, c) := Permute(s, from)[Pos(r, c)]], s, from, r, c + 1)
  {
    hide Permute;
  }

  lemma RowEnd(a: Block, s: Block, from: seq<nat>, r: nat)
    requires |from| == 16 && RowsDone(a, s, from, r, 4)
    ensures RowsDone(a, s, from, r + 1, 0)
  {
    hide Permute;
  }

  lemma RowsAllDone(a: Block, s: Block, from: seq<nat>)
    requires |from| == 16 && RowsDone(a, s, from, 4, 0)
    ensures a == Permute(s, from)
  {
    hide Permute;
    forall k | 0 <= k < 16 ensures a[k] == Permute(s, from)[k] {
      assert k == Pos(k % 4, k / 4);
    }
  }

  function RowSum(a: Word, m: Word, row: nat, n: nat): bv8
    requires row < 4 && n <= 4
  {
    if n == 0 then 0 else Add(RowSum(a, m, row, n - 1), Mul(a[n - 1], m[(n - 1 - row) % 4]))
  }

  lemma RowSumIsDot(a: Word, m: Word, row: nat)
    requires row < 4
    ensures RowSum(a, m, row, 4) == MixColumn(a, m)[row]
  {
    hide Mul, Add;
    var p, q, r, s := Mul(a[0], m[(0 - row) % 4]), Mul(a[1], m[(1 - row) % 4]), Mul(a[2], m[(2 - row) % 4]),
      Mul(a[3], m[(3 - row) % 4]);
    RowSumUnrolled(a, m, row);
    SumRotates(p, q, r, s);
    SumRotates(q, r, s, p);
    SumRotates(r, s, p, q);
    if row == 0 {
    } else if row == 1 {
    } else if row == 2 {
    } else {
    }
  }

  lemma RowSumUnrolled(a: Word, m: Word, row: nat)
    requires row < 4
    ensures RowSum(a, m, row, 4) ==
            Sum(Mul(a[0], m[(0 - row) % 4]), Mul(a[1], m[(1 - row) % 4]), Mul(a[2], m[(2 - row) % 4]),
              Mul(a[3], m[(3 - row) % 4]))
  {
    hide Mul, Add;
    AddUnit(Mul(a[0], m[(0 - row) % 4]));
    assert RowSum(a, m, row, 0) == 0;
    assert RowSum(a, m, row, 1) == Mul(a[0], m[(0 - row) % 4]);
    assert RowSum(a, m, row, 2) == Add(RowSum(a, m, row, 1), Mul(a[1], m[(1 - row) % 4]));
    assert RowSum(a, m, row, 3) == Add(RowSum(a, m, row, 2), Mul(a[2], m[(2 - row) % 4]));
  }

  lemma SumRotates(p: bv8, q: bv8, r: bv8, s: bv8)
    ensures Sum(p, q, r, s) == Sum(q, r, s, p)
  {
    hide Add;
    AddComm(p, Add(Add(q, r), s));
    AddAssoc(p, q, r);
    AddAssoc(p, Add(q, r), s);
  }

  method MixColumnsLoop(s: Block, inverse: bool) returns (out: Block)
    ensures out == Mix(s, if inverse then INV_MIX else MIX)
  {
    hide Mul, MixColumn, RowSum;
    var m := if inverse then INV_MIX else MIX;
    var acc: seq<bv8> := [];
    for c := 0 to 4
      invariant acc == MixedFront(s, m, c)
    {
      var col := MixOneColumn(s[4 * c..4 * c + 4], m);
      acc := acc + col;
    }
    MixedFrontIsMix(s, m);
    out := acc;
  }

  /** The first n columns, mixed. */
  function MixedFront(s: Block, m: Word, n: nat): seq<bv8>
    requires n <= 4
  {
    if n == 0 then [] else MixedFront(s, m, n - 1) + MixColumn(s[4 * (n - 1)..4 * n], m)
  }

  lemma MixedFrontIsMix(s: Block, m: Word)
    ensures MixedFront(s, m, 4) == Mix(s, m)
  {
    hide MixColumn;
    assert MixedFront(s, m, 1) == MixColumn(s[0..4], m);
    assert MixedFront(s, m, 2) == MixedFront(s, m, 1) + MixColumn(s[4..8], m);
    assert MixedFront(s, m, 3) == MixedFront(s, m, 2) + MixColumn(s[8..12], m);
  }

  method MixOneColumn(a: Word, m: Word) returns (out: Word)
    ensures out == MixColumn(a, m)
  {
    hide Mul, MixColumn;
    var acc: seq<bv8> := [];
    for row := 0 to 4
      invariant |acc| == row && forall n :: 0 <= n < row ==> acc[n] == MixColumn(a, m)[n]
    {
      var s: bv8 := 0;
      for k := 0 to 4
        invariant s == RowSum(a, m, row, k)
      {
        var p := Gmul(a[k], m[(k - row) % 4]);
        s := Add(s, p);
      }
      RowSumIsDot(a, m, row);
      acc := acc + [s];
    }
    out := acc;
  }

  // ---- The block functions ----

  lemma RoundsUnfold(rk: Schedule, s: Block, n: nat)
    requires n <= 13
    ensures Rounds(rk, s, 0) == s
    ensures n > 0 ==> Rounds(rk, s, n) == Xor(Mix(ShiftRows(Substitute(Rounds(rk, s, n - 1))), MIX), rk[n])
    ensures Encrypt(rk, s) == Xor(ShiftRows(Substitute(Rounds(rk, Xor(s, rk[0]), 13))), rk[14])
  {
    hide Mix, ShiftRows, Substitute, Xor;
  }

  method EncryptBlock(sbox: Table, rk: Schedule, block: Block) returns (state: Block)
    requires IsSBox(sbox)
    ensures state == Encrypt(rk, block)
  {
    hide *;
    state := Xor(block, rk[0]);
    ghost var start := state;
    RoundsUnfold(rk, start, 0);
    for rnd := 1 to 14
      invariant state == Rounds(rk, start, rnd - 1)
    {
      SubWithTables(sbox, state);
      RoundsUnfold(rk, start, rnd);
      var shifted := ShiftRowsLoop(SubWith(sbox, state), false);
      var mixed := MixColumnsLoop(shifted, false);
      state := Xor(mixed, rk[rnd]);
    }
    SubWithTables(sbox, state);
    RoundsUnfold(rk, block, 0);
    state := ShiftRowsLoop(SubWith(sbox, state), false);
    state := Xor(state, rk[14]);
  }

  lemma InvRoundsUnfold(rk: Schedule, s: Block, n: nat)
    requires n <= 13
    ensures InvRounds(rk, s, 0) == s
    ensures n > 0 ==>
      InvRounds(rk, s, n) == InvRounds(rk, Mix(Xor(InvShiftRows(InvSubstitute(s)), rk[n]), INV_MIX), n - 1)
    ensures Decrypt(rk, s) == Xor(InvShiftRows(InvSubstitute(InvRounds(rk, Xor(s, rk[14]), 13))), rk[0])
  {
    hide Mix, InvShiftRows, InvSubstitute, Xor;
  }

  method DecryptBlock(invSbox: Table, rk: Schedule, block: Block) returns (state: Block)
    requires IsInvSBox(invSbox)
    ensures state == Decrypt(rk, block)
  {
    hide *;
    state := Xor(block, rk[14]);
    for rnd := 13 downto 0
      invariant InvRounds(rk, state, rnd) == InvRounds(rk, Xor(block, rk[14]), 13)
    {
      InvRoundsUnfold(rk, state, rnd + 1);
      SubWithTables(invSbox, state);
      state := ShiftRowsLoop(SubWith(invSbox, state), true);
      state := Xor(state, rk[rnd + 1]);
      state := MixColumnsLoop(state, true);
    }
    InvRoundsUnfold(rk, state, 0);
    InvRoundsUnfold(rk, block, 0);
    SubWithTables(invSbox, state);
    state := ShiftRowsLoop(SubWith(invSbox, state), true);
    state := Xor(state, rk[0]);
  }

  // ---- The key schedule of the standard ----

  /** The round constants are the powers of x (section 5.2 of FIPS-197). */
  lemma PowersOfX(i: nat)
    requires i < 9
    ensures RCON[0] == 1 && RCON[i + 1] == XTime(RCON[i])
  {
    if i == 0 {} else if i == 1 {} else if i == 2 {} else if i == 3 {} else if i == 4 {}
    else if i == 5 {} else if i == 6 {} else if i == 7 {}
  }

  /** Byte j of column c of round key r is byte j of word 4 r + c. */
  lemma KeyBytes(key: Key, r: nat, c: nat, j: nat)
    requires r < 15 && c < 4 && j < 4
    ensures Expand(key)[r][4 * c + j] == KeyWord(key, 4 * r + c)[j]
  {
    hide KeyWord;
  }

  const EXAMPLE_KEY: Key := [
    0x60, 0x3D, 0xEB, 0x10, 0x15, 0xCA, 0x71, 0xBE, 0x2B, 0x73, 0xAE, 0xF0, 0x85, 0x7D, 0x77, 0x81,
    0x1F, 0x35, 0x2C, 0x07, 0x3B, 0x61, 0x08, 0xD7, 0x2D, 0x98, 0x10, 0xA3, 0x09, 0x14, 0xDF, 0xF4]

  function W(a: bv8, b: bv8, c: bv8, d: bv8): Word { [a, b, c, d] }

  lemma FirstWord(key: Key, i: nat)
    requires i < 8
    ensures KeyWord(key, i) == W(key[4 * i], key[4 * i + 1], key[4 * i + 2], key[4 * i + 3])
  {
  }

  lemma NextWord(key: Key, i: nat, far: Word, near: Word)
    requires 8 <= i < 60 && KeyWord(key, i - 8) == far && KeyWord(key, i - 1) == near
    ensures KeyWord(key, i) == XorWord(far, Temp(near, i))
  {
    hide XorWord, Temp;
  }

  lemma TempTurned()
    ensures Temp(W(0x09, 0x14, 0xDF, 0xF4), 8) == W(0xFB, 0x9E, 0xBF, 0x01)
  {
    SBoxValues();
    hide SBox;
  }

  lemma TempSubstituted()
    ensures Temp(W(0x20, 0x67, 0xFC, 0xDE), 12) == W(0xB7, 0x85, 0xB0, 0x1D)
  {
    SBoxValues();
    hide SBox;
  }

  lemma TempPlain(w: Word, i: nat)
    requires 8 <= i < 60 && i % 4 != 0
    ensures Temp(w, i) == w
  {
    hide SubWord, RotWord, XorWord;
  }

  /** The example of section A.3: the first words with a rotation, with none, and with a substitution alone. */
  lemma ExampleWords()
    ensures KeyWord(EXAMPLE_KEY, 8) == W(0x9B, 0xA3, 0x54, 0x11) && KeyWord(EXAMPLE_KEY, 9) == W(0x8E, 0x69, 0x25, 0xAF)
    ensures KeyWord(EXAMPLE_KEY, 10) == W(0xA5, 0x1A, 0x8B, 0x5F)
    ensures KeyWord(EXAMPLE_KEY, 11) == W(0x20, 0x67, 0xFC, 0xDE)
    ensures KeyWord(EXAMPLE_KEY, 12) == W(0xA8, 0xB0, 0x9C, 0x1A)
  {
    hide KeyWord, Temp, EXAMPLE_KEY;
    ExampleFirst();
    TempTurned();
    NextWord(EXAMPLE_KEY, 8, W(0x60, 0x3D, 0xEB, 0x10), W(0x09, 0x14, 0xDF, 0xF4));
    TempPlain(W(0x9B, 0xA3, 0x54, 0x11), 9);
    NextWord(EXAMPLE_KEY, 9, W(0x15, 0xCA, 0x71, 0xBE), W(0x9B, 0xA3, 0x54, 0x11));
    TempPlain(W(0x8E, 0x69, 0x25, 0xAF), 10);
    NextWord(EXAMPLE_KEY, 10, W(0x2B, 0x73, 0xAE, 0xF0), W(0x8E, 0x69, 0x25, 0xAF));
    TempPlain(W(0xA5, 0x1A, 0x8B, 0x5F), 11);
    NextWord(EXAMPLE_KEY, 11, W(0x85, 0x7D, 0x77, 0x81), W(0xA5, 0x1A, 0x8B, 0x5F));
    TempSubstituted();
    NextWord(EXAMPLE_KEY, 12, W(0x1F, 0x35, 0x2C, 0x07), W(0x20, 0x67, 0xFC, 0xDE));
  }

  lemma ExampleFirst()
    ensures KeyWord(EXAMPLE_KEY, 0) == W(0x60, 0x3D, 0xEB, 0x10) && KeyWord(EXAMPLE_KEY, 1) == W(0x15, 0xCA, 0x71, 0xBE)
    ensures KeyWord(EXAMPLE_KEY, 2) == W(0x2B, 0x73, 0xAE, 0xF0) && KeyWord(EXAMPLE_KEY, 3) == W(0x85, 0x7D, 0x77, 0x81)
    ensures KeyWord(EXAMPLE_KEY, 4) == W(0x1F, 0x35, 0x2C, 0x07) && KeyWord(EXAMPLE_KEY, 7) == W(0x09, 0x14, 0xDF, 0xF4)
  {
    hide KeyWord, W, EXAMPLE_KEY;
    FirstWord(EXAMPLE_KEY, 0);
    FirstWord(EXAMPLE_KEY, 1);
    FirstWord(EXAMPLE_KEY, 2);
    FirstWord(EXAMPLE_KEY, 3);
    FirstWord(EXAMPLE_KEY, 4);
    FirstWord(EXAMPLE_KEY, 7);
    ExampleLow();
    ExampleHigh();
  }

  lemma ExampleLow()
    ensures var k := EXAMPLE_KEY;
            W(k[0], k[1], k[2], k[3]) == W(0x60, 0x3D, 0xEB, 0x10) &&
            W(k[4], k[5], k[6], k[7]) == W(0x15, 0xCA, 0x71, 0xBE) &&
            W(k[8], k[9], k[10], k[11]) == W(0x2B, 0x73, 0xAE, 0xF0)
  {
    hide W;
  }

  lemma ExampleHigh()
    ensures var k := EXAMPLE_KEY;
            W(k[12], k[13], k[14], k[15]) == W(0x85, 0x7D, 0x77, 0x81) &&
            W(k[16], k[17], k[18], k[19]) == W(0x1F, 0x35, 0x2C, 0x07) &&
            W(k[28], k[29], k[30], k[31]) == W(0x09, 0x14, 0xDF, 0xF4)
  {
    hide W;
  }
}
