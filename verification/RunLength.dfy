/** The screen capture's run-length code: (count, colour) pairs of little-endian 16-bit numbers. */
module RunLength {
  import opened Bytes

  type Pixel = x: int | 0 <= x < 0x1_0000

  const MAX_RUN := 0xFFFF

  datatype Run = Run(count: nat, value: Pixel)

  /** How far the run at the front of px goes, at most `limit`. */
  function FrontRun(px: seq<Pixel>, limit: nat): (n: nat)
    ensures n <= |px| && n <= limit
    ensures forall k :: 0 <= k < n ==> px[k] == px[0]
    ensures n < |px| && n < limit ==> px[n] != px[0]
    decreases limit
  {
    if px == [] || limit == 0 then 0
    else if limit == 1 || |px| == 1 || px[1] != px[0] then 1
    else 1 + FrontRun(px[1..], limit - 1)
  }

  /** The greedy runs: each as long as the colour lasts, up to 65535. */
  function Greedy(px: seq<Pixel>): seq<Run>
    decreases |px|
  {
    if px == [] then []
    else
      var n := FrontRun(px, MAX_RUN);
      [Run(n, px[0])] + Greedy(px[n..])
  }

  function Repeat(v: Pixel, n: nat): seq<Pixel> { seq(n, _ => v) }

  function Expand(runs: seq<Run>): seq<Pixel> {
    if runs == [] then [] else Repeat(runs[0].value, runs[0].count) + Expand(runs[1..])
  }

  /** Every count is 1..65535. */
  predicate Countable(runs: seq<Run>) {
    runs != [] ==> 1 <= runs[0].count <= MAX_RUN && Countable(runs[1..])
  }

  lemma FrontRunPositive(px: seq<Pixel>) returns (n: nat)
    requires px != []
    ensures n == FrontRun(px, MAX_RUN) && 1 <= n <= |px| && n <= MAX_RUN
    ensures forall k :: 0 <= k < n ==> px[k] == px[0]
  {
    n := FrontRun(px, MAX_RUN);
  }

  lemma SplitRun(px: seq<Pixel>, n: nat)
    requires 1 <= n <= |px| && forall k :: 0 <= k < n ==> px[k] == px[0]
    ensures Repeat(px[0], n) + px[n..] == px
  {
    assert Repeat(px[0], n) == px[..n];
  }

  lemma {:induction false} Lossless(px: seq<Pixel>)
    ensures Expand(Greedy(px)) == px && Countable(Greedy(px))
    decreases |px|
  {
    hide FrontRun, Repeat;
    if px != [] {
      var n := FrontRunPositive(px);
      var rest := Greedy(px[n..]);
      Lossless(px[n..]);
      assert ([Run(n, px[0])] + rest)[1..] == rest;
      SplitRun(px, n);
    }
  }

  /** Starting later never takes more runs. */
  lemma {:induction false} LaterIsShorter(px: seq<Pixel>, k: nat)
    requires k <= |px|
    ensures |Greedy(px[k..])| <= |Greedy(px)|
    decreases |px|
  {
    if px != [] && k > 0 {
      var n := FrontRun(px, MAX_RUN);
      if k >= n {
        assert px[n..][k - n..] == px[k..];
        LaterIsShorter(px[n..], k - n);
      } else {
        var m := FrontRun(px[k..], MAX_RUN);
        assert px[k] == px[0];
        assert m < |px| - k ==> px[k..][m] == px[k + m];
        assert px[k..][m..] == px[n..][k + m - n..];
        LaterIsShorter(px[n..], k + m - n);
      }
    }
  }

  /** A run that starts px is no longer than the greedy one, which eats into what follows it. */
  lemma FrontAtLeast(px: seq<Pixel>, v: Pixel, c: nat, rest: seq<Pixel>)
    requires 1 <= c <= MAX_RUN && px == Repeat(v, c) + rest
    ensures var n := FrontRun(px, MAX_RUN);
            c <= n <= |px| == c + |rest| && rest[n - c..] == px[n..]
  {
    assert forall k :: 0 <= k < c ==> px[k] == v;
    var n := FrontRun(px, MAX_RUN);
  }

  lemma {:induction false} Optimal(px: seq<Pixel>, runs: seq<Run>)
    requires Countable(runs) && Expand(runs) == px
    ensures |Greedy(px)| <= |runs|
    decreases |runs|
  {
    hide FrontRun, Repeat;
    if runs != [] {
      var c, rest := runs[0].count, Expand(runs[1..]);
      FrontAtLeast(px, runs[0].value, c, rest);
      Optimal(rest, runs[1..]);
      LaterIsShorter(rest, FrontRun(px, MAX_RUN) - c);
    }
  }

  // ---- The encoder ----

  function Serialise(runs: seq<Run>): seq<byte>
    requires Countable(runs)
  {
    if runs == [] then [] else U16(runs[0].count) + U16(runs[0].value) + Serialise(runs[1..])
  }

  /** Read (count, colour) pairs back. */
  function Parse(b: seq<byte>): seq<Run>
    requires |b| % 4 == 0
  {
    if b == [] then [] else [Run(U16At(b, 0), U16At(b, 2))] + Parse(b[4..])
  }

  lemma {:induction false} ParseSerialise(runs: seq<Run>)
    requires Countable(runs)
    ensures |Serialise(runs)| == 4 * |runs| && Parse(Serialise(runs)) == runs
  {
    if runs != [] {
      var b := Serialise(runs);
      var rest := Serialise(runs[1..]);
      ParseSerialise(runs[1..]);
      assert b == (U16(runs[0].count) + U16(runs[0].value)) + rest;
      assert b[4..] == rest;
      assert U16At(b, 0) == runs[0].count && U16At(b, 2) == runs[0].value;
    }
  }

  lemma {:induction false} SerialiseAppend(a: seq<Run>, b: seq<Run>)
    requires Countable(a) && Countable(b)
    ensures Countable(a + b) && Serialise(a + b) == Serialise(a) + Serialise(b)
  {
    if a == [] {
      assert a + b == b;
    } else {
      assert (a + b)[1..] == a[1..] + b;
      SerialiseAppend(a[1..], b);
    }
  }

  /**
   The encoder's output decodes to the picture, and no list of (count, colour) pairs with
   counts of 1..65535 that does so is shorter.
   */
  method Encode(px: seq<Pixel>) returns (out: seq<byte>)
    ensures |out| % 4 == 0 && Expand(Parse(out)) == px
    ensures Countable(Parse(out))
    ensures forall runs | Countable(runs) && Expand(runs) == px :: |out| <= 4 * |runs|
  {
    hide Greedy, Serialise, Countable, Expand, Parse, FrontRun;
    ghost var done: seq<Run> := [];
    out := [];
    var i := 0;
    assert px[0..] == px;
    Nothing();
    while i < |px|
      invariant 0 <= i <= |px|
      invariant Countable(done) && out == Serialise(done)
      invariant Greedy(px) == done + Greedy(px[i..])
    {
      var v := px[i];
      var run := 1;
      while i + run < |px| && px[i + run] == v && run < MAX_RUN
        invariant 1 <= run <= MAX_RUN && i + run <= |px|
        invariant forall k :: i <= k < i + run ==> px[k] == v
      {
        run := run + 1;
      }
      GreedyFirst(px[i..], run);
      assert px[i..][run..] == px[i + run..];
      OneRun(run, v);
      SerialiseAppend(done, [Run(run, v)]);
      done := done + [Run(run, v)];
      out := out + U16(run) + U16(v);
      i := i + run;
    }
    assert px[i..] == [];
    assert Greedy(px) == done;
    Lossless(px);
    ParseSerialise(done);
    forall runs | Countable(runs) && Expand(runs) == px ensures |out| <= 4 * |runs| { Optimal(px, runs); }
  }

  lemma Nothing()
    ensures Countable([]) && Serialise([]) == [] && Greedy([]) == []
  {
  }

  lemma OneRun(n: nat, v: Pixel)
    requires 1 <= n <= MAX_RUN
    ensures Countable([Run(n, v)]) && Serialise([Run(n, v)]) == U16(n) + U16(v)
  {
    Nothing();
    assert Serialise([Run(n, v)]) == U16(n) + U16(v) + Serialise([]);
  }

  lemma GreedyFirst(px: seq<Pixel>, n: nat)
    requires 1 <= n <= |px| && n <= MAX_RUN
    requires forall k :: 0 <= k < n ==> px[k] == px[0]
    requires n < |px| && n < MAX_RUN ==> px[n] != px[0]
    ensures Greedy(px) == [Run(n, px[0])] + Greedy(px[n..])
  {
    hide FrontRun;
    FrontRunIs(px, n);
  }

  lemma FrontRunIs(px: seq<Pixel>, n: nat)
    requires 1 <= n <= |px| && n <= MAX_RUN
    requires forall k :: 0 <= k < n ==> px[k] == px[0]
    requires n < |px| && n < MAX_RUN ==> px[n] != px[0]
    ensures FrontRun(px, MAX_RUN) == n
  {
    var m := FrontRun(px, MAX_RUN);
  }

  /** Record i: the count in the first two bytes, the colour in the next two, low bytes first. */
  lemma {:induction false} RecordBytes(runs: seq<Run>, i: nat)
    requires Countable(runs) && i < |runs|
    ensures var b := Serialise(runs);
            |b| == 4 * |runs| &&
            b[4 * i] as int + 256 * b[4 * i + 1] as int == runs[i].count &&
            b[4 * i + 2] as int + 256 * b[4 * i + 3] as int == runs[i].value
    decreases i
  {
    ParseSerialise(runs);
    LowFirst(runs[0].count);
    LowFirst(runs[0].value);
    var rest := Serialise(runs[1..]);
    assert Serialise(runs) == U16(runs[0].count) + U16(runs[0].value) + rest;
    if i > 0 { RecordBytes(runs[1..], i - 1); }
  }
}
