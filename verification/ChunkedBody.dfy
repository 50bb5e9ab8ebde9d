/** The chat client's decoder of a chunked HTTP body, and what the machine's word size does to it. */
module ChunkedBody {
  import opened Integers
  import opened Numerals
  import opened Prefixes

  const CRLF := "\r\n"

  predicate CrlfAt(s: string, j: int) { 0 <= j && j + 2 <= |s| && s[j] == '\r' && s[j + 1] == '\n' }

  predicate NoCrlf(s: string, i: int, j: int) { forall k :: i <= k < j ==> !CrlfAt(s, k) }

  /** The first line end from position i on, or the end of s. */
  function FindCrlf(s: string, i: nat): (j: nat)
    requires i <= |s|
    ensures i <= j <= |s| && (j < |s| ==> CrlfAt(s, j)) && NoCrlf(s, i, j)
    decreases |s| - i
  {
    if i == |s| || CrlfAt(s, i) then i else FindCrlf(s, i + 1)
  }

  /** One pass of the loop: it stops, or appends data and moves on. */
  datatype Pass = Stop | Go(data: string, pos: nat)

  /** A sum in a word that counts modulo lim. */
  function Wrap(x: nat, lim: nat): nat
    requires lim > 0
  {
    x % lim
  }

  lemma WrapOnce(x: nat, lim: nat)
    requires lim > 0 && x < 2 * lim
    ensures Wrap(x, lim) == if x < lim then x else x - lim
  {
    if x >= lim { assert x / lim == 1; }
  }

  /**
   The pass at pos when sizes count modulo lim. The sum that is checked against the body's length may
   wrap round; the data taken never runs past the end.
   */
  function PassAt(raw: string, pos: nat, lim: nat): Pass
    requires |raw| + 2 < lim
  {
    if pos >= |raw| then Stop else
    var crlf := FindCrlf(raw, pos);
    if crlf == |raw| then Stop else
    var n := Strtoul(raw[pos..crlf], lim);
    var from := crlf + 2;
    if n == 0 || Wrap(from + n, lim) > |raw| then Stop
    else Go(raw[from..Min(from + n, |raw|)], Wrap(from + n + 2, lim))
  }

  /** The header at pos names a size that takes the sum past the end of the machine's range. */
  predicate Wraps(raw: string, pos: nat, lim: nat)
    requires |raw| + 2 < lim
  {
    pos < |raw| && FindCrlf(raw, pos) < |raw| &&
    FindCrlf(raw, pos) + 2 + Strtoul(raw[pos..FindCrlf(raw, pos)], lim) >= lim
  }

  /** The pass as it is meant: a chunk that is not all there stops the decoding. */
  function MeantAt(raw: string, pos: nat, lim: nat): (p: Pass)
    requires |raw| + 2 < lim
    ensures p.Go? ==> pos < p.pos <= |raw| + 2
  {
    if pos >= |raw| then Stop else
    var crlf := FindCrlf(raw, pos);
    if crlf == |raw| then Stop else
    var n := Strtoul(raw[pos..crlf], lim);
    var from := crlf + 2;
    if n == 0 || from + n > |raw| then Stop else Go(raw[from..from + n], from + n + 2)
  }

  /** Both the decoded text and where decoding stops. */
  function Meant(raw: string, pos: nat, lim: nat): (r: (string, nat))
    requires |raw| + 2 < lim
    decreases |raw| + 2 - pos
  {
    match MeantAt(raw, pos, lim)
    case Stop => ("", pos)
    case Go(data, next) => var r := Meant(raw, next, lim); (data + r.0, r.1)
  }

  /** The pass is the one that is meant exactly when the header's size does not wrap. */
  lemma PassIsMeant(raw: string, pos: nat, lim: nat)
    requires |raw| + 2 < lim
    ensures PassAt(raw, pos, lim) == MeantAt(raw, pos, lim) <==> !Wraps(raw, pos, lim)
  {
    hide Strtoul, FindCrlf, Wrap;
    if pos < |raw| && FindCrlf(raw, pos) < |raw| {
      var from := FindCrlf(raw, pos) + 2;
      var n := Strtoul(raw[pos..from - 2], lim);
      WrapOnce(from + n, lim);
      if from + n <= |raw| { WrapOnce(from + n + 2, lim); }
    }
  }

  // ---- Whole runs ----

  /** The loop's state: what is decoded, where it is, and whether it still runs. */
  datatype State = State(resp: string, pos: nat, running: bool)

  function Step(raw: string, lim: nat, s: State): State
    requires |raw| + 2 < lim
  {
    if !s.running then s else
    match PassAt(raw, s.pos, lim)
    case Stop => s.(running := false)
    case Go(data, next) => State(s.resp + data, next, true)
  }

  function Run(raw: string, lim: nat, s: State, passes: nat): State
    requires |raw| + 2 < lim
    decreases passes
  {
    if passes == 0 then s else Run(raw, lim, Step(raw, lim, s), passes - 1)
  }

  const START := State("", 0, true)

  /** How many passes the decoding takes as it is meant, the stopping one included. */
  function Passes(raw: string, pos: nat, lim: nat): (n: nat)
    requires |raw| + 2 < lim
    ensures 0 < n <= |raw| + 3 - Min(pos, |raw| + 2)
    decreases |raw| + 2 - pos
  {
    match MeantAt(raw, pos, lim)
    case Stop => 1
    case Go(data, next) => 1 + Passes(raw, next, lim)
  }

  lemma MeantDoesNotWrap(raw: string, pos: nat, lim: nat)
    requires |raw| + 2 < lim && MeantAt(raw, pos, lim).Go?
    ensures !Wraps(raw, pos, lim)
  {
  }

  /**
   The loop stops when it should, with what it should have decoded, exactly when the header that it should
   stop at does not name a size that wraps. (Only that header can: every one before it fits in the body.)
   */
  lemma {:induction false} StopsAsMeant(raw: string, lim: nat, s: State)
    requires |raw| + 2 < lim && s.running
    ensures var m := Meant(raw, s.pos, lim);
            Run(raw, lim, s, Passes(raw, s.pos, lim)) == State(s.resp + m.0, m.1, false) <==> !Wraps(raw, m.1, lim)
    decreases |raw| + 2 - s.pos
  {
    PassIsMeant(raw, s.pos, lim);
    Unfold(raw, lim, s);
    var p := MeantAt(raw, s.pos, lim);
    if p.Stop? {
      hide PassAt, Wraps, MeantAt, Meant, Passes, Run, FindCrlf;
      assert s.resp + "" == s.resp;
    } else {
      MeantDoesNotWrap(raw, s.pos, lim);
      hide PassAt, Wraps, MeantAt, Meant, Passes, Run, FindCrlf;
      StopsAsMeant(raw, lim, State(s.resp + p.data, p.pos, true));
      Joined(s.resp, p.data, Meant(raw, p.pos, lim).0);
    }
  }

  lemma Joined(a: string, b: string, c: string)
    ensures a + b + c == a + (b + c)
  {
  }

  lemma Unfold(raw: string, lim: nat, s: State)
    requires |raw| + 2 < lim && s.running
    ensures var n := Passes(raw, s.pos, lim);
            Run(raw, lim, s, n) == Run(raw, lim, Step(raw, lim, s), n - 1) &&
              Run(raw, lim, Step(raw, lim, s), 0) == Step(raw, lim, s)
    ensures var p := MeantAt(raw, s.pos, lim);
            if p.Stop? then Meant(raw, s.pos, lim) == ("", s.pos) && Passes(raw, s.pos, lim) == 1
            else Meant(raw, s.pos, lim) == (p.data + Meant(raw, p.pos, lim).0, Meant(raw, p.pos, lim).1) &&
                 Passes(raw, s.pos, lim) == 1 + Passes(raw, p.pos, lim)
  {
    hide Step, MeantAt;
  }

  lemma {:induction false} StoppedStays(raw: string, lim: nat, s: State, k: nat, passes: nat)
    requires |raw| + 2 < lim && k <= passes && !Run(raw, lim, s, k).running
    ensures Run(raw, lim, s, passes) == Run(raw, lim, s, k)
    decreases passes
  {
    hide PassAt;
    if k > 0 {
      StoppedStays(raw, lim, Step(raw, lim, s), k - 1, passes - 1);
    } else if passes > 0 {
      StoppedStays(raw, lim, s, 0, passes - 1);
    }
  }

  /** The loop's body. */
  method ReadChunk(raw: string, pos: nat, lim: nat) returns (p: Pass)
    requires |raw| + 2 < lim
    ensures p == PassAt(raw, pos, lim)
  {
    hide Strtoul, FindCrlf, NoCrlf, Wrap;
    if pos >= |raw| { return Stop; }
    var crlf := FindCrlf(raw, pos);
    if crlf == |raw| { return Stop; }
    var n := Strtoul(raw[pos..crlf], lim);
    var from := crlf + 2;
    if n == 0 { return Stop; }
    if Wrap(from + n, lim) > |raw| { return Stop; }
    p := Go(raw[from..Min(from + n, |raw|)], Wrap(from + n + 2, lim));
  }

  /** The loop, watched for a number of passes. */
  method Decode(raw: string, lim: nat, passes: nat) returns (resp: string, pos: nat, running: bool)
    requires |raw| + 2 < lim
    ensures State(resp, pos, running) == Run(raw, lim, START, passes)
    ensures passes >= |raw| + 3 && !Wraps(raw, Meant(raw, 0, lim).1, lim) ==> !running && resp == Meant(raw, 0, lim).0
  {
    StopsInTime(raw, lim, passes);
    hide Meant, Wraps, PassAt, Run;
    resp, pos, running := "", 0, true;
    for k := 0 to passes
      invariant Run(raw, lim, State(resp, pos, running), passes - k) == Run(raw, lim, START, passes)
    {
      RunNext(raw, lim, State(resp, pos, running), passes - k);
      if running {
        var p := ReadChunk(raw, pos, lim);
        if p.Stop? {
          running := false;
        } else {
          resp, pos := resp + p.data, p.pos;
        }
      }
    }
    RunNext(raw, lim, State(resp, pos, running), 0);
  }

  lemma RunNext(raw: string, lim: nat, s: State, passes: nat)
    requires |raw| + 2 < lim
    ensures Run(raw, lim, s, passes) == if passes == 0 then s else Run(raw, lim, Step(raw, lim, s), passes - 1)
  {
  }

  lemma StopsInTime(raw: string, lim: nat, passes: nat)
    requires |raw| + 2 < lim
    ensures passes >= |raw| + 3 && !Wraps(raw, Meant(raw, 0, lim).1, lim) ==>
      Run(raw, lim, START, passes) == State(Meant(raw, 0, lim).0, Meant(raw, 0, lim).1, false)
  {
    StopsAsMeant(raw, lim, START);
    hide Meant, Wraps, Run;
    if passes >= |raw| + 3 && !Wraps(raw, Meant(raw, 0, lim).1, lim) {
      StoppedStays(raw, lim, START, Passes(raw, 0, lim), passes);
      assert "" + Meant(raw, 0, lim).0 == Meant(raw, 0, lim).0;
    }
  }

  // ---- Whether it ends at all ----

  lemma {:induction false} RunMore(raw: string, lim: nat, s: State, k: nat)
    requires |raw| + 2 < lim
    ensures Run(raw, lim, s, k + 1) == Step(raw, lim, Run(raw, lim, s, k))
    decreases k
  {
    hide Run, Step;
    var t := Step(raw, lim, s);
    RunNext(raw, lim, s, k + 1);
    RunNext(raw, lim, s, k);
    if k > 0 { RunMore(raw, lim, t, k - 1); } else { RunNext(raw, lim, t, 0); }
  }

  /** Where the loop is after k passes, and whether it runs: the next of these depends on this one only. */
  predicate Alike(a: State, b: State) { a.pos == b.pos && a.running == b.running }

  lemma StepAlike(raw: string, lim: nat, a: State, b: State)
    requires |raw| + 2 < lim && Alike(a, b)
    ensures Alike(Step(raw, lim, a), Step(raw, lim, b))
  {
    hide PassAt;
  }

  /** A position met again is met over and over. */
  lemma {:induction false} Repeats(raw: string, lim: nat, i: nat, j: nat, m: nat)
    requires |raw| + 2 < lim && i < j && Alike(Run(raw, lim, START, i), Run(raw, lim, START, j))
    ensures Alike(Run(raw, lim, START, i + m), Run(raw, lim, START, j + m))
  {
    hide Run, Step, Alike;
    if m > 0 {
      Repeats(raw, lim, i, j, m - 1);
      RunMore(raw, lim, START, i + m - 1);
      RunMore(raw, lim, START, j + m - 1);
      StepAlike(raw, lim, Run(raw, lim, START, i + m - 1), Run(raw, lim, START, j + m - 1));
    }
  }

  lemma {:induction false} RunsOn(raw: string, lim: nat, i: nat, j: nat, k: nat)
    requires |raw| + 2 < lim && i < j && Alike(Run(raw, lim, START, i), Run(raw, lim, START, j))
    requires forall t :: 0 <= t <= j ==> Run(raw, lim, START, t).running
    ensures Run(raw, lim, START, k).running
    decreases k
  {
    hide Run;
    if k > j {
      RunsOn(raw, lim, i, j, k - (j - i));
      Repeats(raw, lim, i, j, k - j);
    }
  }

  /** More places than there are values: one of them comes twice. */
  lemma {:induction false} Pigeonhole(s: seq<nat>, n: nat) returns (i: nat, j: nat)
    requires |s| > n && forall k :: 0 <= k < |s| ==> s[k] < n
    ensures i < j < |s| && s[i] == s[j]
    decreases n
  {
    var last := |s| - 1;
    if k :| 0 <= k < last && s[k] == s[last] {
      i, j := k, last;
    } else {
      // Swap the last value with n - 1 and leave the last place out.
      var v := s[last];
      var rest := seq(last, k requires 0 <= k < last => if s[k] == n - 1 then v else s[k]);
      i, j := Pigeonhole(rest, n - 1);
    }
  }

  /** A pass that goes on started inside the body. */
  lemma RunningInside(raw: string, lim: nat, k: nat)
    requires |raw| + 2 < lim && Run(raw, lim, START, k + 1).running
    ensures Run(raw, lim, START, k).running && Run(raw, lim, START, k).pos < |raw|
  {
    RunMore(raw, lim, START, k);
    hide Run, FindCrlf, Strtoul, Wrap;
  }

  lemma {:induction false} RunningSince(raw: string, lim: nat, k: nat, t: nat)
    requires |raw| + 2 < lim && t < k && Run(raw, lim, START, k).running
    ensures Run(raw, lim, START, t).running && Run(raw, lim, START, t).pos < |raw|
    decreases k
  {
    hide Run;
    RunningInside(raw, lim, k - 1);
    if t < k - 1 { RunningSince(raw, lim, k - 1, t); }
  }

  lemma EndsInTimeOrNever(raw: string, lim: nat, k: nat)
    requires |raw| + 2 < lim && Run(raw, lim, START, |raw| + 1).running
    ensures Run(raw, lim, START, k).running
  {
    hide Run;
    var n := |raw| + 1;
    forall t | 0 <= t < n ensures Run(raw, lim, START, t).running && Run(raw, lim, START, t).pos < |raw| {
      RunningSince(raw, lim, n, t);
    }
    var places := seq(n, t requires 0 <= t < n => Run(raw, lim, START, t).pos);
    var i, j := Pigeonhole(places, |raw|);
    assert Run(raw, lim, START, i).pos == places[i] && Run(raw, lim, START, j).pos == places[j];
    RunsOn(raw, lim, i, j, k);
  }

  /** The loop ends if and only if it has ended after one pass more than the body is long. */
  lemma EndsWhen(raw: string, lim: nat)
    requires |raw| + 2 < lim
    ensures (exists k: nat :: !Run(raw, lim, START, k).running) <==> !Run(raw, lim, START, |raw| + 1).running
  {
    hide Run;
    if k: nat :| !Run(raw, lim, START, k).running {
      if Run(raw, lim, START, |raw| + 1).running { EndsInTimeOrNever(raw, lim, k); }
    }
  }

  // ---- A size that wraps ----

  /** A header whose size takes the position round to the header again is read for ever. */
  lemma {:induction false} ReadForEver(raw: string, lim: nat, s: State, passes: nat)
    requires |raw| + 2 < lim && s.running && 2 <= s.pos < |raw| && FindCrlf(raw, s.pos) < |raw|
    requires var c := FindCrlf(raw, s.pos); Strtoul(raw[s.pos..c], lim) == lim - (c + 4 - s.pos)
    ensures Run(raw, lim, s, passes).running
    decreases passes
  {
    RunNext(raw, lim, s, passes);
    if passes > 0 {
      BackAgain(raw, lim, s.pos);
      hide PassAt, Run, Strtoul, FindCrlf;
      ReadForEver(raw, lim, Step(raw, lim, s), passes - 1);
    }
  }

  lemma BackAgain(raw: string, lim: nat, pos: nat)
    requires |raw| + 2 < lim && 2 <= pos < |raw| && FindCrlf(raw, pos) < |raw|
    requires var c := FindCrlf(raw, pos); Strtoul(raw[pos..c], lim) == lim - (c + 4 - pos)
    ensures PassAt(raw, pos, lim) == Go(raw[FindCrlf(raw, pos) + 2..], pos)
  {
    var from := FindCrlf(raw, pos) + 2;
    var n := Strtoul(raw[pos..from - 2], lim);
    hide FindCrlf, Strtoul, Wrap;
    WrapOnce(from + n, lim);
    WrapOnce(from + n + 2, lim);
  }

  const LIM32 := 0x1_0000_0000

  /** Such a body, on the pager's 32-bit processor: one good chunk, then a size twelve short of the range. */
  lemma LoopsForEver(passes: nat)
    ensures var raw := "1\r\nX\r\n" + PrintHex(LIM32 - 12) + CRLF;
            |raw| == 16 && Run(raw, LIM32, START, passes).running
  {
    HexLength(LIM32 - 12, 8);
    ReadPrintHex(LIM32 - 12, LIM32);
    EightDigits(PrintHex(LIM32 - 12), passes);
    hide *;
  }

  lemma EightDigits(h: string, passes: nat)
    requires |h| == 8 && '\r' !in h && Strtoul(h, LIM32) == LIM32 - 12
    ensures var raw := "1\r\nX\r\n" + h + CRLF; |raw| == 16 && Run(raw, LIM32, START, passes).running
  {
    var raw := "1\r\nX\r\n" + h + CRLF;
    FirstChunk(h);
    SecondHeader(h);
    hide Strtoul, FindCrlf, Step, PassAt, Run;
    FromThere(raw, passes);
  }

  lemma FromThere(raw: string, passes: nat)
    requires |raw| == 16 && Step(raw, LIM32, START) == State("X", 6, true) && FindCrlf(raw, 6) == 14
    requires Strtoul(raw[6..14], LIM32) == LIM32 - 12
    ensures Run(raw, LIM32, START, passes).running
  {
    hide Strtoul, FindCrlf, Step, PassAt, Run;
    RunNext(raw, LIM32, START, passes);
    if passes > 0 { ReadForEver(raw, LIM32, State("X", 6, true), passes - 1); }
  }

  lemma SecondHeader(h: string)
    requires |h| == 8 && '\r' !in h
    ensures var raw := "1\r\nX\r\n" + h + CRLF; raw[6..14] == h && FindCrlf(raw, 6) == 14
  {
    var raw := "1\r\nX\r\n" + h + CRLF;
    assert forall k :: 6 <= k < 14 ==> raw[k] == h[k - 6];
    FindIs(raw, 6, 14);
    hide FindCrlf;
  }

  lemma FirstChunk(h: string)
    requires |h| == 8
    ensures var raw := "1\r\nX\r\n" + h + CRLF;
            Step(raw, LIM32, START) == State("X", 6, true)
  {
    var raw := "1\r\nX\r\n" + h + CRLF;
    ReadPrintHex(1, LIM32);
    PrintOne();
    assert raw[0..1] == "1";
    FindIs(raw, 0, 1);
    hide PrintHex, Strtoul, FindCrlf;
  }

  lemma PrintOne()
    ensures PrintHex(1) == "1"
  {
  }

  lemma FindIs(s: string, i: nat, j: nat)
    requires i <= j <= |s| && NoCrlf(s, i, j) && (j < |s| ==> CrlfAt(s, j))
    ensures FindCrlf(s, i) == j
  {
  }

  function Pow16(k: nat): nat { if k == 0 then 1 else 16 * Pow16(k - 1) }

  lemma {:induction false} HexLength(n: nat, k: nat)
    requires k >= 1 && n < Pow16(k) && (k > 1 ==> n >= Pow16(k - 1))
    ensures |PrintHex(n)| == k
  {
    if k > 1 { HexLength(n / 16, k - 1); }
  }

  // ---- Decoding what was encoded ----

  /** A chunk and the header line it is sent with: the size, and whatever extensions follow it. */
  datatype Chunk = Chunk(header: string, data: string)

  predicate Line(s: string) { NoCrlf(s, 0, |s|) }

  predicate Sendable(c: Chunk, lim: nat)
    requires lim > 0
  {
    Line(c.header) && c.data != "" && Strtoul(c.header, lim) == |c.data|
  }

  function Encode(chunks: seq<Chunk>, tail: string): string {
    if chunks == [] then tail else chunks[0].header + CRLF + chunks[0].data + CRLF + Encode(chunks[1..], tail)
  }

  function Payload(chunks: seq<Chunk>): string {
    if chunks == [] then "" else chunks[0].data + Payload(chunks[1..])
  }

  /** How many of the chunks have all their data in the first room characters. */
  function Whole(chunks: seq<Chunk>, room: nat): (n: nat)
    ensures n <= |chunks|
  {
    if chunks == [] then 0 else
    var size := |chunks[0].header| + 2 + |chunks[0].data|;
    if room < size then 0 else 1 + Whole(chunks[1..], if room < size + 2 then 0 else room - size - 2)
  }

  /** The header line ends where it should, unless it is cut off. */
  lemma HeaderEnds(raw: string, pos: nat, h: string, w: string)
    requires Line(h) && Begins(raw, pos, h + CRLF + w) && pos <= |raw|
    ensures if pos + |h| + 2 <= |raw| then FindCrlf(raw, pos) == pos + |h| && raw[pos..pos + |h|] == h
            else FindCrlf(raw, pos) == |raw|
  {
    var v := h + CRLF + w;
    forall k | pos <= k < pos + |h| && k < |raw| ensures !CrlfAt(raw, k) && raw[k] == h[k - pos] {
      assert !CrlfAt(h, k - pos);
      BeginsAt(raw, pos, v, k);
      if k + 1 < |raw| { BeginsAt(raw, pos, v, k + 1); }
    }
    if pos + |h| + 2 <= |raw| {
      BeginsAt(raw, pos, v, pos + |h|);
      BeginsAt(raw, pos, v, pos + |h| + 1);
      FindIs(raw, pos, pos + |h|);
    } else {
      FindIs(raw, pos, |raw|);
    }
  }

  /** The pass at a chunk takes it whole or not at all. */
  lemma ChunkPass(raw: string, pos: nat, c: Chunk, w: string, lim: nat)
    requires |raw| + 2 < lim && Sendable(c, lim) && pos <= |raw|
    requires Begins(raw, pos, c.header + CRLF + c.data + CRLF + w) && pos + |c.header| + 2 + |c.data| < lim
    ensures var end := pos + |c.header| + 2 + |c.data|;
            MeantAt(raw, pos, lim) == (if end <= |raw| then Go(c.data, end + 2) else Stop) && !Wraps(raw, pos, lim)
  {
    hide Strtoul, FindCrlf, Begins, NoCrlf, Line;
    HeaderAndData(raw, pos, c.header, c.data, w);
  }

  lemma HeaderAndData(raw: string, pos: nat, h: string, d: string, w: string)
    requires Line(h) && Begins(raw, pos, h + CRLF + d + CRLF + w) && pos <= |raw|
    ensures if pos + |h| + 2 <= |raw| then FindCrlf(raw, pos) == pos + |h| && raw[pos..pos + |h|] == h
            else FindCrlf(raw, pos) == |raw|
    ensures var from := pos + |h| + 2; from + |d| <= |raw| ==> raw[from..from + |d|] == d
  {
    assert |CRLF| == 2;
    hide *;
    Regroup(h, d, w);
    HeaderEnds(raw, pos, h, d + CRLF + w);
    BeginsPast(raw, pos, h + CRLF, d + (CRLF + w));
    if pos + |h| + 2 + |d| <= |raw| { BeginsWith(raw, pos + |h| + 2, d, CRLF + w); }
  }

  lemma Regroup(h: string, d: string, w: string)
    ensures h + CRLF + d + CRLF + w == h + CRLF + (d + CRLF + w) == h + CRLF + (d + (CRLF + w))
  {
  }

  function Room(raw: string, pos: nat): nat { if pos <= |raw| then |raw| - pos else 0 }

  predicate AllSendable(chunks: seq<Chunk>, lim: nat)
    requires lim > 0
  {
    forall i :: 0 <= i < |chunks| ==> Sendable(chunks[i], lim)
  }

  lemma {:induction false} MeantPrefix(raw: string, pos: nat, chunks: seq<Chunk>, z: string, rest: string, lim: nat)
    requires |raw| + 2 < lim && AllSendable(chunks, lim) && Line(z) && Strtoul(z, lim) == 0
    requires Begins(raw, pos, Encode(chunks, z + CRLF + rest)) && pos + |Encode(chunks, z + CRLF + rest)| < lim
    ensures var m := Meant(raw, pos, lim);
            m.0 == Payload(chunks[..Whole(chunks, Room(raw, pos))]) && !Wraps(raw, m.1, lim)
    decreases |chunks|
  {
    hide *;
    if pos >= |raw| {
      NothingLeft(raw, pos, chunks, lim);
    } else if chunks == [] {
      TailStops(raw, pos, chunks, z, rest, lim);
    } else {
      var c, tail := chunks[0], z + CRLF + rest;
      EncodeFirst(chunks, tail, lim);
      ChunkPass(raw, pos, c, Encode(chunks[1..], tail), lim);
      WholeFirst(raw, pos, chunks);
      UnfoldMeant(raw, pos, lim);
      if pos + |c.header| + 2 + |c.data| <= |raw| {
        BeginsPast(raw, pos, c.header + CRLF + c.data + CRLF, Encode(chunks[1..], tail));
        MeantPrefix(raw, pos + |c.header| + |c.data| + 4, chunks[1..], z, rest, lim);
      }
    }
  }

  lemma NothingLeft(raw: string, pos: nat, chunks: seq<Chunk>, lim: nat)
    requires |raw| + 2 < lim && pos >= |raw|
    ensures Meant(raw, pos, lim) == ("", pos) && !Wraps(raw, pos, lim)
    ensures Payload(chunks[..Whole(chunks, Room(raw, pos))]) == ""
  {
  }

  lemma EncodeFirst(chunks: seq<Chunk>, tail: string, lim: nat)
    requires chunks != [] && lim > 0 && AllSendable(chunks, lim)
    ensures var c := chunks[0];
            Encode(chunks, tail) == c.header + CRLF + c.data + CRLF + Encode(chunks[1..], tail) &&
            |Encode(chunks, tail)| == |c.header| + |c.data| + 4 + |Encode(chunks[1..], tail)| &&
            Sendable(c, lim) && AllSendable(chunks[1..], lim)
  {
    hide Sendable;
  }

  lemma TailStops(raw: string, pos: nat, chunks: seq<Chunk>, z: string, rest: string, lim: nat)
    requires |raw| + 2 < lim && Line(z) && Strtoul(z, lim) == 0 && pos <= |raw|
    requires chunks == [] && Begins(raw, pos, Encode(chunks, z + CRLF + rest))
    ensures Meant(raw, pos, lim) == ("", pos) && !Wraps(raw, pos, lim)
    ensures Payload(chunks[..Whole(chunks, Room(raw, pos))]) == ""
  {
    HeaderEnds(raw, pos, z, rest);
    hide Strtoul, FindCrlf, Line, Begins, Encode;
  }

  lemma UnfoldMeant(raw: string, pos: nat, lim: nat)
    requires |raw| + 2 < lim
    ensures var p := MeantAt(raw, pos, lim);
            Meant(raw, pos, lim) ==
            if p.Stop? then ("", pos) else (p.data + Meant(raw, p.pos, lim).0, Meant(raw, p.pos, lim).1)
  {
    hide MeantAt;
  }

  lemma WholeFirst(raw: string, pos: nat, chunks: seq<Chunk>)
    requires chunks != [] && pos < |raw|
    ensures var end := pos + |chunks[0].header| + 2 + |chunks[0].data|;
            Payload(chunks[..Whole(chunks, Room(raw, pos))]) ==
            if end <= |raw| then chunks[0].data + Payload(chunks[1..][..Whole(chunks[1..], Room(raw, end + 2))]) else ""
  {
    var end := pos + |chunks[0].header| + 2 + |chunks[0].data|;
    if end <= |raw| {
      var k := Whole(chunks[1..], Room(raw, end + 2));
      assert Whole(chunks, Room(raw, pos)) == k + 1;
      assert chunks[..k + 1][1..] == chunks[1..][..k];
    }
  }

  lemma {:induction false} PayloadPrefix(chunks: seq<Chunk>, k: nat)
    requires k <= |chunks|
    ensures |Payload(chunks[..k])| <= |Payload(chunks)|
    ensures Payload(chunks[..k]) == Payload(chunks)[..|Payload(chunks[..k])|]
  {
    if k > 0 {
      PayloadPrefix(chunks[1..], k - 1);
      assert chunks[..k][1..] == chunks[1..][..k - 1];
    }
  }

  lemma {:induction false} AllWhole(chunks: seq<Chunk>, tail: string, room: nat)
    requires room >= |Encode(chunks, tail)|
    ensures Whole(chunks, room) == |chunks|
  {
    if chunks != [] {
      var c := chunks[0];
      assert |Encode(chunks, tail)| == |c.header| + |c.data| + 4 + |Encode(chunks[1..], tail)|;
      AllWhole(chunks[1..], tail, room - |c.header| - |c.data| - 4);
    }
  }

  /**
   From any prefix of an encoded body the loop stops in time with the data of the chunks that are there
   whole: a prefix of the payload, and all of it from the whole body. The last header, of size 0, may be
   followed by anything.
   */
  lemma DecodesPrefix(raw: string, chunks: seq<Chunk>, z: string, rest: string, lim: nat, passes: nat)
    requires var body := Encode(chunks, z + CRLF + rest);
             |raw| <= |body| && raw == body[..|raw|] && |body| + 2 < lim
    requires AllSendable(chunks, lim) && Line(z) && Strtoul(z, lim) == 0
    requires passes >= |raw| + 3
    ensures var got := Run(raw, lim, START, passes);
            !got.running && got.resp == Payload(chunks[..Whole(chunks, |raw|)]) &&
            |got.resp| <= |Payload(chunks)| && got.resp == Payload(chunks)[..|got.resp|] &&
            (raw == Encode(chunks, z + CRLF + rest) ==> got.resp == Payload(chunks))
  {
    var body := Encode(chunks, z + CRLF + rest);
    PrefixBegins(raw, body);
    if raw == body {
      AllWhole(chunks, z + CRLF + rest, |raw|);
      assert chunks[..|chunks|] == chunks;
    }
    hide *;
    MeantPrefix(raw, 0, chunks, z, rest, lim);
    assert Room(raw, 0) == |raw| by { RoomAll(raw); }
    StopsInTime(raw, lim, passes);
    PayloadPrefix(chunks, Whole(chunks, |raw|));
  }

  lemma RoomAll(raw: string)
    ensures Room(raw, 0) == |raw|
  {
  }

  lemma NoReturns(s: string)
    requires AllHex(s)
    ensures Line(s)
  {
  }

  /** A size printed in hexadecimal is such a header, and 0 ends the body. */
  lemma PlainHeaders(data: string, lim: nat)
    requires |data| < lim
    ensures data != "" ==> Sendable(Chunk(PrintHex(|data|), data), lim)
    ensures Line(PrintHex(0)) && Strtoul(PrintHex(0), lim) == 0
  {
    ReadPrintHex(|data|, lim);
    ReadPrintHex(0, lim);
    NoReturns(PrintHex(|data|));
    NoReturns(PrintHex(0));
    hide PrintHex, Strtoul, Line;
  }
}
