/**
 The receiver by what it has seen, with no state of its own: which message a packet completes and which fault it
 shows can be read off the packets so far (section 2 of PagerLink v1). The receiver reports exactly that.
 */
module ReceiverHistory {
  import opened Wrappers
  import opened Bytes
  import opened Framing

  /** What a packet says: its counter in the low six bits, bit 7 for a start and bit 6 for an end, and data. */
  datatype Part = Part(count: int, starts: bool, ends: bool, data: seq<byte>)

  /** A packet without data says nothing. */
  predicate Full(p: Packet) { |p| >= 2 }

  function Read(p: Packet): Part
    requires Full(p)
  {
    Part(p[0] % 64, p[0] >= 128, p[0] % 128 >= 64, p[1..])
  }

  type History = seq<Part>

  /** A header of 6 bytes and a payload of 4096. */
  const LIMIT := 6 + 4096

  /** What a receiver knew before the first packet of a history: nothing was open. */
  datatype Before = Before(expected: int, discarding: bool)

  function Start(b: Before): State { State(b.expected, None, b.discarding) }

  /** The counter that comes next. */
  function NextSeq(b: Before, h: History): int {
    if h == [] then b.expected else (h[|h| - 1].count + 1) % 64
  }

  predicate InStep(b: Before, h: History, k: nat)
    requires k < |h|
  {
    h[k].count == NextSeq(b, h[..k])
  }

  /** The last packet that starts a message, or -1. */
  function LastStart(h: History): (k: int)
    ensures -1 <= k < |h| && (k >= 0 ==> h[k].starts) && forall i :: k < i < |h| ==> !h[i].starts
  {
    if h == [] then -1
    else if h[|h| - 1].starts then |h| - 1
    else LastStart(h[..|h| - 1])
  }

  /** Packet k follows the one before it, which does not end the message. */
  predicate Linked(b: Before, h: History, k: nat)
    requires 0 < k < |h|
  {
    InStep(b, h, k) && !h[k - 1].ends
  }

  /** So does every packet from the last start on. */
  predicate Chained(b: Before, h: History) {
    LastStart(h) >= 0 && forall k :: LastStart(h) < k < |h| ==> Linked(b, h, k)
  }

  /** The data of all the packets. */
  function Data(h: History): seq<byte> {
    if h == [] then [] else Data(h[..|h| - 1]) + h[|h| - 1].data
  }

  /** What has come of the message that was started last. */
  function Body(h: History): seq<byte> { if LastStart(h) < 0 then [] else Data(h[LastStart(h)..]) }

  /** A message is under way, or, if its last packet ends it, complete. */
  predicate Whole(b: Before, h: History) { Chained(b, h) && |Body(h)| <= LIMIT }

  predicate Open(b: Before, h: History) { Whole(b, h) && !h[|h| - 1].ends }

  /** The last packet takes a message past the limit. */
  predicate Overflows(b: Before, h: History) {
    Chained(b, h) && |Body(h)| > LIMIT && (LastStart(h) == |h| - 1 || |Body(h[..|h| - 1])| <= LIMIT)
  }

  /** Packet k is where a message was given up: after a gap, or past the limit. */
  predicate GivesUp(b: Before, h: History, k: nat)
    requires k < |h|
  {
    (!h[k].starts && !InStep(b, h, k)) || Overflows(b, h[..k + 1])
  }

  /** Something was given up, and no message has started since. */
  predicate Discarding(b: Before, h: History) {
    (LastStart(h) < 0 && b.discarding) ||
    exists k :: 0 <= k < |h| && LastStart(h) <= k && GivesUp(b, h, k)
  }

  /** The events of packet p after the history h. */
  function Says(b: Before, h: History, p: Packet): seq<Event> {
    if Full(p) then PartSays(b, h, Read(p)) else [Reset(Empty)]
  }

  function PartSays(b: Before, h: History, p: Part): seq<Event> {
    var g := h + [p];
    (if !InStep(b, g, |h|) then [Reset(SeqGap)]
     else if p.starts then if Open(b, h) then [Reset(UnexpectedStart)] else []
     else if !Open(b, h) && !Discarding(b, h) then [Reset(UnexpectedContinue)] else []) +
    if Overflows(b, g) then [Reset(Oversize)]
    else if Whole(b, g) && p.ends then [Delivered(Body(g))]
    else []
  }

  /** Packets without data leave no trace in the history. */
  function After(h: History, p: Packet): History { if Full(p) then h + [Read(p)] else h }

  /** The events of all the packets, one after the other. */
  function Reports(b: Before, h: History, ps: seq<Packet>): seq<Event>
    decreases |ps|
  {
    if ps == [] then [] else Says(b, h, ps[0]) + Reports(b, After(h, ps[0]), ps[1..])
  }

  // ---- The receiver's fields, by the history ----

  function Fields(b: Before, h: History): State {
    State(NextSeq(b, h), if Open(b, h) then Some(Body(h)) else None, Discarding(b, h))
  }

  lemma FlagBits(p: Packet)
    requires Full(p)
    ensures var r := Read(p); (IsStart(p[0]) <==> r.starts) && (IsEnd(p[0]) <==> r.ends) && SeqOf(p[0]) == r.count
  {
  }

  lemma NoHistory(b: Before)
    ensures Fields(b, []) == Start(b)
  {
  }

  /** A history with one more packet: the ones before are what they were. */
  lemma OneMore(b: Before, h: History, p: Part)
    ensures var g := h + [p];
            g[..|h|] == h && g[|h|] == p && g[..|h| + 1] == g && NextSeq(b, g) == (p.count + 1) % 64 &&
            (InStep(b, g, |h|) <==> p.count == NextSeq(b, h))
  {
    assert (h + [p])[..|h|] == h;
  }

  lemma LastOneMore(h: History, p: Part)
    ensures LastStart(h + [p]) == if p.starts then |h| else LastStart(h)
  {
    var g := h + [p];
    assert g[..|g| - 1] == h && g[|g| - 1] == p;
  }

  lemma EarlierOnes(b: Before, h: History, p: Part, k: nat)
    requires k < |h|
    ensures (h + [p])[..k + 1] == h[..k + 1] && (InStep(b, h + [p], k) <==> InStep(b, h, k))
    ensures k > 0 ==> (Linked(b, h + [p], k) <==> Linked(b, h, k))
  {
    hide NextSeq;
    assert (h + [p])[..k] == h[..k];
  }

  lemma BodyOneMore(h: History, p: Part)
    ensures Body(h + [p]) == if p.starts then p.data else if LastStart(h) < 0 then [] else Body(h) + p.data
  {
    var g := h + [p];
    assert g[..|h|] == h;
    var k := LastStart(g);
    if p.starts {
      assert g[k..] == [p];
      assert [p][..0] == [];
      assert Data([]) == [];
    } else if k >= 0 {
      assert g[k..][..|g[k..]| - 1] == h[k..];
    }
  }

  lemma ChainedOneMore(b: Before, h: History, p: Part)
    ensures Chained(b, h + [p]) <==>
            p.starts || (Chained(b, h) && !h[|h| - 1].ends && p.count == NextSeq(b, h))
  {
    hide LastStart, Linked, NextSeq;
    var g := h + [p];
    LastOneMore(h, p);
    forall k | 0 < k < |h| ensures Linked(b, g, k) <==> Linked(b, h, k) { EarlierOnes(b, h, p, k); }
    if h != [] { LinkedLast(b, h, p); }
  }

  lemma LinkedLast(b: Before, h: History, p: Part)
    requires h != []
    ensures Linked(b, h + [p], |h|) <==> !h[|h| - 1].ends && p.count == NextSeq(b, h)
  {
    OneMore(b, h, p);
    hide NextSeq, InStep;
  }

  /** The body never shrinks while a message goes on, so one that is still whole was whole before. */
  lemma WholeOneMore(b: Before, h: History, p: Part)
    ensures var g := h + [p];
            var goes := p.starts || (Open(b, h) && p.count == NextSeq(b, h));
            (Overflows(b, g) <==> goes && |Body(g)| > LIMIT) && (Whole(b, g) <==> goes && |Body(g)| <= LIMIT)
  {
    hide Chained, Body, NextSeq, LastStart;
    ChainedOneMore(b, h, p);
    BodyOneMore(h, p);
    LastOneMore(h, p);
    assert (h + [p])[..|h|] == h;
    ChainedStarted(b, h);
  }

  lemma ChainedStarted(b: Before, h: History)
    ensures Chained(b, h) || Whole(b, h) ==> h != [] && LastStart(h) >= 0
  {
  }

  lemma DiscardingOneMore(b: Before, h: History, p: Part)
    ensures var g := h + [p];
            Discarding(b, g) <==>
            Overflows(b, g) || (!p.starts && (p.count != NextSeq(b, h) || Discarding(b, h)))
  {
    hide InStep, Overflows, NextSeq, LastStart, GivesUp;
    var g := h + [p];
    LastOneMore(h, p);
    GivesUpLast(b, h, p);
    if k :| 0 <= k < |h| && LastStart(h) <= k && GivesUp(b, h, k) {
      GivesUpEarlier(b, h, p, k);
    }
    if k :| 0 <= k < |g| && LastStart(g) <= k && GivesUp(b, g, k) {
      if k < |h| { GivesUpEarlier(b, h, p, k); }
    }
  }

  lemma GivesUpLast(b: Before, h: History, p: Part)
    ensures GivesUp(b, h + [p], |h|) <==> Overflows(b, h + [p]) || (!p.starts && p.count != NextSeq(b, h))
  {
    hide InStep, Overflows, NextSeq, LastStart;
    OneMore(b, h, p);
  }

  lemma GivesUpEarlier(b: Before, h: History, p: Part, k: nat)
    requires k < |h|
    ensures GivesUp(b, h + [p], k) <==> GivesUp(b, h, k)
  {
    hide InStep, Overflows, NextSeq, LastStart;
    EarlierOnes(b, h, p, k);
  }

  /** One packet: the receiver's fields stay what the history says, and its events are what it says. */
  lemma StepSays(b: Before, h: History, p: Packet)
    ensures Step(Fields(b, h), p) == Outcome(Fields(b, After(h, p)), Says(b, h, p))
  {
    hide Chained, Body, InStep, NextSeq, Overflows, Whole, Discarding, IsStart, IsEnd, SeqOf, LastStart;
    if Full(p) {
      var r := Read(p);
      OneMore(b, h, r);
      LastOneMore(h, r);
      BodyOneMore(h, r);
      WholeOneMore(b, h, r);
      DiscardingOneMore(b, h, r);
      ChainedStarted(b, h);
      FlagBits(p);
      assert [] + r.data == r.data;
    }
  }

  /** And so over any packets: the receiver reports what the history says. */
  lemma {:induction false} RunReports(b: Before, h: History, ps: seq<Packet>)
    ensures Run(Fields(b, h), ps).events == Reports(b, h, ps)
    decreases |ps|
  {
    hide Step, Fields, Says, After;
    if ps != [] {
      RunFirst(Fields(b, h), ps);
      StepSays(b, h, ps[0]);
      RunReports(b, After(h, ps[0]), ps[1..]);
    }
  }

  /** A receiver with nothing open, whatever it expects and whether or not it discards. */
  lemma ReceiverReports(b: Before, ps: seq<Packet>)
    ensures Run(Start(b), ps).events == Reports(b, [], ps)
  {
    hide Run, Reports, Fields;
    NoHistory(b);
    RunReports(b, [], ps);
  }

  // ---- What that means ----

  /** Packet i goes on with the message of the one before it. */
  predicate GoesOn(h: History, i: nat)
    requires 0 < i < |h|
  {
    !h[i].starts && h[i].count == (h[i - 1].count + 1) % 64 && !h[i - 1].ends
  }

  /** The message that is delivered, if one is: the data from the last start on, all in step, up to its end. */
  lemma DeliveredIsWhole(b: Before, h: History, p: Packet, m: seq<byte>)
    requires Delivered(m) in Says(b, h, p)
    ensures Full(p)
    ensures var g := h + [Read(p)];
            var k := LastStart(g);
            k >= 0 && g[k].starts && g[|h|].ends && m == Data(g[k..]) && |m| <= LIMIT &&
            forall i :: k < i < |g| ==> GoesOn(g, i)
  {
    hide LastStart, Data, Discarding, Overflows, InStep, Linked, Open;
    var g := h + [Read(p)];
    assert Whole(b, g);
    forall i | LastStart(g) < i < |g| ensures GoesOn(g, i) { LinkedGoesOn(b, g, i); }
  }

  lemma LinkedGoesOn(b: Before, g: History, i: nat)
    requires 0 < i < |g| && !g[i].starts && Linked(b, g, i)
    ensures GoesOn(g, i)
  {
    assert g[..i][|g[..i]| - 1] == g[i - 1];
  }

  /** From a receiver with nothing open, packets without a start deliver nothing. */
  lemma {:induction false} NothingWithoutStart(b: Before, h: History, ps: seq<Packet>)
    requires LastStart(h) < 0 && forall i :: 0 <= i < |ps| && Full(ps[i]) ==> !Read(ps[i]).starts
    ensures forall m :: Delivered(m) !in Reports(b, h, ps)
    decreases |ps|
  {
    hide Discarding, Overflows, Data, InStep, LastStart, Open;
    if ps != [] {
      var p := ps[0];
      if Full(p) { LastOneMore(h, Read(p)); }
      NothingWithoutStart(b, After(h, p), ps[1..]);
    }
  }

  /** A packet in step, without a start, when nothing is open: one fault, reported once. */
  lemma OrphanIsReported(c: State, p: Packet)
    requires Full(p) && !Read(p).starts && Read(p).count == c.expected && c.partial.None?
    ensures Step(c, p) ==
            Outcome(State((c.expected + 1) % 64, None, c.discarding),
                    if c.discarding then [] else [Reset(UnexpectedContinue)])
  {
    FlagBits(p);
    hide IsStart, IsEnd, SeqOf;
  }

  /** A packet without data changes no field. */
  lemma RuntIsReported(c: State, p: Packet)
    requires !Full(p)
    ensures Step(c, p) == Outcome(c, [Reset(Empty)])
  {
  }

  /** A fragment that nothing started, and a message after it. */
  lemma ContinueWithoutStart()
    ensures Run(INITIAL, [[0x00, 0x61, 0x62, 0x63], [0x81, 0x01, 0x02], [0x42, 0x03]]).events ==
            [Reset(UnexpectedContinue), Delivered([0x01, 0x02, 0x03])]
  {
    hide Run, Step;
    var a: Packet, b: Packet, c: Packet := [0x00, 0x61, 0x62, 0x63], [0x81, 0x01, 0x02], [0x42, 0x03];
    var none: seq<Packet> := [];
    assert [a, b, c][1..] == [b, c] && [b, c][1..] == [c] && [c][1..] == none;
    var s1, s2, s3 := State(1, None, false), State(2, Some([0x01, 0x02]), false), State(3, None, false);
    ContinueSteps(a, b, c);
    RunNone(s3);
    RunFirst(INITIAL, [a, b, c]);
    RunFirst(s1, [b, c]);
    RunFirst(s2, [c]);
  }

  lemma RunNone(s: State)
    ensures Run(s, []) == Outcome(s, [])
  {
  }

  lemma ContinueSteps(a: Packet, b: Packet, c: Packet)
    requires a == [0x00, 0x61, 0x62, 0x63] && b == [0x81, 0x01, 0x02] && c == [0x42, 0x03]
    ensures Step(INITIAL, a) == Outcome(State(1, None, false), [Reset(UnexpectedContinue)])
    ensures Step(State(1, None, false), b) == Outcome(State(2, Some([0x01, 0x02]), false), [])
    ensures Step(State(2, Some([0x01, 0x02]), false), c) ==
            Outcome(State(3, None, false), [Delivered([0x01, 0x02, 0x03])])
  {
    var d: seq<byte>, e: seq<byte>, f: seq<byte> := [0x01, 0x02], [0x03], [0x01, 0x02, 0x03];
    assert b[1..] == d && c[1..] == e && [] + d == d && d + e == f;
  }
}
