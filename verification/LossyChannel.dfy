/**
 A whole link: messages cut back to back into one packet stream, a channel that loses packets,
 and the recovering receiver at the far end.

 The receiver only sees a 6-bit counter, so it notices a loss exactly when the run of lost
 packets is not a multiple of 64 long.
 */
module LossyChannel {
  import opened Wrappers
  import opened Integers
  import opened Bytes
  import opened MessageCodec
  import opened Framing

  predicate Transmittable(m: seq<byte>) { 1 <= |m| <= Framing.MAX_MESSAGE }

  // ---- One message into any receiver ----

  lemma {:induction false} RunAppend(c: State, a: seq<Packet>, b: seq<Packet>)
    ensures var first := Run(c, a);
            var rest := Run(first.state, b);
            Run(c, a + b) == Outcome(rest.state, first.events + rest.events)
    decreases |a|
  {
    hide Step;
    if a == [] {
      assert a + b == b;
    } else {
      assert (a + b)[1..] == a[1..] + b;
      RunAppend(Step(c, a[0]).state, a[1..], b);
    }
  }

  lemma {:induction false} SliceGrow(msg: seq<byte>, room: nat, i: nat, j: nat, k: nat)
    requires i <= j <= k
    ensures Slice(msg, room, i, j) + Slice(msg, room, j, k) == Slice(msg, room, i, k)
    ensures |Slice(msg, room, i, k)| <= |msg|
  {
    MulMono(i, j, room);
    MulMono(j, k, room);
    MulMono(0, i, room);
  }

  lemma {:induction false} SliceAll(msg: seq<byte>, room: nat)
    requires room > 0
    ensures Slice(msg, room, 0, PacketCount(|msg|, room)) == msg
  {
    PacketCountBounds(|msg|, room, PacketCount(|msg|, room));
  }

  lemma {:induction false} PacketShape(msg: seq<byte>, room: nat, seqNo: int, k: nat)
    requires room > 0 && k < PacketCount(|msg|, room)
    ensures var p := PacketAt(msg, room, seqNo, k);
            |p| >= 2 && SeqOf(p[0]) == (seqNo + k) % SEQ_MOD && p[1..] == Slice(msg, room, k, k + 1) &&
            IsStart(p[0]) == (k == 0) && IsEnd(p[0]) == (k + 1 == PacketCount(|msg|, room))
  {
    PacketCountBounds(|msg|, room, k);
    CutAt(msg, room, seqNo, k, k * room);
    FlagsFields(seqNo + k, k == 0, k + 1 == PacketCount(|msg|, room));
  }

  lemma PacketsTail(msg: seq<byte>, room: nat, seqNo: int, i: nat)
    requires room > 0 && i < PacketCount(|msg|, room)
    ensures PacketsFrom(msg, room, seqNo, i)[0] == PacketAt(msg, room, seqNo, i)
    ensures PacketsFrom(msg, room, seqNo, i)[1..] == PacketsFrom(msg, room, seqNo, i + 1)
  {
  }

  /** An open, in-step message runs to its end: it is delivered whole, or dropped once it passes the limit. */
  lemma {:induction false} RunOpen(c: State, msg: seq<byte>, room: nat, seqNo: int, i: nat, front: seq<byte>)
    requires room > 0 && 0 < i < PacketCount(|msg|, room)
    requires c == State((seqNo + i) % SEQ_MOD, Some(front), false)
    requires |front| <= Framing.MAX_MESSAGE
    ensures var n := PacketCount(|msg|, room);
            var whole := front + Slice(msg, room, i, n);
            Run(c, PacketsFrom(msg, room, seqNo, i)) ==
            if |whole| <= Framing.MAX_MESSAGE
              then Outcome(State((seqNo + n) % SEQ_MOD, None, false), [Delivered(whole)])
            else Outcome(State((seqNo + n) % SEQ_MOD, None, true), [Reset(ResetReason.Oversize)])
    decreases PacketCount(|msg|, room) - i
  {
    hide Step, PacketAt, PacketsFrom, PacketCount, Slice, SeqOf, IsStart, IsEnd, Run;
    var n := PacketCount(|msg|, room);
    var p := PacketAt(msg, room, seqNo, i);
    PacketShape(msg, room, seqNo, i);
    PacketsTail(msg, room, seqNo, i);
    RunFirst(c, PacketsFrom(msg, room, seqNo, i));
    StepInSync(c, p);
    SliceGrow(msg, room, i, i + 1, n);
    var next := front + Slice(msg, room, i, i + 1);
    assert front + Slice(msg, room, i, n) == next + Slice(msg, room, i + 1, n);
    var o := Step(c, p);
    NextCount(seqNo + i);
    if |next| > Framing.MAX_MESSAGE {
      RunDiscarding(o.state, msg, room, seqNo, i + 1);
      assert o.events + [] == o.events;
    } else if i + 1 < n {
      RunOpen(o.state, msg, room, seqNo, i + 1, next);
      assert [] + [Delivered(next + Slice(msg, room, i + 1, n))] == [Delivered(next + Slice(msg, room, i + 1, n))];
    } else {
      PacketsEnd(msg, room, seqNo);
      RunNone(o.state);
      assert next + [] == next && o.events + [] == o.events;
    }
  }

  lemma PacketsEnd(msg: seq<byte>, room: nat, seqNo: int)
    requires room > 0
    ensures var n := PacketCount(|msg|, room);
            PacketsFrom(msg, room, seqNo, n) == [] && Slice(msg, room, n, n) == []
  {
  }

  lemma StepInSync(c: State, p: Packet)
    requires |p| >= 2 && SeqOf(p[0]) == c.expected && !IsStart(p[0]) && c.partial.Some?
    ensures var whole := c.partial.value + p[1..];
            var e := (c.expected + 1) % SEQ_MOD;
            Step(c, p) ==
            if |whole| > Framing.MAX_MESSAGE then Outcome(State(e, None, true), [Reset(ResetReason.Oversize)])
            else if IsEnd(p[0]) then Outcome(State(e, None, c.discarding), [Delivered(whole)])
            else Outcome(State(e, Some(whole), c.discarding), [])
  {
  }

  /** The rest of a message that was given up on passes in silence. */
  lemma {:induction false} RunDiscarding(c: State, msg: seq<byte>, room: nat, seqNo: int, i: nat)
    requires room > 0 && 0 < i <= PacketCount(|msg|, room)
    requires c == State((seqNo + i) % SEQ_MOD, None, true)
    ensures Run(c, PacketsFrom(msg, room, seqNo, i)) ==
            Outcome(State((seqNo + PacketCount(|msg|, room)) % SEQ_MOD, None, true), [])
    decreases PacketCount(|msg|, room) - i
  {
    if i < PacketCount(|msg|, room) {
      PacketShape(msg, room, seqNo, i);
      PacketsTail(msg, room, seqNo, i);
      var o := Step(c, PacketAt(msg, room, seqNo, i));
      assert o == Outcome(State((seqNo + i + 1) % SEQ_MOD, None, true), []);
      RunDiscarding(o.state, msg, room, seqNo, i + 1);
    }
  }

  /** The one reset, if any, a START packet costs a receiver in state c. */
  function Resync(c: State, seqNo: int): seq<Event> {
    if seqNo % SEQ_MOD != c.expected then [Reset(SeqGap)]
    else if c.partial.Some? then [Reset(UnexpectedStart)]
    else []
  }

  /** A receiver after `data`, the first packet's bytes, was taken from any state. */
  lemma {:induction false} AfterStart(c: State, msg: seq<byte>, room: nat, seqNo: int, data: seq<byte>)
    requires room > 0 && 0 < PacketCount(|msg|, room) && data == Slice(msg, room, 0, 1)
    requires c == State((seqNo + 1) % SEQ_MOD,
                        if |data| > Framing.MAX_MESSAGE || PacketCount(|msg|, room) == 1 then None else Some(data),
                        |data| > Framing.MAX_MESSAGE)
    ensures var o := Run(c, PacketsFrom(msg, room, seqNo, 1));
            var fits := |msg| <= Framing.MAX_MESSAGE;
            o.state == State((seqNo + PacketCount(|msg|, room)) % SEQ_MOD, None, !fits) &&
            o.events == if |data| > Framing.MAX_MESSAGE || PacketCount(|msg|, room) == 1 then []
                        else [if fits then Delivered(msg) else Reset(ResetReason.Oversize)]
  {
    hide PacketAt, PacketsFrom, PacketCount, Slice, Run;
    var n := PacketCount(|msg|, room);
    SliceGrow(msg, room, 0, 1, n);
    SliceAll(msg, room);
    if |data| > Framing.MAX_MESSAGE {
      RunDiscarding(c, msg, room, seqNo, 1);
    } else if n > 1 {
      RunOpen(c, msg, room, seqNo, 1, data);
    } else {
      PacketsEnd(msg, room, seqNo);
      RunNone(c);
    }
  }

  /**
   Self-stabilisation: whatever state the receiver is in, one undamaged message brings it back.
   At most one reset, the message exactly when it fits the limit, and a receiver in step with the sender.
   */
  lemma {:induction false} SelfStabilising(c: State, msg: seq<byte>, packetSize: nat, seqNo: int)
    requires packetSize >= 2 && msg != []
    ensures var ps := Packets(msg, packetSize - 1, seqNo);
            var o := Run(c, ps);
            var fits := |msg| <= Framing.MAX_MESSAGE;
            o.state == State((seqNo + |ps|) % SEQ_MOD, None, !fits) &&
            o.events == Resync(c, seqNo) + [if fits then Delivered(msg) else Reset(ResetReason.Oversize)]
  {
    hide Step, PacketAt, PacketsFrom, PacketCount, Slice, Resync, SeqOf, IsStart, IsEnd, Run;
    var room := packetSize - 1;
    var n := PacketCount(|msg|, room);
    PacketCountBounds(|msg|, room, 0);
    PacketShape(msg, room, seqNo, 0);
    PacketsTail(msg, room, seqNo, 0);
    RunFirst(c, PacketsFrom(msg, room, seqNo, 0));
    var p := PacketAt(msg, room, seqNo, 0);
    StepStart(c, p);
    ResyncMod(c, seqNo);
    NextCount(seqNo);
    var data := Slice(msg, room, 0, 1);
    SliceGrow(msg, room, 0, 1, n);
    SliceAll(msg, room);
    AfterStart(Step(c, p).state, msg, room, seqNo, data);
    assert Step(c, p).events + [] == Step(c, p).events;
  }

  lemma RunNone(c: State)
    ensures Run(c, []) == Outcome(c, [])
  {
  }

  lemma ResyncMod(c: State, seqNo: int)
    ensures Resync(c, seqNo % SEQ_MOD) == Resync(c, seqNo)
  {
  }

  /** A START packet is taken from any state. */
  lemma StepStart(c: State, p: Packet)
    requires |p| >= 2 && IsStart(p[0])
    ensures var e := (SeqOf(p[0]) + 1) % SEQ_MOD;
            var pre := Resync(c, SeqOf(p[0]));
            Step(c, p) ==
            if |p[1..]| > Framing.MAX_MESSAGE then Outcome(State(e, None, true), pre + [Reset(ResetReason.Oversize)])
            else if IsEnd(p[0]) then Outcome(State(e, None, false), pre + [Delivered(p[1..])])
            else Outcome(State(e, Some(p[1..]), false), pre)
  {
    assert [] + p[1..] == p[1..];
  }

  /** End to end: encode, segment, reassemble from any state, decode. */
  lemma EndToEnd(c: State, mtype: int, id: int, payload: seq<byte>, packetSize: nat, seqNo: int)
    requires Sendable(mtype, id, payload) && packetSize >= 2
    ensures var msg := Encode(mtype, id, payload);
            var o := Run(c, Packets(msg, packetSize - 1, seqNo));
            o.events == Resync(c, seqNo) + [Delivered(msg)] && |Resync(c, seqNo)| <= 1 &&
            o.state == State((seqNo + PacketCount(6 + |payload|, packetSize - 1)) % SEQ_MOD, None, false) &&
            Decode(msg) == Decoded(mtype, id, payload)
  {
    SelfStabilising(c, Encode(mtype, id, payload), packetSize, seqNo);
    DecodeEncode(mtype, id, payload);
  }

  // ---- A stream of messages through a channel that loses packets ----

  /** Messages segmented back to back: the counter runs on from one to the next. */
  function Stream(msgs: seq<seq<byte>>, room: nat, seqNo: int): seq<Packet>
    requires room > 0
  {
    if msgs == [] then []
    else Packets(msgs[0], room, seqNo) + Stream(msgs[1..], room, seqNo + PacketCount(|msgs[0]|, room))
  }

  lemma {:induction false} StreamMod(msgs: seq<seq<byte>>, room: nat, s: int, t: int)
    requires room > 0 && s % SEQ_MOD == t % SEQ_MOD
    ensures Stream(msgs, room, s) == Stream(msgs, room, t)
    decreases |msgs|
  {
    if msgs != [] {
      var n := PacketCount(|msgs[0]|, room);
      SameCount(s, t, n);
      StreamMod(msgs[1..], room, s + n, t + n);
      PacketsMod(msgs[0], room, s, t);
    }
  }

  lemma SameCount(s: int, t: int, k: int)
    requires s % SEQ_MOD == t % SEQ_MOD
    ensures (s + k) % SEQ_MOD == (t + k) % SEQ_MOD
  {
  }

  lemma PacketsMod(msg: seq<byte>, room: nat, s: int, t: int)
    requires room > 0 && s % SEQ_MOD == t % SEQ_MOD
    ensures Packets(msg, room, s) == Packets(msg, room, t)
  {
    forall k | 0 <= k < PacketCount(|msg|, room) ensures PacketAt(msg, room, s, k) == PacketAt(msg, room, t, k) {
      SameCount(s, t, k);
    }
    hide PacketAt, PacketCount;
    assert forall k :: 0 <= k < PacketCount(|msg|, room) ==> Packets(msg, room, s)[k] == PacketAt(msg, room, s, k);
    assert forall k :: 0 <= k < PacketCount(|msg|, room) ==> Packets(msg, room, t)[k] == PacketAt(msg, room, t, k);
  }

  lemma StreamFirst(msgs: seq<seq<byte>>, room: nat, s: int, next: int)
    requires room > 0 && msgs != [] && next % SEQ_MOD == (s + PacketCount(|msgs[0]|, room)) % SEQ_MOD
    ensures Stream(msgs, room, s) == Packets(msgs[0], room, s) + Stream(msgs[1..], room, next)
  {
    StreamMod(msgs[1..], room, next, s + PacketCount(|msgs[0]|, room));
  }

  /** A sender's life: each message starts at the counter the one before it left. */
  method SendAll(msgs: seq<seq<byte>>, packetSize: nat, seqNo: int) returns (out: seq<Packet>)
    requires packetSize >= 2
    ensures out == Stream(msgs, packetSize - 1, seqNo)
  {
    var room := packetSize - 1;
    out := [];
    var next := seqNo;
    for i := 0 to |msgs|
      invariant out + Stream(msgs[i..], room, next) == Stream(msgs, room, seqNo)
    {
      var ps, after := Segment(msgs[i], packetSize, next);
      assert msgs[i..][1..] == msgs[i + 1..];
      if msgs[i] == [] { NoneForEmpty(room); }
      StreamFirst(msgs[i..], room, next, after);
      hide Stream, Packets;
      assert out + (ps + Stream(msgs[i + 1..], room, after)) == out + ps + Stream(msgs[i + 1..], room, after);
      out := out + ps;
      next := after;
    }
  }

  lemma NoneForEmpty(room: nat)
    requires room > 0
    ensures PacketCount(0, room) == 0
  {
    PacketCountBounds(0, room, 0);
  }

  /** What arrives: the packets the channel keeps. */
  function Deliver(ps: seq<Packet>, keep: seq<bool>): seq<Packet>
    requires |keep| == |ps|
  {
    if ps == [] then [] else (if keep[0] then [ps[0]] else []) + Deliver(ps[1..], keep[1..])
  }

  /** The length of the run of losses the packets end in, r losses having come before them. */
  function LostRun(keep: seq<bool>, r: nat): nat {
    if keep == [] then r else LostRun(keep[1..], if keep[0] then 0 else r + 1)
  }

  /** No run of losses that ends in a delivered packet is a multiple of 64 long. */
  predicate Detectable(keep: seq<bool>, r: nat) {
    keep != [] ==>
      (keep[0] && r > 0 ==> r % SEQ_MOD != 0) && Detectable(keep[1..], if keep[0] then 0 else r + 1)
  }

  /** One reset per run of losses, at the delivered packet that ends it. */
  function GapResets(keep: seq<bool>, r: nat): seq<Event> {
    if keep == [] then []
    else (if keep[0] && r > 0 then [Reset(SeqGap)] else []) + GapResets(keep[1..], if keep[0] then 0 else r + 1)
  }

  predicate AllKept(keep: seq<bool>) { forall k :: 0 <= k < |keep| ==> keep[k] }

  /** What an ideal receiver reports: each gap once, each undamaged message once, in order. */
  function Ideal(msgs: seq<seq<byte>>, room: nat, keep: seq<bool>, r: nat): seq<Event>
    requires room > 0 && |keep| == |Stream(msgs, room, 0)|
    decreases |msgs|
  {
    if msgs == [] then []
    else
      StreamLength(msgs, room, 0, 0);
      var n := PacketCount(|msgs[0]|, room);
      StreamLength(msgs[1..], room, n, 0);
      GapResets(keep[..n], r) + (if AllKept(keep[..n]) then [Delivered(msgs[0])] else []) +
      Ideal(msgs[1..], room, keep[n..], LostRun(keep[..n], r))
  }

  lemma {:induction false} StreamLength(msgs: seq<seq<byte>>, room: nat, s: int, t: int)
    requires room > 0
    ensures |Stream(msgs, room, s)| == |Stream(msgs, room, t)|
    ensures msgs != [] ==> |Stream(msgs, room, s)| == PacketCount(|msgs[0]|, room) + |Stream(msgs[1..], room, t)|
    decreases |msgs|
  {
    if msgs != [] {
      var n := PacketCount(|msgs[0]|, room);
      StreamLength(msgs[1..], room, s + n, t + n);
      StreamLength(msgs[1..], room, s + n, t);
    }
  }

  /** The receiver, i packets into a message, r packets since the last one that arrived. */
  ghost predicate Tracks(c: State, msg: seq<byte>, room: nat, seqNo: int, i: nat, intact: bool, r: nat) {
    c.expected == (seqNo + i - r) % SEQ_MOD &&
    (i == 0 ==> intact) &&
    (r > 0 && i > 0 ==> !intact) &&
    (r == 0 ==>
      if i == 0 then c.partial.None?
      else if intact then c.partial == Some(Slice(msg, room, 0, i))
      else c.partial.None? && c.discarding)
  }

  /** Between messages: the same, at the start of whatever comes next. */
  ghost predicate Between(c: State, seqNo: int, r: nat) {
    c.expected == (seqNo - r) % SEQ_MOD && (r == 0 ==> c.partial.None?)
  }

  lemma GapSeen(s: int, r: nat)
    requires r > 0 && r % SEQ_MOD != 0
    ensures s % SEQ_MOD != (s - r) % SEQ_MOD
  {
  }

  /** A packet inside a message that is not being collected is passed over. */
  lemma StepSkip(c: State, p: Packet)
    requires |p| >= 2 && !IsStart(p[0])
    requires SeqOf(p[0]) != c.expected || (c.partial.None? && c.discarding)
    ensures Step(c, p) == Outcome(State((SeqOf(p[0]) + 1) % SEQ_MOD, None, true),
                                  if SeqOf(p[0]) != c.expected then [Reset(SeqGap)] else [])
  {
  }

  lemma NextCount(a: int)
    ensures (a % SEQ_MOD + 1) % SEQ_MOD == (a + 1) % SEQ_MOD
  {
  }

  /** What one delivered packet does to a receiver that tracks the sender. */
  ghost predicate Advances(c: State, msg: seq<byte>, room: nat, seqNo: int, i: nat, intact: bool, r: nat)
    requires room > 0
  {
    var n := PacketCount(|msg|, room);
    var o := Step(c, PacketAt(msg, room, seqNo, i));
    o.events == (if r > 0 then [Reset(SeqGap)] else []) + (if intact && i + 1 == n then [Delivered(msg)] else []) &&
    if i + 1 < n then Tracks(o.state, msg, room, seqNo, i + 1, intact, 0) else Between(o.state, seqNo + n, 0)
  }

  /** The counter shows a gap just when packets were lost. */
  lemma CounterShows(c: State, msg: seq<byte>, room: nat, seqNo: int, i: nat, intact: bool, r: nat)
    requires Tracks(c, msg, room, seqNo, i, intact, r) && (r > 0 ==> r % SEQ_MOD != 0)
    ensures (seqNo + i) % SEQ_MOD != c.expected <==> r > 0
  {
    hide Slice;
    if r > 0 { GapSeen(seqNo + i, r); }
  }

  lemma FirstAdvances(c: State, msg: seq<byte>, room: nat, seqNo: int, r: nat)
    requires room > 0 && Transmittable(msg) && 0 < PacketCount(|msg|, room)
    requires Tracks(c, msg, room, seqNo, 0, true, r) && (r > 0 ==> r % SEQ_MOD != 0)
    ensures Advances(c, msg, room, seqNo, 0, true, r)
  {
    hide Step, PacketAt, Slice, PacketCount, SeqOf, IsStart, IsEnd;
    PacketShape(msg, room, seqNo, 0);
    CounterShows(c, msg, room, seqNo, 0, true, r);
    SliceGrow(msg, room, 0, 1, 1);
    SliceAll(msg, room);
    StepStart(c, PacketAt(msg, room, seqNo, 0));
    assert Resync(c, seqNo % SEQ_MOD) == if r > 0 then [Reset(SeqGap)] else [];
  }

  lemma OpenAdvances(c: State, msg: seq<byte>, room: nat, seqNo: int, i: nat)
    requires room > 0 && Transmittable(msg) && 0 < i < PacketCount(|msg|, room)
    requires Tracks(c, msg, room, seqNo, i, true, 0)
    ensures Advances(c, msg, room, seqNo, i, true, 0)
  {
    hide Step, PacketAt, Slice, PacketCount, SeqOf, IsStart, IsEnd;
    PacketShape(msg, room, seqNo, i);
    SliceGrow(msg, room, 0, i, i + 1);
    SliceAll(msg, room);
    NextCount(seqNo + i);
    StepInSync(c, PacketAt(msg, room, seqNo, i));
  }

  lemma DamagedAdvances(c: State, msg: seq<byte>, room: nat, seqNo: int, i: nat, r: nat)
    requires room > 0 && 0 < i < PacketCount(|msg|, room)
    requires Tracks(c, msg, room, seqNo, i, false, r) && (r > 0 ==> r % SEQ_MOD != 0)
    ensures Advances(c, msg, room, seqNo, i, false, r)
  {
    hide Step, PacketAt, Slice, PacketCount, SeqOf, IsStart, IsEnd;
    PacketShape(msg, room, seqNo, i);
    CounterShows(c, msg, room, seqNo, i, false, r);
    NextCount(seqNo + i);
    var n := PacketCount(|msg|, room);
    assert seqNo + i + 1 == seqNo + (i + 1);
    StepSkip(c, PacketAt(msg, room, seqNo, i));
  }

  lemma StepTracks(c: State, msg: seq<byte>, room: nat, seqNo: int, i: nat, intact: bool, r: nat)
    requires room > 0 && i < PacketCount(|msg|, room) && Transmittable(msg)
    requires Tracks(c, msg, room, seqNo, i, intact, r) && (r > 0 ==> r % SEQ_MOD != 0)
    ensures Advances(c, msg, room, seqNo, i, intact, r)
  {
    hide Step, PacketAt, Slice, PacketCount, Advances;
    if i == 0 {
      FirstAdvances(c, msg, room, seqNo, r);
    } else if intact {
      OpenAdvances(c, msg, room, seqNo, i);
    } else {
      DamagedAdvances(c, msg, room, seqNo, i, r);
    }
  }

  lemma SliceEmpty(msg: seq<byte>, room: nat)
    ensures Slice(msg, room, 0, 0) == []
  {
  }

  lemma {:induction false} MessageThrough(c: State, msg: seq<byte>, room: nat, seqNo: int, i: nat,
                                          intact: bool, r: nat, keep: seq<bool>)
    requires room > 0 && i < PacketCount(|msg|, room) && |keep| == PacketCount(|msg|, room) - i
    requires Transmittable(msg) && Detectable(keep, r) && Tracks(c, msg, room, seqNo, i, intact, r)
    ensures var n := PacketCount(|msg|, room);
            var o := Run(c, Deliver(PacketsFrom(msg, room, seqNo, i), keep));
            o.events == GapResets(keep, r) + (if intact && AllKept(keep) then [Delivered(msg)] else []) &&
            Between(o.state, seqNo + n, LostRun(keep, r))
    decreases |keep|
  {
    hide Step, PacketAt, PacketsFrom, Slice, PacketCount, AllKept, Tracks, Deliver, Run, GapResets, LostRun;
    var n := PacketCount(|msg|, room);
    var r' := if keep[0] then 0 else r + 1;
    PacketsTail(msg, room, seqNo, i);
    var ps := PacketsFrom(msg, room, seqNo, i);
    AllKeptTail(keep);
    MaskFirst(keep, r);
    DeliverFirst(c, ps, keep);
    var o := if keep[0] then Step(c, ps[0]) else Outcome(c, []);
    if keep[0] {
      StepTracks(c, msg, room, seqNo, i, intact, r);
    } else {
      LossTracks(c, msg, room, seqNo, i, intact, r);
    }
    var gap := if keep[0] && r > 0 then [Reset(SeqGap)] else [];
    if i + 1 < n {
      MessageThrough(o.state, msg, room, seqNo, i + 1, intact && keep[0], r', keep[1..]);
      assert o.events == gap;
      Regroup(gap, GapResets(keep[1..], r'), if intact && keep[0] && AllKept(keep[1..]) then [Delivered(msg)] else []);
    } else {
      PacketsEnd(msg, room, seqNo);
      assert keep[1..] == [];
      NoMask(o.state, r');
      assert gap + [] == gap;
    }
  }

  lemma Regroup(a: seq<Event>, b: seq<Event>, c: seq<Event>)
    ensures a + (b + c) == (a + b) + c
  {
  }

  lemma MaskFirst(keep: seq<bool>, r: nat)
    requires keep != []
    ensures var r' := if keep[0] then 0 else r + 1;
            GapResets(keep, r) == (if keep[0] && r > 0 then [Reset(SeqGap)] else []) + GapResets(keep[1..], r') &&
            LostRun(keep, r) == LostRun(keep[1..], r')
  {
  }

  lemma NoMask(c: State, r: nat)
    ensures GapResets([], r) == [] && LostRun([], r) == r && AllKept([]) && Run(c, Deliver([], [])) == Outcome(c, [])
  {
  }

  lemma LossTracks(c: State, msg: seq<byte>, room: nat, seqNo: int, i: nat, intact: bool, r: nat)
    requires Tracks(c, msg, room, seqNo, i, intact, r)
    ensures Tracks(c, msg, room, seqNo, i + 1, false, r + 1)
    ensures Between(c, seqNo + i + 1, r + 1)
  {
    hide Slice;
  }

  lemma DeliverFirst(c: State, ps: seq<Packet>, keep: seq<bool>)
    requires |keep| == |ps| > 0
    ensures var o := if keep[0] then Step(c, ps[0]) else Outcome(c, []);
            var rest := Run(o.state, Deliver(ps[1..], keep[1..]));
            Run(c, Deliver(ps, keep)) == Outcome(rest.state, o.events + rest.events)
  {
    hide Step;
    var rest := Deliver(ps[1..], keep[1..]);
    if keep[0] {
      assert ([ps[0]] + rest)[1..] == rest;
    } else {
      assert [] + rest == rest;
    }
  }

  lemma AllKeptTail(keep: seq<bool>)
    requires keep != []
    ensures AllKept(keep) == (keep[0] && AllKept(keep[1..]))
  {
    if keep[0] && AllKept(keep[1..]) {
      forall k | 0 <= k < |keep| ensures keep[k] { if k > 0 { assert keep[k] == keep[1..][k - 1]; } }
    }
  }

  lemma {:induction false} DeliverAppend(a: seq<Packet>, b: seq<Packet>, keep: seq<bool>)
    requires |keep| == |a| + |b|
    ensures Deliver(a + b, keep) == Deliver(a, keep[..|a|]) + Deliver(b, keep[|a|..])
    decreases |a|
  {
    hide Deliver;
    if a == [] {
      DeliverNone(keep[..0]);
      assert a + b == b && keep[0..] == keep && [] + Deliver(b, keep) == Deliver(b, keep);
    } else {
      DeliverAppend(a[1..], b, keep[1..]);
      assert (a + b)[1..] == a[1..] + b && (a + b)[0] == a[0];
      assert keep[1..][..|a| - 1] == keep[..|a|][1..] && keep[1..][|a| - 1..] == keep[|a|..];
      DeliverHead(a + b, keep);
      DeliverHead(a, keep[..|a|]);
    }
  }

  lemma DeliverNone(keep: seq<bool>)
    requires keep == []
    ensures Deliver([], keep) == []
  {
  }

  lemma DeliverHead(ps: seq<Packet>, keep: seq<bool>)
    requires |keep| == |ps| > 0
    ensures Deliver(ps, keep) == (if keep[0] then [ps[0]] else []) + Deliver(ps[1..], keep[1..])
  {
  }

  lemma {:induction false} DetectableSplit(keep: seq<bool>, n: nat, r: nat)
    requires n <= |keep| && Detectable(keep, r)
    ensures Detectable(keep[..n], r) && Detectable(keep[n..], LostRun(keep[..n], r))
    decreases n
  {
    if n > 0 {
      DetectableSplit(keep[1..], n - 1, if keep[0] then 0 else r + 1);
      assert keep[1..][..n - 1] == keep[..n][1..] && keep[1..][n - 1..] == keep[n..];
    } else {
      assert keep[0..] == keep;
    }
  }

  /** A receiver in step with the sender reports just what the ideal one does, while every gap can be noticed. */
  lemma {:induction false} ExactIfDetectable(c: State, msgs: seq<seq<byte>>, room: nat, seqNo: int, keep: seq<bool>,
                                             r: nat)
    requires room > 0 && (forall m :: m in msgs ==> Transmittable(m))
    requires |keep| == |Stream(msgs, room, 0)| && Detectable(keep, r) && Between(c, seqNo, r)
    ensures |Stream(msgs, room, seqNo)| == |keep|
    ensures var o := Run(c, Deliver(Stream(msgs, room, seqNo), keep));
            o.events == Ideal(msgs, room, keep, r) && Between(o.state, seqNo + |keep|, LostRun(keep, r))
    decreases |msgs|
  {
    hide Step, PacketsFrom, PacketCount, Slice, GapResets, LostRun, AllKept, Detectable, Deliver, Between, Packets, Run;
    StreamLength(msgs, room, seqNo, 0);
    if msgs == [] {
      SilentStream(c, keep, seqNo, r);
    } else {
      var m := msgs[0];
      var n := PacketCount(|m|, room);
      PacketCountBounds(|m|, room, 0);
      StreamLength(msgs[1..], room, seqNo + n, 0);
      var a, b := Packets(m, room, seqNo), Stream(msgs[1..], room, seqNo + n);
      DeliverAppend(a, b, keep);
      DetectableSplit(keep, n, r);
      WholeMessageThrough(c, m, room, seqNo, r, keep[..n]);
      var o := Run(c, Deliver(a, keep[..n]));
      ExactIfDetectable(o.state, msgs[1..], room, seqNo + n, keep[n..], LostRun(keep[..n], r));
      RunAppend(c, Deliver(a, keep[..n]), Deliver(b, keep[n..]));
      LostRunSplit(keep, n, r);
    }
  }

  lemma SilentStream(c: State, keep: seq<bool>, seqNo: int, r: nat)
    requires keep == [] && Between(c, seqNo, r)
    ensures Run(c, Deliver([], keep)) == Outcome(c, []) && Between(c, seqNo + |keep|, LostRun(keep, r))
  {
  }

  lemma WholeMessageThrough(c: State, msg: seq<byte>, room: nat, seqNo: int, r: nat, keep: seq<bool>)
    requires room > 0 && Transmittable(msg) && |keep| == PacketCount(|msg|, room)
    requires Detectable(keep, r) && Between(c, seqNo, r)
    ensures var o := Run(c, Deliver(Packets(msg, room, seqNo), keep));
            o.events == GapResets(keep, r) + (if AllKept(keep) then [Delivered(msg)] else []) &&
            Between(o.state, seqNo + |keep|, LostRun(keep, r))
  {
    hide Step, PacketsFrom, PacketCount, Slice, GapResets, LostRun, AllKept, Detectable, Deliver;
    PacketCountBounds(|msg|, room, 0);
    MessageThrough(c, msg, room, seqNo, 0, true, r, keep);
  }

  lemma {:induction false} LostRunSplit(keep: seq<bool>, n: nat, r: nat)
    requires n <= |keep|
    ensures LostRun(keep, r) == LostRun(keep[n..], LostRun(keep[..n], r))
    decreases n
  {
    if n > 0 {
      LostRunSplit(keep[1..], n - 1, if keep[0] then 0 else r + 1);
      assert keep[1..][..n - 1] == keep[..n][1..] && keep[1..][n - 1..] == keep[n..];
    } else {
      assert keep[0..] == keep;
    }
  }

  // ---- What the exactness theorem means for the two kinds of event ----

  function Messages(events: seq<Event>): seq<seq<byte>> {
    if events == [] then []
    else (if events[0].Delivered? then [events[0].message] else []) + Messages(events[1..])
  }

  function Resets(events: seq<Event>): seq<ResetReason> {
    if events == [] then []
    else (if events[0].Reset? then [events[0].reason] else []) + Resets(events[1..])
  }

  /** The messages none of whose packets was lost. */
  function Undamaged(msgs: seq<seq<byte>>, room: nat, keep: seq<bool>): seq<seq<byte>>
    requires room > 0 && |keep| == |Stream(msgs, room, 0)|
    decreases |msgs|
  {
    if msgs == [] then []
    else
      StreamLength(msgs, room, 0, 0);
      var n := PacketCount(|msgs[0]|, room);
      StreamLength(msgs[1..], room, n, 0);
      (if AllKept(keep[..n]) then [msgs[0]] else []) + Undamaged(msgs[1..], room, keep[n..])
  }

  /** How many delivered packets have a lost one right before them. */
  function GapsEnded(keep: seq<bool>, lostBefore: bool): nat {
    if keep == [] then 0
    else (if keep[0] && lostBefore then 1 else 0) + GapsEnded(keep[1..], !keep[0])
  }

  lemma {:induction false} MessagesAppend(a: seq<Event>, b: seq<Event>)
    ensures Messages(a + b) == Messages(a) + Messages(b)
    ensures Resets(a + b) == Resets(a) + Resets(b)
  {
    hide Messages, Resets;
    if a == [] {
      NoEvents();
      assert a + b == b;
      assert [] + Messages(b) == Messages(b) && [] + Resets(b) == Resets(b);
    } else {
      MessagesAppend(a[1..], b);
      EventFirst(a);
      EventFirst(a + b);
      assert (a + b)[1..] == a[1..] + b;
      assert (a + b)[0] == a[0];
    }
  }

  lemma NoEvents()
    ensures Messages([]) == [] && Resets([]) == []
  {
  }

  lemma EventFirst(a: seq<Event>)
    requires a != []
    ensures a[0].Delivered? ==> Messages(a) == [a[0].message] + Messages(a[1..]) && Resets(a) == Resets(a[1..])
    ensures a[0].Reset? ==> Messages(a) == Messages(a[1..]) && Resets(a) == [a[0].reason] + Resets(a[1..])
  {
    assert [] + Messages(a[1..]) == Messages(a[1..]);
    assert [] + Resets(a[1..]) == Resets(a[1..]);
  }

  lemma {:induction false} GapResetsOnly(keep: seq<bool>, r: nat)
    ensures Messages(GapResets(keep, r)) == []
    ensures Resets(GapResets(keep, r)) == seq(GapsEnded(keep, r > 0), _ => SeqGap)
  {
    if keep != [] {
      var r' := if keep[0] then 0 else r + 1;
      GapResetsOnly(keep[1..], r');
      MessagesAppend(if keep[0] && r > 0 then [Reset(SeqGap)] else [], GapResets(keep[1..], r'));
    }
  }

  lemma {:induction false} GapsEndedSplit(keep: seq<bool>, n: nat, r: nat)
    requires n <= |keep|
    ensures GapsEnded(keep, r > 0) == GapsEnded(keep[..n], r > 0) + GapsEnded(keep[n..], LostRun(keep[..n], r) > 0)
    decreases n
  {
    if n > 0 {
      GapsEndedSplit(keep[1..], n - 1, if keep[0] then 0 else r + 1);
      assert keep[1..][..n - 1] == keep[..n][1..] && keep[1..][n - 1..] == keep[n..];
    } else {
      assert keep[0..] == keep;
    }
  }

  lemma OneMessage(m: seq<byte>)
    ensures Messages([Delivered(m)]) == [m] && Resets([Delivered(m)]) == []
    ensures Messages([]) == [] && Resets([]) == []
  {
  }

  lemma NoPackets(room: nat, keep: seq<bool>)
    requires room > 0 && |keep| == |Stream([], room, 0)|
    ensures keep == [] && GapsEnded(keep, true) == GapsEnded(keep, false) == 0
    ensures Messages([]) == [] && Resets([]) == []
  {
  }

  lemma IdealFirst(msgs: seq<seq<byte>>, room: nat, keep: seq<bool>, r: nat)
    requires room > 0 && |keep| == |Stream(msgs, room, 0)| && msgs != []
    ensures var n := PacketCount(|msgs[0]|, room);
            n <= |keep| && |keep[n..]| == |Stream(msgs[1..], room, 0)| &&
            Ideal(msgs, room, keep, r) ==
            GapResets(keep[..n], r) + (if AllKept(keep[..n]) then [Delivered(msgs[0])] else []) +
            Ideal(msgs[1..], room, keep[n..], LostRun(keep[..n], r)) &&
            Undamaged(msgs, room, keep) ==
            (if AllKept(keep[..n]) then [msgs[0]] else []) + Undamaged(msgs[1..], room, keep[n..])
  {
    hide Packets, PacketCount, AllKept, GapResets, LostRun;
    StreamLength(msgs, room, 0, 0);
    StreamLength(msgs[1..], room, PacketCount(|msgs[0]|, room), 0);
  }

  lemma {:induction false} IdealSplit(msgs: seq<seq<byte>>, room: nat, keep: seq<bool>, r: nat)
    requires room > 0 && |keep| == |Stream(msgs, room, 0)|
    ensures Messages(Ideal(msgs, room, keep, r)) == Undamaged(msgs, room, keep)
    ensures Resets(Ideal(msgs, room, keep, r)) == seq(GapsEnded(keep, r > 0), _ => SeqGap)
    decreases |msgs|
  {
    hide Packets, PacketCount, AllKept, GapResets, LostRun, Stream, Messages, Resets, GapsEnded;
    if msgs == [] {
      NoPackets(room, keep);
    } else {
      hide Ideal, Undamaged;
      IdealFirst(msgs, room, keep, r);
      var n := PacketCount(|msgs[0]|, room);
      var gaps := GapResets(keep[..n], r);
      var own := if AllKept(keep[..n]) then [Delivered(msgs[0])] else [];
      var rest := Ideal(msgs[1..], room, keep[n..], LostRun(keep[..n], r));
      GapResetsOnly(keep[..n], r);
      IdealSplit(msgs[1..], room, keep[n..], LostRun(keep[..n], r));
      GapsEndedSplit(keep, n, r);
      MessagesAppend(gaps, own);
      MessagesAppend(gaps + own, rest);
      OneMessage(msgs[0]);
    }
  }

  // ---- Only detectable losses are reported so ----

  function SeqGaps(events: seq<Event>): nat {
    if events == [] then 0 else (if events[0] == Reset(SeqGap) then 1 else 0) + SeqGaps(events[1..])
  }

  lemma {:induction false} SeqGapsAppend(a: seq<Event>, b: seq<Event>)
    ensures SeqGaps(a + b) == SeqGaps(a) + SeqGaps(b)
  {
    if a == [] {
      assert a + b == b;
    } else {
      assert (a + b)[1..] == a[1..] + b && (a + b)[0] == a[0];
      SeqGapsAppend(a[1..], b);
    }
  }

  lemma {:induction false} SeqGapsOf(events: seq<Event>, n: nat)
    requires Resets(events) == seq(n, _ => SeqGap)
    ensures SeqGaps(events) == n
    decreases |events|
  {
    if events != [] {
      EventFirst(events);
      var rest := Resets(events[1..]);
      if events[0].Reset? {
        assert rest == Resets(events)[1..] == seq(n - 1, _ => SeqGap);
        assert events[0].reason == Resets(events)[0];
        SeqGapsOf(events[1..], n - 1);
      } else {
        SeqGapsOf(events[1..], n);
      }
    }
  }

  /** A packet is reported as a gap exactly when its counter is not the expected one. */
  lemma StepGap(c: State, p: Packet)
    requires |p| >= 2
    ensures SeqGaps(Step(c, p).events) == if SeqOf(p[0]) != c.expected then 1 else 0
    ensures Step(c, p).state.expected == (SeqOf(p[0]) + 1) % SEQ_MOD
  {
    var o := Step(c, p);
    var gap: seq<Event> := if SeqOf(p[0]) != c.expected then [Reset(SeqGap)] else [];
    assert gap <= o.events;
    var rest := o.events[|gap|..];
    assert o.events == gap + rest;
    SeqGapsAppend(gap, rest);
    if |rest| > 0 { assert rest[0] != Reset(SeqGap); }
    if |rest| > 1 { assert rest[1] != Reset(SeqGap); }
    assert |rest| <= 2;
    if |rest| == 2 { assert rest == [rest[0]] + [rest[1]]; }
  }

  /** The gaps that the 6-bit counter shows. */
  function SeenGaps(keep: seq<bool>, r: nat): nat {
    if keep == [] then 0
    else (if keep[0] && r % SEQ_MOD != 0 then 1 else 0) + SeenGaps(keep[1..], if keep[0] then 0 else r + 1)
  }

  lemma {:induction false} SeenAtMostEnded(keep: seq<bool>, r: nat)
    ensures SeenGaps(keep, r) <= GapsEnded(keep, r > 0)
    ensures SeenGaps(keep, r) == GapsEnded(keep, r > 0) <==> Detectable(keep, r)
  {
    if keep != [] { SeenAtMostEnded(keep[1..], if keep[0] then 0 else r + 1); }
  }

  /** Packets whose counters run on from s. */
  ghost predicate Counted(ps: seq<Packet>, s: int) {
    forall k :: 0 <= k < |ps| ==> |ps[k]| >= 2 && SeqOf(ps[k][0]) == (s + k) % SEQ_MOD
  }

  lemma CountedTail(ps: seq<Packet>, s: int)
    requires Counted(ps, s) && ps != []
    ensures |ps[0]| >= 2 && SeqOf(ps[0][0]) == s % SEQ_MOD && Counted(ps[1..], s + 1)
  {
  }

  lemma {:induction false} StreamCounted(msgs: seq<seq<byte>>, room: nat, s: int)
    requires room > 0
    ensures Counted(Stream(msgs, room, s), s)
    decreases |msgs|
  {
    if msgs != [] {
      var n := PacketCount(|msgs[0]|, room);
      StreamCounted(msgs[1..], room, s + n);
      forall k | 0 <= k < n
        ensures var p := PacketAt(msgs[0], room, s, k); |p| >= 2 && SeqOf(p[0]) == (s + k) % SEQ_MOD
      {
        PacketShape(msgs[0], room, s, k);
      }
      hide PacketAt, PacketCount, SeqOf;
    }
  }

  lemma CounterDiffers(s: int, r: nat)
    ensures s % SEQ_MOD != (s - r) % SEQ_MOD <==> r % SEQ_MOD != 0
  {
  }

  /** Any receiver that expects the counter of r packets ago reports the gaps that the counter shows. */
  lemma {:induction false} RunGaps(c: State, ps: seq<Packet>, s: int, keep: seq<bool>, r: nat)
    requires |keep| == |ps| && Counted(ps, s) && c.expected == (s - r) % SEQ_MOD
    ensures SeqGaps(Run(c, Deliver(ps, keep)).events) == SeenGaps(keep, r)
    decreases |ps|
  {
    if ps != [] {
      CountedTail(ps, s);
      DeliverFirst(c, ps, keep);
      CounterDiffers(s, r);
      hide Counted, Step, Run, Deliver, SeqOf;
      if keep[0] {
        var o := Step(c, ps[0]);
        StepGap(c, ps[0]);
        NextCount(s);
        RunGaps(o.state, ps[1..], s + 1, keep[1..], 0);
        SeqGapsAppend(o.events, Run(o.state, Deliver(ps[1..], keep[1..])).events);
      } else {
        RunGaps(c, ps[1..], s + 1, keep[1..], r + 1);
        SeqGapsAppend([], Run(c, Deliver(ps[1..], keep[1..])).events);
      }
    }
  }

  /**
   Lossy-channel exactness. A receiver between messages reports just what the ideal one does - every
   undamaged message, once, in order, and one seq_gap per gap that a delivered packet ends - if and only
   if no run of losses that ends is a multiple of 64 long.
   */
  lemma ExactUnderLoss(c: State, msgs: seq<seq<byte>>, room: nat, seqNo: int, keep: seq<bool>, r: nat)
    requires room > 0 && (forall m :: m in msgs ==> Transmittable(m))
    requires |keep| == |Stream(msgs, room, 0)| && Between(c, seqNo, r)
    ensures |Stream(msgs, room, seqNo)| == |keep|
    ensures var o := Run(c, Deliver(Stream(msgs, room, seqNo), keep));
            (o.events == Ideal(msgs, room, keep, r) <==> Detectable(keep, r)) &&
            (Resets(o.events) == seq(GapsEnded(keep, r > 0), _ => SeqGap) <==> Detectable(keep, r)) &&
            (Detectable(keep, r) ==> Between(o.state, seqNo + |keep|, LostRun(keep, r)))
  {
    StreamLength(msgs, room, seqNo, 0);
    StreamCounted(msgs, room, seqNo);
    RunGaps(c, Stream(msgs, room, seqNo), seqNo, keep, r);
    SeenAtMostEnded(keep, r);
    IdealSplit(msgs, room, keep, r);
    hide *;
    var events := Run(c, Deliver(Stream(msgs, room, seqNo), keep)).events;
    if Detectable(keep, r) { ExactIfDetectable(c, msgs, room, seqNo, keep, r); }
    if Resets(events) == seq(GapsEnded(keep, r > 0), _ => SeqGap) { SeqGapsOf(events, GapsEnded(keep, r > 0)); }
  }

  /** A run of losses: packets i..j - 1 lost, and packet j delivered. */
  predicate LossRun(keep: seq<bool>, i: nat, j: nat) {
    i < j < |keep| && keep[j] && (i > 0 ==> keep[i - 1]) && forall k :: i <= k < j ==> !keep[k]
  }

  /** No run of losses that a delivered packet ends is a multiple of 64 long. */
  ghost predicate NoHiddenRun(keep: seq<bool>) {
    forall i: nat, j: nat :: LossRun(keep, i, j) ==> (j - i) % SEQ_MOD != 0
  }

  lemma {:induction false} DetectableIfRunsAre(keep: seq<bool>, i: nat, r: nat)
    requires r <= i <= |keep| && (forall k :: i - r <= k < i ==> !keep[k]) && (i - r > 0 ==> keep[i - r - 1])
    requires NoHiddenRun(keep)
    ensures Detectable(keep[i..], r)
    decreases |keep| - i
  {
    if i < |keep| {
      assert keep[i..][1..] == keep[i + 1..];
      if keep[i] && r > 0 { assert LossRun(keep, i - r, i); }
      DetectableIfRunsAre(keep, i + 1, if keep[i] then 0 else r + 1);
    }
  }

  lemma {:induction false} RunNoticed(keep: seq<bool>, i: nat, j: nat, k: nat)
    requires LossRun(keep, i, j) && i <= k <= j && Detectable(keep[k..], k - i)
    ensures (j - i) % SEQ_MOD != 0
    decreases j - k
  {
    assert keep[k..][0] == keep[k] && keep[k..][1..] == keep[k + 1..];
    if k < j { RunNoticed(keep, i, j, k + 1); }
  }

  lemma {:induction false} DetectableFrom(keep: seq<bool>, i: nat)
    requires i <= |keep| && Detectable(keep, 0) && (i > 0 ==> keep[i - 1])
    ensures Detectable(keep[i..], 0)
  {
    assert keep[0..] == keep;
    if i > 0 {
      DetectableSplit(keep, i, 0);
      LastKept(keep[..i], 0);
    }
  }

  lemma {:induction false} LastKept(keep: seq<bool>, r: nat)
    requires keep != [] && keep[|keep| - 1]
    ensures LostRun(keep, r) == 0
  {
    if |keep| > 1 { LastKept(keep[1..], if keep[0] then 0 else r + 1); }
  }

  /** The two ways to say it, for a stream with no losses before it. */
  lemma DetectableIsNoHiddenRun(keep: seq<bool>)
    ensures Detectable(keep, 0) <==> NoHiddenRun(keep)
  {
    assert keep[0..] == keep;
    if NoHiddenRun(keep) { DetectableIfRunsAre(keep, 0, 0); }
    if Detectable(keep, 0) {
      forall i: nat, j: nat | LossRun(keep, i, j) ensures (j - i) % SEQ_MOD != 0 {
        DetectableFrom(keep, i);
        RunNoticed(keep, i, j, i);
      }
    }
  }

  /**
   The link's promise, on a fresh link: the messages that come out are exactly the undamaged ones, and the
   only resets are one seq_gap per gap that ends, if and only if no run of losses that ends is a multiple of
   64 packets long.
   */
  lemma LinkIsExact(msgs: seq<seq<byte>>, packetSize: nat, keep: seq<bool>)
    requires packetSize >= 2 && (forall m :: m in msgs ==> Transmittable(m))
    requires |keep| == |Stream(msgs, packetSize - 1, 0)|
    ensures var events := Run(INITIAL, Deliver(Stream(msgs, packetSize - 1, 0), keep)).events;
            Messages(events) == Undamaged(msgs, packetSize - 1, keep) &&
            Resets(events) == seq(GapsEnded(keep, false), _ => SeqGap) <==>
            NoHiddenRun(keep)
  {
    DetectableIsNoHiddenRun(keep);
    assert Between(INITIAL, 0, 0);
    hide *;
    ExactUnderLoss(INITIAL, msgs, packetSize - 1, 0, keep, 0);
    IdealSplit(msgs, packetSize - 1, keep, 0);
  }

  // ---- Where the 6-bit counter stops helping ----

  lemma {:induction false} RunFront(c: State, msg: seq<byte>, room: nat, seqNo: int, i: nat)
    requires room > 0 && 0 < i < PacketCount(|msg|, room) && Transmittable(msg) && Between(c, seqNo, 0)
    ensures Run(c, Packets(msg, room, seqNo)[..i]) ==
            Outcome(State((seqNo + i) % SEQ_MOD, Some(Slice(msg, room, 0, i)), false), [])
    decreases i
  {
    hide Slice, PacketCount, PacketAt, SeqOf, IsStart, IsEnd, Packets, Step, Run;
    var ps := Packets(msg, room, seqNo);
    var p := PacketAt(msg, room, seqNo, i - 1);
    PacketsTake(msg, room, seqNo, i);
    SliceEmpty(msg, room);
    SliceGrow(msg, room, 0, i - 1, i);
    PacketShape(msg, room, seqNo, i - 1);
    RunAppend(c, ps[..i - 1], [p]);
    var mid := Run(c, ps[..i - 1]);
    RunOne(mid.state, p);
    NextCount(seqNo + (i - 1));
    if i == 1 {
      RunNone(c);
      StepStart(c, p);
    } else {
      RunFront(c, msg, room, seqNo, i - 1);
      StepInSync(mid.state, p);
    }
  }

  lemma RunOne(c: State, p: Packet)
    ensures Run(c, [p]) == Step(c, p)
  {
    hide Step;
    var none: seq<Packet> := [];
    assert [p][1..] == none;
    assert Run(Step(c, p).state, none) == Outcome(Step(c, p).state, []);
  }

  lemma PacketsTake(msg: seq<byte>, room: nat, seqNo: int, i: nat)
    requires room > 0 && 0 < i < PacketCount(|msg|, room)
    ensures var ps := Packets(msg, room, seqNo);
            ps[..i] == ps[..i - 1] + [PacketAt(msg, room, seqNo, i - 1)] && ps[..0] == []
  {
    hide PacketAt;
  }

  /**
   One gap inside a message, and exactly when it is noticed: a multiple of 64 packets goes unseen, and the
   receiver then delivers a message nobody sent, made of the two ends.
   */
  lemma GapInsideMessage(c: State, msg: seq<byte>, room: nat, seqNo: int, i: nat, j: nat)
    requires room > 0 && 0 < i < j < PacketCount(|msg|, room) && Transmittable(msg) && Between(c, seqNo, 0)
    ensures var n := PacketCount(|msg|, room);
            var ps := Packets(msg, room, seqNo);
            var spliced := Slice(msg, room, 0, i) + Slice(msg, room, j, n);
            |spliced| < |msg| &&
            Run(c, ps[..i] + ps[j..]).events ==
            if (j - i) % SEQ_MOD == 0 then [Delivered(spliced)] else [Reset(SeqGap)]
  {
    hide PacketAt, PacketCount, Step, Slice, PacketsFrom, SeqOf, IsStart, IsEnd, Run;
    var n := PacketCount(|msg|, room);
    var ps := Packets(msg, room, seqNo);
    var front := Slice(msg, room, 0, i);
    SliceGrow(msg, room, 0, i, n);
    SliceGrow(msg, room, i, j, n);
    SliceAll(msg, room);
    SliceNonEmpty(msg, room, i, j);
    RunFront(c, msg, room, seqNo, i);
    RunAppend(c, ps[..i], ps[j..]);
    PacketsDrop(msg, room, seqNo, j);
    var mid := Run(c, ps[..i]).state;
    if (j - i) % SEQ_MOD == 0 {
      assert (seqNo + i) % SEQ_MOD == (seqNo + j) % SEQ_MOD;
      RunOpen(mid, msg, room, seqNo, j, front);
    } else {
      GapSeen(seqNo + j, j - i);
      RunAcrossGap(mid, msg, room, seqNo, j);
    }
  }

  /**
   One gap from inside a message to inside a later one, whatever lies between: it is noticed unless the counters
   happen to agree, and then a message is delivered that nobody sent, the front of one and the end of the other.
   */
  lemma GapAcrossMessages(c: State, a: seq<byte>, b: seq<byte>, room: nat, first: int, second: int, i: nat, j: nat)
    requires room > 0 && 0 < i < PacketCount(|a|, room) && 0 < j < PacketCount(|b|, room)
    requires Transmittable(a) && Transmittable(b) && Between(c, first, 0)
    ensures var spliced := Slice(a, room, 0, i) + Slice(b, room, j, PacketCount(|b|, room));
            Run(c, Packets(a, room, first)[..i] + Packets(b, room, second)[j..]).events ==
            if (second + j - (first + i)) % SEQ_MOD != 0 then [Reset(SeqGap)]
            else if |spliced| <= Framing.MAX_MESSAGE then [Delivered(spliced)]
            else [Reset(ResetReason.Oversize)]
  {
    hide PacketAt, PacketCount, Step, Slice, PacketsFrom, SeqOf, IsStart, IsEnd, Run, Packets, Transmittable;
    var front := Slice(a, room, 0, i);
    SliceGrow(a, room, 0, 0, i);
    TransmittableFits(a);
    RunFront(c, a, room, first, i);
    RunAppend(c, Packets(a, room, first)[..i], Packets(b, room, second)[j..]);
    PacketsDrop(b, room, second, j);
    var mid := Run(c, Packets(a, room, first)[..i]).state;
    SameCounters(first + i, second + j);
    if (second + j - (first + i)) % SEQ_MOD == 0 {
      RunOpen(mid, b, room, second, j, front);
    } else {
      RunAcrossGap(mid, b, room, second, j);
    }
  }

  lemma SameCounters(a: int, b: int)
    ensures (b - a) % SEQ_MOD == 0 <==> a % SEQ_MOD == b % SEQ_MOD
  {
  }

  lemma TransmittableFits(msg: seq<byte>)
    requires Transmittable(msg)
    ensures |msg| <= Framing.MAX_MESSAGE
  {
  }

  lemma PacketsDrop(msg: seq<byte>, room: nat, seqNo: int, j: nat)
    requires room > 0 && j <= PacketCount(|msg|, room)
    ensures Packets(msg, room, seqNo)[j..] == PacketsFrom(msg, room, seqNo, j)
  {
  }

  lemma RunAcrossGap(c: State, msg: seq<byte>, room: nat, seqNo: int, j: nat)
    requires room > 0 && 0 < j < PacketCount(|msg|, room) && c.expected != (seqNo + j) % SEQ_MOD
    ensures Run(c, PacketsFrom(msg, room, seqNo, j)).events == [Reset(SeqGap)]
  {
    hide *;
    var p := PacketAt(msg, room, seqNo, j);
    PacketShape(msg, room, seqNo, j);
    PacketsTail(msg, room, seqNo, j);
    RunFirst(c, PacketsFrom(msg, room, seqNo, j));
    StepSkip(c, p);
    NextCount(seqNo + j);
    RunDiscarding(Step(c, p).state, msg, room, seqNo, j + 1);
  }

  lemma SliceNonEmpty(msg: seq<byte>, room: nat, i: nat, j: nat)
    requires room > 0 && i < j && i < PacketCount(|msg|, room)
    ensures |Slice(msg, room, i, j)| > 0
  {
    PacketCountBounds(|msg|, room, i);
    MulMono(i + 1, j, room);
    assert (i + 1) * room == i * room + room;
  }
}
