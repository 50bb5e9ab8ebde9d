/** The link layer of PagerLink v1: cutting a message into packets, and the recovering receiver. */
module Framing {
  import opened Wrappers
  import opened Integers
  import opened Bytes
  import MessageCodec

  const MAX_MESSAGE := MessageCodec.MAX_MESSAGE
  const START := 0x80
  const END := 0x40
  const SEQ_MOD := 64

  // The flag bits and the 6-bit counter share no bit, so or-ing them is adding them.
  function Flags(seqNo: int, start: bool, end: bool): byte {
    seqNo % SEQ_MOD + (if start then START else 0) + (if end then END else 0)
  }

  function SeqOf(flags: byte): int { flags % SEQ_MOD }

  predicate IsStart(flags: byte) { flags / START % 2 == 1 }

  predicate IsEnd(flags: byte) { flags / END % 2 == 1 }

  lemma FlagsFields(seqNo: int, start: bool, end: bool)
    ensures var f := Flags(seqNo, start, end);
            SeqOf(f) == seqNo % SEQ_MOD && IsStart(f) == start && IsEnd(f) == end
  {
  }

  // ---- Segmentation ----

  type Packet = seq<byte>

  /** ceil(len / room): how many packets a message takes. */
  function PacketCount(len: nat, room: nat): nat
    requires room > 0
  {
    (len + room - 1) / room
  }

  lemma {:induction false} PacketCountBounds(len: nat, room: nat, k: int)
    requires room > 0
    ensures k < PacketCount(len, room) <==> k * room < len
    ensures k < 0 ==> k * room < 0
  {
    var n := PacketCount(len, room);
    var q := len + room - 1;
    assert q == n * room + q % room;
    if k < n {
      MulMono(k, n - 1, room);
    } else {
      MulMono(n, k, room);
    }
    if k < 0 { MulMono(k, -1, room); }
  }

  /** The bytes carried by packets i..j of a message. */
  function Slice(msg: seq<byte>, room: nat, i: nat, j: nat): seq<byte>
    requires i <= j
  {
    MulMono(i, j, room);
    msg[Min(i * room, |msg|)..Min(j * room, |msg|)]
  }

  function PacketAt(msg: seq<byte>, room: nat, seqNo: int, k: nat): Packet
    requires room > 0
  {
    [Flags(seqNo + k, k == 0, k + 1 == PacketCount(|msg|, room))] + Slice(msg, room, k, k + 1)
  }

  /** Packets i.. of the message, in order. */
  function PacketsFrom(msg: seq<byte>, room: nat, seqNo: int, i: nat): (ps: seq<Packet>)
    requires room > 0 && i <= PacketCount(|msg|, room)
    ensures |ps| == PacketCount(|msg|, room) - i
  {
    seq(PacketCount(|msg|, room) - i,
      k requires 0 <= k < PacketCount(|msg|, room) - i => PacketAt(msg, room, seqNo, i + k))
  }

  function Packets(msg: seq<byte>, room: nat, seqNo: int): (ps: seq<Packet>)
    requires room > 0
    ensures |ps| == PacketCount(|msg|, room)
  {
    PacketsFrom(msg, room, seqNo, 0)
  }

  /** The packet the sender's loop cuts at offset `off`. */
  lemma {:induction false} CutAt(msg: seq<byte>, room: nat, seqNo: int, k: nat, off: nat)
    requires room > 0 && off == k * room < |msg|
    ensures k < PacketCount(|msg|, room) && off + room == (k + 1) * room
    ensures PacketAt(msg, room, seqNo, k) ==
            [Flags(seqNo + k, off == 0, off + room >= |msg|)] + msg[off..Min(off + room, |msg|)]
  {
    PacketCountBounds(|msg|, room, k);
    PacketCountBounds(|msg|, room, k + 1);
    assert (k + 1) * room == k * room + room;
    if k > 0 { MulMono(1, k, room); }
  }

  lemma NextSeq(a: int, b: int)
    requires a % SEQ_MOD == b % SEQ_MOD
    ensures (a + 1) % SEQ_MOD == (b + 1) % SEQ_MOD
    ensures forall start, end :: Flags(a, start, end) == Flags(b, start, end)
  {
  }

  /** The sender's loop: cut every `room` bytes, count modulo 64. */
  method Segment(msg: seq<byte>, packetSize: nat, seqNo: int) returns (out: seq<Packet>, next: int)
    requires packetSize >= 2
    ensures out == Packets(msg, packetSize - 1, seqNo)
    ensures next == if msg == [] then seqNo else (seqNo + |out|) % SEQ_MOD
    ensures forall k :: 0 <= k < |out| ==> 2 <= |out[k]| <= packetSize
  {
    hide PacketAt, PacketCount;
    var room := packetSize - 1;
    out, next := [], seqNo;
    var off := 0;
    PacketCountBounds(|msg|, room, 0);
    while off < |msg|
      invariant off == |out| * room
      invariant |out| <= PacketCount(|msg|, room)
      invariant next % SEQ_MOD == (seqNo + |out|) % SEQ_MOD
      invariant out != [] ==> next == next % SEQ_MOD && msg != []
      invariant out == [] ==> next == seqNo
      invariant forall k :: 0 <= k < |out| ==> out[k] == PacketAt(msg, room, seqNo, k) && 2 <= |out[k]| <= packetSize
      decreases |msg| - off
    {
      CutAt(msg, room, seqNo, |out|, off);
      NextSeq(next, seqNo + |out|);
      var flags := next % SEQ_MOD;
      if off == 0 { flags := flags + START; }
      if off + room >= |msg| { flags := flags + END; }
      out := out + [[flags as byte] + msg[off..Min(off + room, |msg|)]];
      next := (next + 1) % SEQ_MOD;
      off := off + room;
    }
    PacketCountBounds(|msg|, room, |out|);
  }

  // ---- Reassembly ----

  datatype ResetReason = Empty | SeqGap | UnexpectedStart | UnexpectedContinue | Oversize
  datatype Event = Reset(reason: ResetReason) | Delivered(message: seq<byte>)

  /** What the receiver remembers between packets. */
  datatype State = State(expected: int, partial: Option<seq<byte>>, discarding: bool)

  datatype Outcome = Outcome(state: State, events: seq<Event>)

  const INITIAL := State(0, None, false)

  /** One packet, as the specification's steps 1-7 order it (section 2 of PagerLink v1). */
  function Step(c: State, pkt: Packet): Outcome {
    if |pkt| < 2 then Outcome(c, [Reset(Empty)])
    else
      var flags, data := pkt[0], pkt[1..];
      var gap := SeqOf(flags) != c.expected;
      var expected := (SeqOf(flags) + 1) % SEQ_MOD;
      var ev := if gap then [Reset(SeqGap)] else [];
      var open := if gap then None else c.partial;
      if !IsStart(flags) && open.None? then
        Outcome(State(expected, None, gap || c.discarding),
                if gap || c.discarding then ev else ev + [Reset(UnexpectedContinue)])
      else
        var ev' := if IsStart(flags) && open.Some? then ev + [Reset(UnexpectedStart)] else ev;
        var sofar := if IsStart(flags) then [] else open.value;
        var discarding := !IsStart(flags) && (gap || c.discarding);
        if |sofar| + |data| > MAX_MESSAGE then Outcome(State(expected, None, true), ev' + [Reset(Oversize)])
        else if IsEnd(flags) then Outcome(State(expected, None, discarding), ev' + [Delivered(sofar + data)])
        else Outcome(State(expected, Some(sofar + data), discarding), ev')
  }

  function Run(c: State, pkts: seq<Packet>): Outcome
    decreases |pkts|
  {
    if pkts == [] then Outcome(c, [])
    else
      var o := Step(c, pkts[0]);
      var rest := Run(o.state, pkts[1..]);
      Outcome(rest.state, o.events + rest.events)
  }

  lemma RunFirst(c: State, pkts: seq<Packet>)
    requires pkts != []
    ensures var o := Step(c, pkts[0]);
            Run(c, pkts) == Outcome(Run(o.state, pkts[1..]).state, o.events + Run(o.state, pkts[1..]).events)
  {
  }

  class Reassembler {
    var expected: int
    var partial: Option<seq<byte>>
    var discarding: bool
    var events: seq<Event>

    ghost function Abstract(): State
      reads this
    {
      State(expected, partial, discarding)
    }

    constructor ()
      ensures Abstract() == INITIAL && events == []
    {
      expected, partial, discarding, events := 0, None, false, [];
    }

    method Reset(reason: ResetReason)
      modifies this`events
      ensures events == old(events) + [Event.Reset(reason)]
    {
      events := events + [Event.Reset(reason)];
    }

    method Feed(pkt: Packet)
      modifies this
      ensures Abstract() == Step(old(Abstract()), pkt).state
      ensures events == old(events) + Step(old(Abstract()), pkt).events
    {
      if |pkt| < 2 {
        Reset(Empty);
        return;
      }
      var flags, data := pkt[0], pkt[1..];
      var seqNo := SeqOf(flags);
      if seqNo != expected {
        Reset(SeqGap);
        partial := None;
        discarding := true;
      }
      expected := (seqNo + 1) % SEQ_MOD;
      if IsStart(flags) {
        discarding := false;
        if partial.Some? { Reset(UnexpectedStart); }
        partial := Some([]);
      } else if partial.None? {
        if !discarding { Reset(UnexpectedContinue); }
        return;
      }
      if |partial.value| + |data| > MAX_MESSAGE {
        Reset(Oversize);
        partial := None;
        discarding := true;
        return;
      }
      partial := Some(partial.value + data);
      if IsEnd(flags) {
        events := events + [Delivered(partial.value)];
        partial := None;
      }
    }

    /** A receiver's whole life: every packet that arrives, in order. */
    method FeedAll(pkts: seq<Packet>)
      modifies this
      ensures Abstract() == Run(old(Abstract()), pkts).state
      ensures events == old(events) + Run(old(Abstract()), pkts).events
    {
      hide Step;
      ghost var all := Run(Abstract(), pkts);
      ghost var before := events;
      for i := 0 to |pkts|
        invariant all.state == Run(Abstract(), pkts[i..]).state
        invariant before + all.events == events + Run(Abstract(), pkts[i..]).events
      {
        RunFirst(Abstract(), pkts[i..]);
        assert pkts[i..][1..] == pkts[i + 1..];
        Feed(pkts[i]);
      }
    }
  }
}
