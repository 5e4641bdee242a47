/** The two loops that cut a receive buffer into packets (tcp_server.cpp). */
module Framing {
  import opened Bytes

  /** What is in memory from the start of the buffer on; past the bytes received it may be anything. */
  type Memory = nat -> byte

  /** SoupBinTCP, section 2, puts a big-endian length first; a BOE header has it little-endian after two marker
      bytes. */
  datatype Protocol = SoupBinTcp | BatsBoe

  datatype Frame = Frame(pos: nat, len: nat)

  function PacketLength(mem: Memory, pos: nat, proto: Protocol): (len: nat)
    ensures len >= 2
  {
    match proto
    case SoupBinTcp => mem(pos) as int * 256 + mem(pos + 1) as int + 2
    case BatsBoe => mem(pos + 2) as int + mem(pos + 3) as int * 256 + 2
  }

  /** The packets handed to the session, from position `pos` on. */
  function Frames(mem: Memory, pos: nat, received: nat, proto: Protocol): seq<Frame>
    decreases received - pos
  {
    if pos >= received then []
    else
      var len := PacketLength(mem, pos, proto);
      [Frame(pos, len)] + Frames(mem, pos + len, received, proto)
  }

  /** The read loop ends for any memory contents: a step advances by two bytes at least. */
  method Read(mem: Memory, received: nat, proto: Protocol) returns (handed: seq<Frame>)
    ensures handed == Frames(mem, 0, received, proto)
  {
    hide PacketLength;
    handed := [];
    var readPos := 0;
    while readPos < received
      invariant handed + Frames(mem, readPos, received, proto) == Frames(mem, 0, received, proto)
      decreases received - readPos
    {
      ghost var before := handed;
      var packetLen := PacketLength(mem, readPos, proto);
      if packetLen != 0 {
        handed := handed + [Frame(readPos, packetLen)];
      }
      readPos := readPos + packetLen;
      ghost var f, later := Frame(readPos - packetLen, packetLen), Frames(mem, readPos, received, proto);
      assert before + ([f] + later) == before + [f] + later;
    }
  }

  /** A packet whose length field says how many bytes follow its first two. */
  predicate Whole(packet: Bytes, proto: Protocol) {
    match proto
    case SoupBinTcp => |packet| >= 2 && packet[0] as int * 256 + packet[1] as int == |packet| - 2
    case BatsBoe => |packet| >= 4 && packet[2] as int + packet[3] as int * 256 == |packet| - 2
  }

  function Concatenated(packets: seq<Bytes>): Bytes {
    if packets == [] then [] else packets[0] + Concatenated(packets[1..])
  }

  ghost predicate Holds(mem: Memory, pos: nat, bytes: Bytes) {
    forall i :: 0 <= i < |bytes| ==> mem(pos + i) == bytes[i]
  }

  function Contents(mem: Memory, f: Frame): Bytes {
    seq(f.len, i requires 0 <= i => mem(f.pos + i))
  }

  function AllContents(mem: Memory, fs: seq<Frame>): seq<Bytes> {
    if fs == [] then [] else [Contents(mem, fs[0])] + AllContents(mem, fs[1..])
  }

  lemma FirstFrame(p: Bytes, rest: Bytes, mem: Memory, pos: nat, proto: Protocol)
    requires Whole(p, proto) && Holds(mem, pos, p + rest)
    ensures PacketLength(mem, pos, proto) == |p| && Contents(mem, Frame(pos, |p|)) == p && Holds(mem, pos + |p|, rest)
  {
    forall i | 0 <= i < |p| ensures mem(pos + i) == p[i] {
      assert (p + rest)[i] == p[i];
    }
    assert mem(pos + 0) == p[0] && mem(pos + 1) == p[1];
    if proto == BatsBoe {
      assert mem(pos + 2) == p[2] && mem(pos + 3) == p[3];
    }
    forall i | 0 <= i < |rest| ensures mem(pos + |p| + i) == rest[i] {
      assert mem(pos + (|p| + i)) == (p + rest)[|p| + i];
    }
  }

  lemma {:induction false} FramesOfConcatenation(packets: seq<Bytes>, mem: Memory, pos: nat, proto: Protocol)
    requires forall i :: 0 <= i < |packets| ==> Whole(packets[i], proto)
    requires Holds(mem, pos, Concatenated(packets))
    ensures AllContents(mem, Frames(mem, pos, pos + |Concatenated(packets)|, proto)) == packets
  {
    hide Whole, Holds, PacketLength, Contents;
    if packets != [] {
      var p, rest := packets[0], packets[1..];
      FirstFrame(p, Concatenated(rest), mem, pos, proto);
      assert |p| >= 2 by {
        WholeIsLong(p, proto);
      }
      FramesOfConcatenation(rest, mem, pos + |p|, proto);
      var later := Frames(mem, pos + |p|, pos + |p| + |Concatenated(rest)|, proto);
      assert Frames(mem, pos, pos + |Concatenated(packets)|, proto) == [Frame(pos, |p|)] + later;
      assert packets == [p] + rest;
    }
  }

  lemma WholeIsLong(p: Bytes, proto: Protocol)
    requires Whole(p, proto)
    ensures |p| >= 2
  {
  }

  /** The read loop undoes concatenation: it hands over exactly the packets that were sent, in their order. */
  lemma ReadUndoesConcatenation(packets: seq<Bytes>, mem: Memory, proto: Protocol)
    requires forall i :: 0 <= i < |packets| ==> Whole(packets[i], proto)
    requires Holds(mem, 0, Concatenated(packets))
    ensures AllContents(mem, Frames(mem, 0, |Concatenated(packets)|, proto)) == packets
  {
    FramesOfConcatenation(packets, mem, 0, proto);
  }

  /** Whatever is received, the packets are adjacent, start at the beginning, and only the last may reach past the
      bytes received; there are at most half as many as bytes. */
  lemma {:induction false} FramesTile(mem: Memory, pos: nat, received: nat, proto: Protocol)
    requires pos < received
    ensures var fs := Frames(mem, pos, received, proto);
            && fs != [] && fs[0].pos == pos
            && (forall i :: 0 <= i < |fs| - 1 ==> fs[i].pos + fs[i].len == fs[i + 1].pos)
            && (forall i :: 0 <= i < |fs| ==> fs[i].pos < received && fs[i].len >= 2)
            && fs[|fs| - 1].pos + fs[|fs| - 1].len >= received
            && 2 * |fs| <= received - pos + 1
    decreases received - pos
  {
    var len := PacketLength(mem, pos, proto);
    var fs := Frames(mem, pos, received, proto);
    if pos + len < received {
      FramesTile(mem, pos + len, received, proto);
      var rest := Frames(mem, pos + len, received, proto);
      assert fs == [Frame(pos, len)] + rest;
    } else {
      assert Frames(mem, pos + len, received, proto) == [];
      assert fs == [Frame(pos, len)] + [];
    }
  }
}
