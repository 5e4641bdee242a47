/** The bytes of an EnterOrder, and those of the OrderAccepted that answers it (ouch_messages.h). The messages are
    structs laid over the buffer; their methods from_network and to_network turn the byte order of the numbers in
    place. The machine is little-endian, as the reading of BOE lengths supposes too. */
module Codec {
  import opened Bytes
  import opened OuchOrders
  import Framing

  const ENTER_ORDER_SIZE: nat := 52
  const ORDER_ACCEPTED_SIZE: nat := 69

  // ---------------------------------------------------------------- byte order

  function Reversed(b: Bytes): Bytes {
    seq(|b|, i requires 0 <= i < |b| => b[|b| - 1 - i])
  }

  /** `b` with the `n` bytes from `off` on turned round. */
  function Turned(b: Bytes, off: nat, n: nat): (r: Bytes)
    requires off + n <= |b|
    ensures |r| == |b|
  {
    b[..off] + Reversed(b[off..off + n]) + b[off + n..]
  }

  /** Where the byte at `k` comes from, once those outside lo..hi are exchanged. */
  function Mirrored(k: int, lo: int, hi: int, off: nat, n: nat): int {
    if off <= k < lo || hi < k < off + n then 2 * off + n - 1 - k else k
  }

  lemma TurnedAt(b: Bytes, off: nat, n: nat, k: nat)
    requires off + n <= |b| && k < |b|
    ensures Turned(b, off, n)[k] == if off <= k < off + n then b[2 * off + n - 1 - k] else b[k]
  {
  }

  /** big_to_native and native_to_big: the field is written back with its bytes turned round. */
  method TurnInPlace(a: array<byte>, off: nat, n: nat)
    requires off + n <= a.Length
    modifies a
    ensures a[..] == Turned(old(a[..]), off, n)
  {
    hide Turned;
    var lo, hi := off, off + n - 1;
    ghost var was := a[..];
    while lo < hi
      invariant off <= lo <= hi + 1 <= off + n && lo + hi == 2 * off + n - 1
      invariant forall k :: 0 <= k < a.Length ==> a[k] == was[Mirrored(k, lo, hi, off, n)]
    {
      a[lo], a[hi] := a[hi], a[lo];
      lo, hi := lo + 1, hi - 1;
    }
    forall k | 0 <= k < a.Length ensures a[k] == Turned(was, off, n)[k] {
      TurnedAt(was, off, n, k);
      assert a[k] == was[Mirrored(k, lo, hi, off, n)];
    }
    assert a[..] == Turned(was, off, n);
  }

  /** A number as the machine holds it. */
  function Native(b: Bytes): nat {
    if b == [] then 0 else b[0] as int + 256 * Native(b[1..])
  }

  function ToNative(x: nat, n: nat): (b: Bytes)
    ensures |b| == n
  {
    if n == 0 then [] else [(x % 256) as byte] + ToNative(x / 256, n - 1)
  }

  /** A number as the OUCH specification sends it, most significant byte first. */
  function BigEndian(b: Bytes): nat {
    if b == [] then 0 else BigEndian(b[..|b| - 1]) * 256 + b[|b| - 1] as int
  }

  function Values(n: nat): nat {
    if n == 0 then 1 else 256 * Values(n - 1)
  }

  lemma {:induction false} TurningIsByteOrder(b: Bytes)
    ensures Native(Reversed(b)) == BigEndian(b)
  {
    if b != [] {
      assert Reversed(b)[1..] == Reversed(b[..|b| - 1]);
      TurningIsByteOrder(b[..|b| - 1]);
    }
  }

  lemma {:induction false} NativeWritesBack(b: Bytes)
    ensures ToNative(Native(b), |b|) == b && Native(b) < Values(|b|)
  {
    if b != [] {
      NativeWritesBack(b[1..]);
      assert Native(b) % 256 == b[0] as int && Native(b) / 256 == Native(b[1..]);
    }
  }

  lemma {:induction false} NativeReadsBack(x: nat, n: nat)
    requires x < Values(n)
    ensures Native(ToNative(x, n)) == x
  {
    if n > 0 {
      NativeReadsBack(x / 256, n - 1);
      assert ToNative(x, n)[1..] == ToNative(x / 256, n - 1);
    }
  }

  function Word(b: Bytes): uint32
    requires |b| == 4
  {
    NativeWritesBack(b);
    assert Values(4) == TWO_TO_32;
    Native(b)
  }

  lemma WordWritesBack(b: Bytes)
    requires |b| == 4
    ensures ToNative(Word(b), 4) == b && ToNative(U32(I32(Word(b))), 4) == b
  {
    NativeWritesBack(b);
    assert U32(I32(Word(b))) == Word(b);
  }

  // ---------------------------------------------------------------- numbers inside a message

  datatype Field = Field(off: nat, len: nat)

  predicate Apart(f: Field, i: nat, j: nat) {
    j <= f.off || f.off + f.len <= i
  }

  /** The fields lie in a message of `size` bytes and do not overlap. */
  predicate Layout(fields: seq<Field>, size: nat) {
    && (forall i :: 0 <= i < |fields| ==> fields[i].off + fields[i].len <= size)
    && (forall i, j :: 0 <= i < j < |fields| ==> Apart(fields[i], fields[j].off, fields[j].off + fields[j].len))
  }

  /** The message after the byte order of its first `n` numbers is turned. */
  function TurnedUpTo(b: Bytes, fields: seq<Field>, n: nat): (r: Bytes)
    requires Layout(fields, |b|) && n <= |fields|
    ensures |r| == |b|
  {
    if n == 0 then b else Turned(TurnedUpTo(b, fields, n - 1), fields[n - 1].off, fields[n - 1].len)
  }

  function TurnedAll(b: Bytes, fields: seq<Field>): (r: Bytes)
    requires Layout(fields, |b|)
    ensures |r| == |b|
  {
    TurnedUpTo(b, fields, |fields|)
  }

  lemma TurnedSlices(b: Bytes, f: Field, i: nat, j: nat)
    requires f.off + f.len <= |b| && i <= j <= |b|
    ensures Apart(f, i, j) ==> Turned(b, f.off, f.len)[i..j] == b[i..j]
    ensures Turned(b, f.off, f.len)[f.off..f.off + f.len] == Reversed(b[f.off..f.off + f.len])
  {
    var t := Turned(b, f.off, f.len);
    if Apart(f, i, j) {
      forall k | i <= k < j ensures t[k] == b[k] {
        assert k < f.off || f.off + f.len <= k;
      }
    }
  }

  /** Bytes outside the numbers stay as they are. */
  lemma {:induction false} OthersStay(b: Bytes, fields: seq<Field>, n: nat, i: nat, j: nat)
    requires Layout(fields, |b|) && n <= |fields| && i <= j <= |b|
    requires forall k :: 0 <= k < n ==> Apart(fields[k], i, j)
    ensures TurnedUpTo(b, fields, n)[i..j] == b[i..j]
  {
    hide Turned;
    if n > 0 {
      OthersStay(b, fields, n - 1, i, j);
      TurnedSlices(TurnedUpTo(b, fields, n - 1), fields[n - 1], i, j);
    }
  }

  lemma {:induction false} EachIsTurned(b: Bytes, fields: seq<Field>, n: nat, k: nat)
    requires Layout(fields, |b|) && k < n <= |fields|
    ensures var f := fields[k];
            TurnedUpTo(b, fields, n)[f.off..f.off + f.len] == Reversed(b[f.off..f.off + f.len])
  {
    hide Turned, Reversed;
    var f := fields[k];
    TurnedSlices(TurnedUpTo(b, fields, n - 1), fields[n - 1], f.off, f.off + f.len);
    if k < n - 1 {
      EachIsTurned(b, fields, n - 1, k);
    } else {
      OthersStay(b, fields, n - 1, f.off, f.off + f.len);
    }
  }

  // ---------------------------------------------------------------- the two structs

  /** qty, price, time_in_force and min_qty of an EnterOrder. */
  const ENTER_NUMBERS: seq<Field> := [Field(19, 4), Field(31, 4), Field(35, 4), Field(46, 4)]

  function EnterFromNetwork(b: Bytes): (r: Bytes)
    requires |b| == ENTER_ORDER_SIZE
    ensures |r| == |b|
  {
    TurnedAll(b, ENTER_NUMBERS)
  }

  lemma EnterStepByStep(b: Bytes)
    requires |b| == ENTER_ORDER_SIZE
    ensures EnterFromNetwork(b) == Turned(Turned(Turned(Turned(b, 19, 4), 31, 4), 35, 4), 46, 4)
  {
    hide Turned;
    var fs := ENTER_NUMBERS;
    assert TurnedUpTo(b, fs, 1) == Turned(b, 19, 4);
    assert TurnedUpTo(b, fs, 2) == Turned(TurnedUpTo(b, fs, 1), 31, 4);
    assert TurnedUpTo(b, fs, 3) == Turned(TurnedUpTo(b, fs, 2), 35, 4);
  }

  method EnterFromNetworkInPlace(a: array<byte>)
    requires a.Length == ENTER_ORDER_SIZE
    modifies a
    ensures a[..] == EnterFromNetwork(old(a[..]))
  {
    hide Turned, EnterFromNetwork;
    EnterStepByStep(a[..]);
    TurnInPlace(a, 19, 4);
    TurnInPlace(a, 31, 4);
    TurnInPlace(a, 35, 4);
    TurnInPlace(a, 46, 4);
  }

  /** The fields of the struct laid over the buffer. */
  function EnterFields(b: Bytes): EnterOrder
    requires |b| == ENTER_ORDER_SIZE
  {
    EnterOrder(Token(b[4..18]), b[18], Word(b[19..23]), b[23..31], I32(Word(b[31..35])), Word(b[35..39]), b[39..43],
               b[43], b[44], b[45], Word(b[46..50]), b[50], b[51])
  }

  /** timestamp, price, qty, time_in_force, order_reference_number and min_qty of an OrderAccepted. */
  const ACCEPTED_NUMBERS: seq<Field> :=
    [Field(4, 8), Field(39, 4), Field(27, 4), Field(43, 4), Field(52, 8), Field(62, 4)]

  function AcceptedToNetwork(b: Bytes): (r: Bytes)
    requires |b| == ORDER_ACCEPTED_SIZE
    ensures |r| == |b|
  {
    TurnedAll(b, ACCEPTED_NUMBERS)
  }

  lemma AcceptedStepByStep(b: Bytes)
    requires |b| == ORDER_ACCEPTED_SIZE
    ensures AcceptedToNetwork(b)
         == Turned(Turned(Turned(Turned(Turned(Turned(b, 4, 8), 39, 4), 27, 4), 43, 4), 52, 8), 62, 4)
  {
    hide Turned;
    var fs := ACCEPTED_NUMBERS;
    assert TurnedUpTo(b, fs, 1) == Turned(b, 4, 8);
    assert TurnedUpTo(b, fs, 2) == Turned(TurnedUpTo(b, fs, 1), 39, 4);
    assert TurnedUpTo(b, fs, 3) == Turned(TurnedUpTo(b, fs, 2), 27, 4);
    assert TurnedUpTo(b, fs, 4) == Turned(TurnedUpTo(b, fs, 3), 43, 4);
    assert TurnedUpTo(b, fs, 5) == Turned(TurnedUpTo(b, fs, 4), 52, 8);
  }

  method AcceptedToNetworkInPlace(a: array<byte>)
    requires a.Length == ORDER_ACCEPTED_SIZE
    modifies a
    ensures a[..] == AcceptedToNetwork(old(a[..]))
  {
    hide Turned, AcceptedToNetwork;
    AcceptedStepByStep(a[..]);
    TurnInPlace(a, 4, 8);
    TurnInPlace(a, 39, 4);
    TurnInPlace(a, 27, 4);
    TurnInPlace(a, 43, 4);
    TurnInPlace(a, 52, 8);
    TurnInPlace(a, 62, 4);
  }

  /** What the fields of an order need to fit the struct. */
  predicate Fits(oa: OrderAccepted) {
    |oa.token.val| == 14 && |oa.symbol| == 8 && |oa.firm| == 4
  }

  /** The struct before to_network: length and types from its constructor, the rest assigned. */
  function AcceptedStruct(oa: OrderAccepted, timestamp: uint64): (b: Bytes)
    requires Fits(oa)
    ensures |b| == ORDER_ACCEPTED_SIZE
  {
    [0, 67, Ascii('S'), Ascii('A')] + ToNative(timestamp, 8) + oa.token.val + [oa.side] + ToNative(oa.qty, 4)
    + oa.symbol + ToNative(U32(oa.price), 4) + ToNative(oa.timeInForce, 4) + oa.firm + [oa.display]
    + ToNative(oa.reference, 8) + [oa.capacity, oa.sweep] + ToNative(oa.minQty, 4)
    + [oa.crossType, Ascii('L'), Ascii('2')]
  }

  lemma StructFields(oa: OrderAccepted, timestamp: uint64)
    requires Fits(oa)
    ensures var b := AcceptedStruct(oa, timestamp);
            && b[0..4] == [0, 67, Ascii('S'), Ascii('A')] && b[4..12] == ToNative(timestamp, 8)
            && b[12..26] == oa.token.val && b[26] == oa.side && b[27..31] == ToNative(oa.qty, 4)
            && b[31..39] == oa.symbol && b[39..43] == ToNative(U32(oa.price), 4)
            && b[43..47] == ToNative(oa.timeInForce, 4) && b[47..51] == oa.firm && b[51] == oa.display
            && b[52..60] == ToNative(oa.reference, 8) && b[60] == oa.capacity && b[61] == oa.sweep
            && b[62..66] == ToNative(oa.minQty, 4) && b[66] == oa.crossType
  {
    hide ToNative;
  }

  // ---------------------------------------------------------------- strncpy

  /** From the first NUL on there are only NULs. */
  predicate NulPadded(s: Bytes) {
    s != [] ==> if s[0] == 0 then forall i :: 0 <= i < |s| ==> s[i] == 0 else NulPadded(s[1..])
  }

  /** strncpy leaves a field as it is exactly when the field is padded with NULs; a copy is padded. */
  lemma {:induction false} CopyingKeepsPadded(s: Bytes)
    ensures StrNCpy(s) == s <==> NulPadded(s)
    ensures NulPadded(StrNCpy(s))
  {
    if s != [] {
      CopyingKeepsPadded(s[1..]);
      assert s == [s[0]] + s[1..];
      if s[0] != 0 {
        assert StrNCpy(s)[1..] == StrNCpy(s[1..]);
      }
    }
  }

  // ---------------------------------------------------------------- from EnterOrder to OrderAccepted

  /** The bytes sent for a packet that enter_order accepts. */
  function Answer(packet: Bytes, id: uint64, now: int, timestamp: uint64): (out: Bytes)
    requires |packet| == ENTER_ORDER_SIZE
    ensures |out| == ORDER_ACCEPTED_SIZE
  {
    var order := ParseOrder(EnterFields(EnterFromNetwork(packet)), id, now);
    AcceptedToNetwork(AcceptedStruct(AcceptedMessage(order), timestamp))
  }

  /** enter_order on an accepted packet: the packet's numbers are turned in place, the answer is a new buffer. */
  method AnswerInPlace(packet: array<byte>, id: uint64, now: int, timestamp: uint64) returns (out: array<byte>)
    requires packet.Length == ENTER_ORDER_SIZE
    modifies packet
    ensures fresh(out) && out[..] == Answer(old(packet[..]), id, now, timestamp)
    ensures packet[..] == EnterFromNetwork(old(packet[..]))
  {
    hide AcceptedToNetwork, EnterFromNetwork, AcceptedStruct, StrNCpy;
    EnterFromNetworkInPlace(packet);
    var order := ParseOrder(EnterFields(packet[..]), id, now);
    var struct := AcceptedStruct(AcceptedMessage(order), timestamp);
    out := new byte[ORDER_ACCEPTED_SIZE](i requires 0 <= i < ORDER_ACCEPTED_SIZE => struct[i]);
    assert out[..] == struct;
    AcceptedToNetworkInPlace(out);
  }

  /** validate_enter_order works on a copy: the packet itself keeps its byte order. */
  method ValidateEnterOrder(packet: array<byte>) returns (ok: bool)
    requires packet.Length == ENTER_ORDER_SIZE
    ensures ok <==>
              Framing.Whole(packet[..], Framing.SoupBinTcp) && ValidEnter(EnterFields(EnterFromNetwork(packet[..])))
  {
    hide EnterFromNetwork, EnterFields, ValidEnter;
    if packet[0] as int * 256 + packet[1] as int != ENTER_ORDER_SIZE - 2 { return false; }
    var bytes := packet[..];
    var copy := new byte[ENTER_ORDER_SIZE](i requires 0 <= i < ENTER_ORDER_SIZE => bytes[i]);
    assert copy[..] == bytes;
    EnterFromNetworkInPlace(copy);
    ok := ValidEnter(EnterFields(copy[..]));
  }

  /** from_network makes the fields what the specification sends: big-endian numbers. Text stays in place. */
  lemma FieldsAreBigEndian(packet: Bytes)
    requires |packet| == ENTER_ORDER_SIZE
    ensures var eo := EnterFields(EnterFromNetwork(packet));
            && eo.qty == BigEndian(packet[19..23]) && eo.price == I32(BigEndian(packet[31..35]))
            && eo.timeInForce == BigEndian(packet[35..39]) && eo.minQty == BigEndian(packet[46..50])
            && eo.token.val == packet[4..18] && eo.symbol == packet[23..31] && eo.firm == packet[39..43]
  {
    EnterSlices(packet);
    TurningIsByteOrder(packet[19..23]);
    TurningIsByteOrder(packet[31..35]);
    TurningIsByteOrder(packet[35..39]);
    TurningIsByteOrder(packet[46..50]);
  }

  lemma EnterSlices(b: Bytes)
    requires |b| == ENTER_ORDER_SIZE
    ensures var e := EnterFromNetwork(b);
            && e[19..23] == Reversed(b[19..23]) && e[31..35] == Reversed(b[31..35])
            && e[35..39] == Reversed(b[35..39]) && e[46..50] == Reversed(b[46..50])
            && e[4..18] == b[4..18] && e[18] == b[18] && e[23..31] == b[23..31] && e[39..43] == b[39..43]
            && e[43..46] == b[43..46] && e[50..52] == b[50..52]
  {
    hide TurnedUpTo, Reversed;
    var fs := ENTER_NUMBERS;
    EachIsTurned(b, fs, |fs|, 0);
    EachIsTurned(b, fs, |fs|, 1);
    EachIsTurned(b, fs, |fs|, 2);
    EachIsTurned(b, fs, |fs|, 3);
    OthersStay(b, fs, |fs|, 4, 19);
    OthersStay(b, fs, |fs|, 23, 31);
    OthersStay(b, fs, |fs|, 39, 46);
    OthersStay(b, fs, |fs|, 50, 52);
    var e := EnterFromNetwork(b);
    assert e[4..18] == e[4..19][..14] && e[18] == e[4..19][14];
    assert e[39..43] == e[39..46][..4] && e[43..46] == e[39..46][4..];
  }

  lemma AcceptedSlices(b: Bytes)
    requires |b| == ORDER_ACCEPTED_SIZE
    ensures var r := AcceptedToNetwork(b);
            && r[4..12] == Reversed(b[4..12]) && r[27..31] == Reversed(b[27..31])
            && r[39..43] == Reversed(b[39..43]) && r[43..47] == Reversed(b[43..47])
            && r[52..60] == Reversed(b[52..60]) && r[62..66] == Reversed(b[62..66])
            && r[0..4] == b[0..4] && r[12..27] == b[12..27] && r[31..39] == b[31..39] && r[47..52] == b[47..52]
            && r[60..62] == b[60..62] && r[66..69] == b[66..69]
  {
    hide TurnedUpTo, Reversed;
    var fs := ACCEPTED_NUMBERS;
    EachIsTurned(b, fs, |fs|, 0);
    EachIsTurned(b, fs, |fs|, 1);
    EachIsTurned(b, fs, |fs|, 2);
    EachIsTurned(b, fs, |fs|, 3);
    EachIsTurned(b, fs, |fs|, 4);
    EachIsTurned(b, fs, |fs|, 5);
    OthersStay(b, fs, |fs|, 0, 4);
    OthersStay(b, fs, |fs|, 12, 27);
    OthersStay(b, fs, |fs|, 31, 39);
    OthersStay(b, fs, |fs|, 47, 52);
    OthersStay(b, fs, |fs|, 60, 62);
    OthersStay(b, fs, |fs|, 66, 69);
  }

  /** The bytes of an OrderAccepted on the wire: numbers big-endian, text and letters as in the message. */
  lemma AcceptedOnTheWire(oa: OrderAccepted, timestamp: uint64)
    requires Fits(oa)
    ensures var out := AcceptedToNetwork(AcceptedStruct(oa, timestamp));
            && out[0..4] == [0, 67, Ascii('S'), Ascii('A')] && out[4..12] == Reversed(ToNative(timestamp, 8))
            && out[12..26] == oa.token.val && out[26] == oa.side && out[27..31] == Reversed(ToNative(oa.qty, 4))
            && out[31..39] == oa.symbol && out[39..43] == Reversed(ToNative(U32(oa.price), 4))
            && out[43..47] == Reversed(ToNative(oa.timeInForce, 4)) && out[47..51] == oa.firm && out[51] == oa.display
            && out[52..60] == Reversed(ToNative(oa.reference, 8)) && out[60] == oa.capacity && out[61] == oa.sweep
            && out[62..66] == Reversed(ToNative(oa.minQty, 4)) && out[66] == oa.crossType
  {
    hide AcceptedToNetwork, AcceptedStruct, ToNative, Reversed;
    var b := AcceptedStruct(oa, timestamp);
    StructFields(oa, timestamp);
    AcceptedSlices(b);
    var out := AcceptedToNetwork(b);
    assert out[12..26] == out[12..27][..14] && out[26] == out[12..27][14];
    assert b[12..26] == b[12..27][..14] && b[26] == b[12..27][14];
    assert out[47..51] == out[47..52][..4] && out[51] == out[47..52][4];
    assert b[47..51] == b[47..52][..4] && b[51] == b[47..52][4];
    assert out[60] == out[60..62][0] && out[61] == out[60..62][1];
    assert b[60] == b[60..62][0] && b[61] == b[60..62][1];
    assert out[66] == out[66..69][0] && b[66] == b[66..69][0];
  }

  /** A four-byte number that is turned, read, written and turned again. */
  lemma WordTravels(b: Bytes)
    requires |b| == 4
    ensures Reversed(ToNative(Word(Reversed(b)), 4)) == b
    ensures Reversed(ToNative(U32(I32(Word(Reversed(b)))), 4)) == b
  {
    WordWritesBack(Reversed(b));
    assert Reversed(Reversed(b)) == b;
  }

  /** The answer to an accepted order repeats, byte for byte, what the client sent: token, side, quantity, price, time
      in force, display, capacity, sweep eligibility, minimum quantity and cross type. It repeats symbol and firm
      exactly when those are padded with NULs, because they pass through strncpy. */
  lemma AnswerRepeatsOrder(packet: Bytes, id: uint64, now: int, timestamp: uint64)
    requires |packet| == ENTER_ORDER_SIZE
    ensures var out := Answer(packet, id, now, timestamp);
            && out[12..26] == packet[4..18] && out[26] == packet[18] && out[27..31] == packet[19..23]
            && out[39..43] == packet[31..35] && out[43..47] == packet[35..39] && out[51] == packet[43]
            && out[60] == packet[44] && out[61] == packet[45] && out[62..66] == packet[46..50] && out[66] == packet[50]
            && (out[31..39] == packet[23..31] <==> NulPadded(packet[23..31]))
            && (out[47..51] == packet[39..43] <==> NulPadded(packet[39..43]))
  {
    hide AcceptedToNetwork, AcceptedStruct, EnterFromNetwork, ToNative, Reversed, Word, StrNCpy, NulPadded, I32, U32;
    var e := EnterFromNetwork(packet);
    var order := ParseOrder(EnterFields(e), id, now);
    var oa := AcceptedMessage(order);
    EnterSlices(packet);
    AcceptedOnTheWire(oa, timestamp);
    WordTravels(packet[19..23]);
    WordTravels(packet[31..35]);
    WordTravels(packet[35..39]);
    WordTravels(packet[46..50]);
    CopyingKeepsPadded(packet[23..31]);
    CopyingKeepsPadded(StrNCpy(packet[23..31]));
    CopyingKeepsPadded(packet[39..43]);
    CopyingKeepsPadded(StrNCpy(packet[39..43]));
    assert e[43] == e[43..46][0] && e[44] == e[43..46][1] && e[45] == e[43..46][2] && e[50] == e[50..52][0];
    assert U32(order.remaining) == order.remaining by {
      WordIsNarrow(e[19..23]);
    }
  }

  lemma WordIsNarrow(b: Bytes)
    requires |b| == 4
    ensures U32(Word(b)) == Word(b)
  {
  }

  /** The answer is a whole SoupBinTCP packet, and carries the order's id and the time in big-endian form. */
  lemma AnswerIsWhole(packet: Bytes, id: uint64, now: int, timestamp: uint64)
    requires |packet| == ENTER_ORDER_SIZE
    ensures var out := Answer(packet, id, now, timestamp);
            Framing.Whole(out, Framing.SoupBinTcp) && BigEndian(out[52..60]) == id && BigEndian(out[4..12]) == timestamp
  {
    hide AcceptedToNetwork, AcceptedStruct, EnterFromNetwork, ToNative, Reversed, Word, StrNCpy, I32, BigEndian, Native;
    var order := ParseOrder(EnterFields(EnterFromNetwork(packet)), id, now);
    var out := Answer(packet, id, now, timestamp);
    AcceptedOnTheWire(AcceptedMessage(order), timestamp);
    assert out[0] == out[0..4][0] && out[1] == out[0..4][1];
    NumberOnTheWire(id);
    NumberOnTheWire(timestamp);
  }

  lemma NumberOnTheWire(x: uint64)
    ensures BigEndian(Reversed(ToNative(x, 8))) == x
  {
    hide ToNative;
    assert Values(2) == 0x1_0000 && Values(4) == TWO_TO_32 && Values(6) == 0x1_0000_0000_0000;
    assert Values(8) == 0x1_0000_0000_0000_0000;
    NativeReadsBack(x, 8);
    TurningIsByteOrder(Reversed(ToNative(x, 8)));
    assert Reversed(Reversed(ToNative(x, 8))) == ToNative(x, 8);
  }
}
