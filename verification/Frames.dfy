/** Control packets: the header macros, the typed fields of the payload, and the wire form. */
module Frames {
  import opened Bits

  const CONNECT: byte := 0x10
  const CONNACK: byte := 0x20
  const PUBLISH: byte := 0x30
  const PUBACK: byte := 0x40
  const PUBREC: byte := 0x50
  const PUBREL: byte := 0x60
  const PUBCOMP: byte := 0x70
  const SUBSCRIBE: byte := 0x80
  const SUBACK: byte := 0x90
  const UNSUBSCRIBE: byte := 0xA0
  const UNSUBACK: byte := 0xB0
  const PINGREQ: byte := 0xC0
  const PINGRESP: byte := 0xD0
  const DISCONNECT: byte := 0xE0

  const USHRT_MAX: u16 := 0xFFFF
  // The largest remaining length four bytes can carry.
  const MAX_REMAINING_LENGTH := 268435455

  datatype RawFrame = RawFrame(header: byte, data: seq<byte>)

  // ---------------------------------------------------------------------------
  // Header macros; the results are stored in a quint8

  function ToByte(n: nat): byte { n % 0x100 }

  function GetType(h: byte): byte { ToByte(And(h, 0xF0)) }
  function SetQos(h: byte, q: byte): byte { ToByte(Or(h, Shl(q, 1))) }
  function GetQos(h: byte): byte { ToByte(Shr(And(h, 0x06), 1)) }
  function SetDup(h: byte, d: byte): byte { ToByte(Or(h, Shl(d, 3))) }
  function GetDup(h: byte): byte { ToByte(Shr(And(h, 0x08), 3)) }
  function SetRetain(h: byte, r: byte): byte { ToByte(Or(h, r)) }
  function GetRetain(h: byte): byte { ToByte(And(h, 0x01)) }

  /** The getters cut the header into its four fields. */
  lemma HeaderFields(h: byte)
    ensures GetType(h) == h / 16 * 16
    ensures GetDup(h) == h / 8 % 2
    ensures GetQos(h) == h / 2 % 4
    ensures GetRetain(h) == h % 2
  {
    hide GetType, GetQos, GetDup, GetRetain;
    TypeField(h);
    QosField(h);
    FlagFields(h);
  }

  /** Table 2.1 of MQTT 3.1.1: the fourteen packet types in their order, in the upper half of the byte. */
  lemma PacketTypes()
    ensures [CONNECT, CONNACK, PUBLISH, PUBACK, PUBREC, PUBREL, PUBCOMP, SUBSCRIBE, SUBACK, UNSUBSCRIBE, UNSUBACK,
             PINGREQ, PINGRESP, DISCONNECT] == seq(14, i => 16 * (i + 1))
  {
  }

  lemma TypeField(h: byte)
    ensures GetType(h) == h / 16 * 16
  {
    hide And, Shr, Shl, Pow2;
    Constants();
    MaskField(h, 0xF0, 4, 4);
    ShlIsMul(h / 16 % 16, 4);
  }

  lemma QosField(h: byte)
    ensures GetQos(h) == h / 2 % 4
  {
    hide And, Shr, Shl, Pow2;
    Constants();
    MaskField(h, 0x06, 2, 1);
  }

  lemma FlagFields(h: byte)
    ensures GetDup(h) == h / 8 % 2
    ensures GetRetain(h) == h % 2
  {
    hide And, Shr, Shl, Pow2;
    Constants();
    MaskField(h, 0x08, 1, 3);
    MaskField(h, 0x01, 1, 0);
    ShlIsMul(h % 2, 0);
  }

  /** A PUBLISH header as sendPublish puts it together. */
  function PublishHeader(qos: byte, retain: bool, dup: bool): byte {
    SetDup(SetQos(SetRetain(PUBLISH, if retain then 1 else 0), qos), if dup then 1 else 0)
  }

  /** The fields of a two-bit QoS do not overlap. */
  lemma PublishHeaderValue(qos: byte, retain: bool, dup: bool)
    requires qos <= 3
    ensures PublishHeader(qos, retain, dup) ==
            PUBLISH + (if dup then 8 else 0) + 2 * qos + (if retain then 1 else 0)
  {
    hide SetRetain, SetQos, SetDup;
    var r, d := if retain then 1 else 0, if dup then 1 else 0;
    SetRetainValue(r);
    SetQosValue(r, qos);
    SetDupValue(2 * qos + r, d);
  }

  lemma SetRetainValue(r: byte)
    requires r < 16
    ensures SetRetain(0x30, r) == 0x30 + r
  {
    hide Or, Shl, Pow2;
    Constants();
    OrDisjoint(r, 3, 4);
  }

  lemma SetQosValue(r: byte, qos: byte)
    requires r < 2 && qos < 4
    ensures SetQos(0x30 + r, qos) == 0x30 + 2 * qos + r
  {
    hide Or, Shl, Pow2;
    Constants();
    ShlIsMul(qos, 1);
    OrInsert(r, qos, 3, 3, 1);
  }

  lemma SetDupValue(low: byte, d: byte)
    requires low < 8 && d < 2
    ensures SetDup(0x30 + low, d) == 0x30 + 8 * d + low
  {
    hide Or, Shl, Pow2;
    Constants();
    ShlIsMul(d, 3);
    OrInsert(low, d, 3, 1, 3);
  }

  // ---------------------------------------------------------------------------
  // Typed fields

  function Msb(i: u16): byte { ToByte(Shr(And(i, 0xFF00), 8)) }
  function Lsb(i: u16): byte { ToByte(And(i, 0x00FF)) }

  function EncodeInt(i: u16): (s: seq<byte>)
    ensures |s| == 2
  {
    [Msb(i), Lsb(i)]
  }

  function DecodeInt(msb: byte, lsb: byte): u16 {
    Or(Shl(msb, 8), lsb) % 0x1_0000
  }

  lemma IntRoundTrip(i: u16)
    ensures EncodeInt(i) == [i / 256, i % 256]
    ensures DecodeInt(EncodeInt(i)[0], EncodeInt(i)[1]) == i
  {
    hide And, Or, Shr, Shl, Pow2;
    Constants();
    MaskField(i, 0xFF00, 8, 8);
    MaskField(i, 0x00FF, 8, 0);
    ShlIsMul(i % 256, 0);
    ShlIsMul(i / 256, 8);
    OrDisjoint(i % 256, i / 256, 8);
  }

  /** What a length-prefixed field keeps of its bytes. */
  function Clip(d: seq<byte>): (c: seq<byte>)
    ensures |c| <= 65535 && c <= d
    ensures |d| <= 65535 ==> c == d
    ensures |d| > 65535 ==> |c| == 65535
  {
    if |d| > USHRT_MAX then d[..USHRT_MAX] else d
  }

  function EncodeBytes(d: seq<byte>): seq<byte> {
    EncodeInt(|Clip(d)|) + Clip(d)
  }

  function Left(d: seq<byte>, n: nat): seq<byte> {
    if n <= |d| then d[..n] else d
  }

  function DropLeft(d: seq<byte>, n: nat): seq<byte> {
    if n <= |d| then d[n..] else []
  }

  /** A frame under construction or being taken apart. */
  class Frame {
    var header: byte
    var data: seq<byte>

    ghost function Value(): RawFrame
      reads this
    {
      RawFrame(header, data)
    }

    constructor (header: byte, data: seq<byte>)
      ensures Value() == RawFrame(header, data)
    {
      this.header, this.data := header, data;
    }

    method ReadChar() returns (c: byte)
      requires |data| >= 1
      modifies this`data
      ensures old(data) == [c] + data
    {
      c := data[0];
      data := data[1..];
    }

    method ReadInt() returns (i: u16)
      requires |data| >= 2
      modifies this`data
      ensures i == DecodeInt(old(data)[0], old(data)[1])
      ensures data == old(data)[2..]
    {
      var msb, lsb := data[0], data[1];
      data := data[2..];
      i := DecodeInt(msb, lsb);
    }

    /** Also readString, whose text is kept as its UTF-8 bytes. */
    method ReadByteArray() returns (d: seq<byte>)
      requires |data| >= 2
      modifies this`data
      ensures var n := DecodeInt(old(data)[0], old(data)[1]);
              d == Left(old(data)[2..], n) && data == DropLeft(old(data)[2..], n)
      // as many bytes as the length says, or all there are
      ensures d + data == old(data)[2..]
      ensures var n := DecodeInt(old(data)[0], old(data)[1]);
              |d| == if n <= |old(data)| - 2 then n else |old(data)| - 2
    {
      var len := ReadInt();
      d := Left(data, len);
      data := DropLeft(data, len);
    }

    method WriteInt(i: u16)
      modifies this`data
      ensures data == old(data) + EncodeInt(i)
    {
      data := data + [Msb(i)];
      data := data + [Lsb(i)];
    }

    /** Also writeString, whose text is kept as its UTF-8 bytes. */
    method WriteByteArray(d: seq<byte>)
      modifies this`data
      ensures data == old(data) + EncodeBytes(d)
    {
      if |d| > USHRT_MAX {
        WriteInt(USHRT_MAX);
        data := data + d[..USHRT_MAX];
        return;
      }
      WriteInt(|d|);
      data := data + d;
    }

    method WriteChar(c: byte)
      modifies this`data
      ensures data == old(data) + [c]
    {
      data := data + [c];
    }

    method WriteRawData(d: seq<byte>)
      modifies this`data
      ensures data == old(data) + d
    {
      data := data + d;
    }

    /** Appends the frame to the stream, or nothing when it is too long for four length bytes. */
    method Write(stream: seq<byte>) returns (out: seq<byte>)
      ensures out == stream + Serialize(Value())
    {
      var lenbuf, fits := EncodeLength(|data|);
      VarintLength(|data|);
      if !fits {
        return stream;
      }
      out := stream + [header];
      if |data| == 0 {
        return out + [0];
      }
      out := out + lenbuf;
      out := out + data;
    }
  }

  // ---------------------------------------------------------------------------
  // Remaining length

  /** The remaining length in base 128, least significant digit first, the high bit of a byte
      saying that more follow. */
  function Varint(n: nat): (s: seq<byte>)
    ensures |s| >= 1
  {
    if n < 128 then [n] else [n % 128 + 128] + Varint(n / 128)
  }

  method EncodeLength(n: nat) returns (lenbuf: seq<byte>, fits: bool)
    ensures lenbuf == Varint(n)
    ensures fits <==> |lenbuf| <= 4
  {
    lenbuf := [];
    var length := n;
    while true
      invariant lenbuf + Varint(length) == Varint(n)
      decreases length
    {
      var d: byte := length % 128;
      length := length / 128;
      if length > 0 {
        SetContinuation(d);
        d := Or(d, 0x80);
      }
      lenbuf := lenbuf + [d];
      if length == 0 {
        break;
      }
    }
    fits := |lenbuf| <= 4;
  }

  lemma SetContinuation(d: nat)
    requires d < 128
    ensures Or(d, 0x80) == d + 128
  {
    OrDisjoint(d, 1, 7);
  }

  /** Four bytes are enough exactly up to 268 435 455. */
  lemma {:induction false} VarintLength(n: nat)
    ensures |Varint(n)| <= 4 <==> n <= MAX_REMAINING_LENGTH
  {
    assert |Varint(n)| == 1 <==> n < 128;
    assert |Varint(n / 128)| == 1 <==> n / 128 < 128;
    assert |Varint(n / 128 / 128)| == 1 <==> n / 128 / 128 < 128;
    assert |Varint(n / 128 / 128 / 128)| == 1 <==> n / 128 / 128 / 128 < 128;
  }

  /** The bytes a frame takes on the wire: none when it is too long. */
  function Serialize(f: RawFrame): seq<byte> {
    if |f.data| <= MAX_REMAINING_LENGTH then [f.header] + Varint(|f.data|) + f.data else []
  }

  // ---------------------------------------------------------------------------
  // Writing fields and reading them back

  datatype Field = CharField(c: byte) | IntField(i: u16) | BytesField(d: seq<byte>)
  datatype Kind = CharKind | IntKind | BytesKind

  function KindOf(f: Field): Kind {
    match f
    case CharField(_) => CharKind
    case IntField(_) => IntKind
    case BytesField(_) => BytesKind
  }

  /** What a field comes back as. */
  function Stored(f: Field): Field {
    match f
    case BytesField(d) => BytesField(Clip(d))
    case _ => f
  }

  function WriteField(data: seq<byte>, f: Field): seq<byte> {
    match f
    case CharField(c) => data + [c]
    case IntField(i) => data + EncodeInt(i)
    case BytesField(d) => data + EncodeBytes(d)
  }

  predicate CanRead(data: seq<byte>, k: Kind) {
    if k == CharKind then |data| >= 1 else |data| >= 2
  }

  function ReadField(data: seq<byte>, k: Kind): (Field, seq<byte>)
    requires CanRead(data, k)
  {
    match k
    case CharKind => (CharField(data[0]), data[1..])
    case IntKind => (IntField(DecodeInt(data[0], data[1])), data[2..])
    case BytesKind =>
      var n := DecodeInt(data[0], data[1]);
      (BytesField(Left(data[2..], n)), DropLeft(data[2..], n))
  }

  function WriteFields(data: seq<byte>, fs: seq<Field>): seq<byte>
    decreases fs
  {
    if fs == [] then data else WriteFields(WriteField(data, fs[0]), fs[1..])
  }

  /** The data after a run of reads that all found what they needed. */
  ghost predicate Reads(data: seq<byte>, fs: seq<Field>, rest: seq<byte>)
    decreases fs
  {
    if fs == [] then data == rest
    else
      && CanRead(data, KindOf(fs[0]))
      && ReadField(data, KindOf(fs[0])).0 == Stored(fs[0])
      && Reads(ReadField(data, KindOf(fs[0])).1, fs[1..], rest)
  }

  lemma ReadBackOne(f: Field, rest: seq<byte>)
    ensures var data := WriteField([], f) + rest;
            CanRead(data, KindOf(f)) && ReadField(data, KindOf(f)) == (Stored(f), rest)
  {
    hide EncodeInt, DecodeInt;
    var data := WriteField([], f) + rest;
    match f
    case CharField(c) =>
    case IntField(i) =>
      IntRoundTrip(i);
      assert data[2..] == rest;
    case BytesField(d) =>
      IntRoundTrip(|Clip(d)|);
      assert data[2..] == Clip(d) + rest;
  }

  lemma {:induction false} WriteFieldsAppends(data: seq<byte>, fs: seq<Field>)
    ensures WriteFields(data, fs) == data + WriteFields([], fs)
    decreases fs
  {
    hide EncodeInt, EncodeBytes;
    if fs != [] {
      var one := WriteField([], fs[0]);
      assert WriteField(data, fs[0]) == data + one;
      WriteFieldsAppends(WriteField(data, fs[0]), fs[1..]);
      WriteFieldsAppends(one, fs[1..]);
    }
  }

  /** Any sequence of field writes followed by the matching reads gives the fields back, over-long
      byte arrays cut to their first 65535 bytes, and leaves what was behind them. */
  lemma {:induction false} FieldsRoundTrip(fs: seq<Field>, rest: seq<byte>)
    ensures Reads(WriteFields([], fs) + rest, fs, rest)
    decreases fs
  {
    hide WriteField, ReadField, CanRead;
    if fs == [] {
      assert [] + rest == rest;
    } else {
      var one, tail := WriteField([], fs[0]), WriteFields([], fs[1..]);
      WriteFieldsAppends(one, fs[1..]);
      assert one + tail + rest == one + (tail + rest);
      ReadBackOne(fs[0], tail + rest);
      FieldsRoundTrip(fs[1..], rest);
    }
  }
}
