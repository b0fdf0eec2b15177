/** The control packets the client builds and the ones it reads, as frames. */
module Packets {
  import opened Bits
  import opened Frames
  import opened Network
  import opened StreamDecoding

  // Message keeps its QoS in a two-bit field.
  type QoS = n: int | 0 <= n < 4

  const QOS0: QoS := 0
  const QOS1: QoS := 1
  const QOS2: QoS := 2

  /** Texts are kept as their UTF-8 bytes. */
  datatype Message = Message(id: u16, topic: seq<byte>, payload: seq<byte>, qos: QoS, retain: bool, dup: bool)

  const EMPTY_MESSAGE := Message(0, [], [], 0, false, false)

  datatype Version = V3_1_0 | V3_1_1

  datatype Config = Config(version: Version, clientId: seq<byte>, username: seq<byte>, password: seq<byte>,
                           cleanSession: bool, willTopic: seq<byte>, willQos: byte, willRetain: bool,
                           willMessage: seq<byte>)

  // ---------------------------------------------------------------------------
  // Packets sent

  function PublishFrame(m: Message, mid: u16): RawFrame {
    RawFrame(PublishHeader(m.qos, m.retain, m.dup),
             EncodeBytes(m.topic) + (if m.qos > QOS0 then EncodeInt(mid) else []) + m.payload)
  }

  /** PUBACK, PUBREC, PUBREL, PUBCOMP and, on the broker's side, UNSUBACK. */
  function AckFrame(header: byte, mid: u16): RawFrame {
    RawFrame(header, EncodeInt(mid))
  }

  const PUBREL_HEADER: byte := SetQos(PUBREL, QOS1)
  const SUBSCRIBE_HEADER: byte := SetQos(SUBSCRIBE, QOS1)
  const UNSUBSCRIBE_HEADER: byte := SetQos(UNSUBSCRIBE, QOS1)

  function SubscribeFrame(mid: u16, topic: seq<byte>, qos: byte): RawFrame {
    RawFrame(SUBSCRIBE_HEADER, EncodeInt(mid) + EncodeBytes(topic) + [qos])
  }

  function UnsubscribeFrame(mid: u16, topic: seq<byte>): RawFrame {
    RawFrame(UNSUBSCRIBE_HEADER, EncodeInt(mid) + EncodeBytes(topic))
  }

  function SubackFrame(mid: u16, code: byte): RawFrame {
    RawFrame(SUBACK, EncodeInt(mid) + [code])
  }

  // ---------------------------------------------------------------------------
  // Packets received

  function FrameMid(f: RawFrame): u16
    requires |f.data| >= 2
  {
    DecodeInt(f.data[0], f.data[1])
  }

  /** The reads the client makes of a frame of this type all find their bytes. */
  predicate Readable(f: RawFrame) {
    var t := GetType(f.header);
    if t == CONNACK then |f.data| >= 2
    else if t == PUBLISH then
      && |f.data| >= 2
      && (GetQos(f.header) > 0 ==> |DropLeft(f.data[2..], FrameMid(f))| >= 2)
    else if t == PUBACK || t == PUBREC || t == PUBREL || t == PUBCOMP || t == UNSUBACK then |f.data| >= 2
    else if t == SUBACK then |f.data| >= 3
    else true
  }

  /** The message of a PUBLISH: whatever follows the topic, and the identifier if there is one. */
  function ParsePublish(f: RawFrame): Message
    requires Readable(f) && GetType(f.header) == PUBLISH
  {
    var qos := GetQos(f.header);
    var topic := Left(f.data[2..], FrameMid(f));
    var rest := DropLeft(f.data[2..], FrameMid(f));
    QosField(f.header);
    if qos > 0 then
      Message(DecodeInt(rest[0], rest[1]), topic, rest[2..], qos, GetRetain(f.header) != 0, GetDup(f.header) != 0)
    else
      Message(0, topic, rest, qos, GetRetain(f.header) != 0, GetDup(f.header) != 0)
  }

  // ---------------------------------------------------------------------------
  // What is read is what was sent

  lemma PublishHeaderFields(m: Message)
    ensures var h := PublishHeader(m.qos, m.retain, m.dup);
            GetType(h) == PUBLISH && GetQos(h) == m.qos && GetRetain(h) == (if m.retain then 1 else 0)
            && GetDup(h) == (if m.dup then 1 else 0)
  {
    hide PublishHeader, GetType, GetQos, GetRetain, GetDup;
    PublishHeaderValue(m.qos, m.retain, m.dup);
    HeaderFields(PublishHeader(m.qos, m.retain, m.dup));
  }

  /** Parsing a PUBLISH gives its message back, an over-long topic cut to 65535 bytes, with the
      identifier it was sent under. */
  lemma PublishParses(m: Message, mid: u16)
    ensures var f := PublishFrame(m, mid);
            Readable(f) && GetType(f.header) == PUBLISH
            && ParsePublish(f) == m.(id := if m.qos > QOS0 then mid else 0, topic := Clip(m.topic))
  {
    hide PublishHeader, GetType, GetQos, GetRetain, GetDup, DecodeInt, EncodeInt;
    PublishHeaderFields(m);
    var f := PublishFrame(m, mid);
    var topic := Clip(m.topic);
    var tail := (if m.qos > QOS0 then EncodeInt(mid) else []) + m.payload;
    IntRoundTrip(|topic|);
    IntRoundTrip(mid);
    assert f.data == EncodeInt(|topic|) + (topic + tail);
    assert f.data[2..] == topic + tail;
    assert Left(f.data[2..], |topic|) == topic && DropLeft(f.data[2..], |topic|) == tail;
    if m.qos > QOS0 {
      assert tail[2..] == m.payload;
    }
  }

  /** The remaining length of a PUBLISH. */
  function PublishSize(m: Message): nat {
    2 + |Clip(m.topic)| + (if m.qos > QOS0 then 2 else 0) + |m.payload|
  }

  lemma PublishFrameSize(m: Message, mid: u16)
    ensures |PublishFrame(m, mid).data| == PublishSize(m)
  {
    hide EncodeInt, PublishHeader;
  }

  /** A publish from one end of the connection to the other. */
  lemma PublishEndToEnd(m: Message, mid: u16, s: ParserState, chunks: seq<seq<byte>>)
    requires |m.topic| <= USHRT_MAX && PublishSize(m) <= MAX_REMAINING_LENGTH
    requires s.readState == Header && Flatten(chunks) == Serialize(PublishFrame(m, mid))
    ensures FeedChunks(s, chunks).1 == [Received(PublishFrame(m, mid))]
    ensures Readable(PublishFrame(m, mid)) && GetType(PublishFrame(m, mid).header) == PUBLISH
    ensures ParsePublish(PublishFrame(m, mid)) == m.(id := if m.qos > QOS0 then mid else 0)
  {
    hide Serialize, PublishFrame, Feed, FeedChunks;
    var f := PublishFrame(m, mid);
    PublishFrameSize(m, mid);
    PublishParses(m, mid);
    assert SerializeAll([f]) == Serialize(f) + SerializeAll([]);
    RoundTrip(s, [f], chunks);
    assert Sendable([f]) == [f] + Sendable([]);
  }

  lemma PubrelHeader()
    ensures PUBREL_HEADER == 0x62 && SUBSCRIBE_HEADER == 0x82 && UNSUBSCRIBE_HEADER == 0xA2
  {
    hide Or, Shl;
    Shl1();
    OrDisjoint(2, 6, 4);
    OrDisjoint(2, 8, 4);
    OrDisjoint(2, 10, 4);
  }

  lemma Shl1()
    ensures Shl(1, 1) == 2 && Shl(6, 4) == 0x60 && Shl(8, 4) == 0x80 && Shl(10, 4) == 0xA0 && Pow2(4) == 16
  {
  }

  lemma AckParses(header: byte, mid: u16)
    ensures FrameMid(AckFrame(header, mid)) == mid
  {
    hide EncodeInt, DecodeInt;
    IntRoundTrip(mid);
  }

  lemma RequestParses(mid: u16, topic: seq<byte>, qos: byte)
    ensures |SubscribeFrame(mid, topic, qos).data| >= 2 && FrameMid(SubscribeFrame(mid, topic, qos)) == mid
    ensures |UnsubscribeFrame(mid, topic).data| >= 2 && FrameMid(UnsubscribeFrame(mid, topic)) == mid
    ensures FrameMid(SubackFrame(mid, qos)) == mid
  {
    hide EncodeInt, DecodeInt, EncodeBytes;
    IntRoundTrip(mid);
  }

  /** SUBSCRIBE and UNSUBSCRIBE carry the headers sections 3.8.1 and 3.10.1 of MQTT 3.1.1 ask for,
      and read back, field by field, as identifier, topic and, for SUBSCRIBE, the requested QoS. */
  lemma RequestsReadBack(mid: u16, topic: seq<byte>, qos: byte)
    ensures var f := SubscribeFrame(mid, topic, qos);
            f.header == 0x82 && Reads(f.data, [IntField(mid), BytesField(topic), CharField(qos)], [])
    ensures var f := UnsubscribeFrame(mid, topic);
            f.header == 0xA2 && Reads(f.data, [IntField(mid), BytesField(topic)], [])
  {
    hide EncodeInt, EncodeBytes, SetQos, Reads;
    PubrelHeader();
    var two := [IntField(mid), BytesField(topic)];
    var three := two + [CharField(qos)];
    WriteTwo(two, []);
    WriteTwo(two, [CharField(qos)]);
    FieldsRoundTrip(two, []);
    FieldsRoundTrip(three, []);
    assert three == [IntField(mid), BytesField(topic), CharField(qos)];
    assert two + [] == two;
    assert WriteFields([], two) + [] == UnsubscribeFrame(mid, topic).data;
    assert WriteFields([], three) + [] == SubscribeFrame(mid, topic, qos).data;
  }

  /** Writing two fields and then the rest. */
  lemma WriteTwo(two: seq<Field>, rest: seq<Field>)
    requires |two| == 2 && |rest| <= 1
    ensures WriteFields([], two + rest) ==
            var d := WriteField(WriteField([], two[0]), two[1]);
            if rest == [] then d else WriteField(d, rest[0])
  {
    hide WriteField;
    var fs := two + rest;
    var d1 := WriteField([], two[0]);
    var d2 := WriteField(d1, two[1]);
    assert fs[0] == two[0] && fs[1..][0] == two[1] && fs[1..][1..] == rest;
    assert WriteFields(d1, fs[1..]) == WriteFields(d2, rest);
    if rest != [] {
      assert rest[1..] == [];
      assert WriteFields(d2, rest) == WriteFields(WriteField(d2, rest[0]), []);
    }
  }
}
