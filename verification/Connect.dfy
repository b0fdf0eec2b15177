/** CONNECT: how the client lays it out, and a decoder written from section 3.1 of MQTT 3.1.1. */
module Connect {
  import opened Bits
  import opened Frames
  import opened Wrappers
  import opened Packets

  // ---------------------------------------------------------------------------
  // The encoder

  function FlagCleanSess(f: byte, c: byte): byte { ToByte(Or(f, Shl(c, 1))) }
  function FlagWill(f: byte, w: byte): byte { ToByte(Or(f, Shl(w, 2))) }
  function FlagWillQos(f: byte, q: byte): byte { ToByte(Or(f, Shl(q, 3))) }
  function FlagWillRetain(f: byte, r: byte): byte { ToByte(Or(f, Shl(r, 5))) }
  function FlagPasswd(f: byte, p: byte): byte { ToByte(Or(f, Shl(p, 6))) }
  function FlagUsername(f: byte, u: byte): byte { ToByte(Or(f, Shl(u, 7))) }

  function Bit(b: bool): byte { if b then 1 else 0 }

  function ConnectFlags(cfg: Config): byte {
    var f := FlagWill(FlagCleanSess(0, Bit(cfg.cleanSession)), Bit(cfg.willTopic != []));
    var f := if cfg.willTopic != [] then FlagWillRetain(FlagWillQos(f, cfg.willQos), Bit(cfg.willRetain)) else f;
    if cfg.username != [] then FlagPasswd(FlagUsername(f, 1), Bit(cfg.password != [])) else f
  }

  // "MQIsdp" and "MQTT"
  const PROTOCOL_MAGIC_3_1_0: seq<byte> := [77, 81, 73, 115, 100, 112]
  const PROTOCOL_MAGIC_3_1_1: seq<byte> := [77, 81, 84, 84]

  function Magic(v: Version): seq<byte> {
    if v == V3_1_1 then PROTOCOL_MAGIC_3_1_1 else PROTOCOL_MAGIC_3_1_0
  }

  function Level(v: Version): byte {
    if v == V3_1_1 then 4 else 3
  }

  function WillFields(cfg: Config): seq<byte> {
    if cfg.willTopic == [] then [] else EncodeBytes(cfg.willTopic) + EncodeBytes(cfg.willMessage)
  }

  function LoginFields(cfg: Config): seq<byte> {
    if cfg.username == [] then []
    else EncodeBytes(cfg.username) + (if cfg.password == [] then [] else EncodeBytes(cfg.password))
  }

  function ConnectFrame(cfg: Config, keepAlive: u16): RawFrame {
    RawFrame(CONNECT,
             EncodeBytes(Magic(cfg.version)) + [Level(cfg.version)] + [ConnectFlags(cfg)] + EncodeInt(keepAlive)
             + EncodeBytes(cfg.clientId) + WillFields(cfg) + LoginFields(cfg))
  }

  // ---------------------------------------------------------------------------
  // The decoder

  datatype Will = Will(topic: seq<byte>, message: seq<byte>, qos: byte, retain: bool)

  datatype ConnectPacket = ConnectPacket(level: byte, cleanSession: bool, keepAlive: u16, clientId: seq<byte>,
                                         will: Option<Will>, username: Option<seq<byte>>, password: Option<seq<byte>>)

  function TakeByte(d: seq<byte>): Option<(byte, seq<byte>)> {
    if |d| < 1 then None else Some((d[0], d[1..]))
  }

  function BigEndian(msb: int, lsb: int): int {
    256 * msb + lsb
  }

  function TakeInt(d: seq<byte>): Option<(u16, seq<byte>)> {
    if |d| < 2 then None else Some((BigEndian(d[0], d[1]), d[2..]))
  }

  function TakeBytes(d: seq<byte>): Option<(seq<byte>, seq<byte>)> {
    var (n, d) :- TakeInt(d);
    if |d| < n then None else Some((d[..n], d[n..]))
  }

  /** Reads a field only if its flag is set. */
  function TakeIf(present: bool, d: seq<byte>): Option<(Option<seq<byte>>, seq<byte>)> {
    if !present then Some((None, d))
    else
      var (field, d) :- TakeBytes(d);
      Some((Some(field), d))
  }

  /** Section 3.1.2.3 onwards: the reserved bit is 0, a will QoS of 3 is malformed, and without the
      will or user name flag the bits that depend on it are 0. */
  predicate FlagsAllowed(flags: byte) {
    && flags % 2 == 0
    && flags / 8 % 4 != 3
    && (flags / 4 % 2 == 0 ==> flags / 8 % 4 == 0 && flags / 32 % 2 == 0)
    && (flags / 128 % 2 == 0 ==> flags / 64 % 2 == 0)
  }

  /** Section 3.1.2.1 and, for level 3, the name of MQTT 3.1. */
  predicate ProtocolAllowed(name: seq<byte>, level: byte) {
    || (name == ['M' as byte, 'Q' as byte, 'T' as byte, 'T' as byte] && level == 4)
    || (name == ['M' as byte, 'Q' as byte, 'I' as byte, 's' as byte, 'd' as byte, 'p' as byte] && level == 3)
  }

  /** The payload of section 3.1.3: client id, will topic, will message, user name, password. */
  function DecodePayload(level: byte, flags: byte, keepAlive: u16, d: seq<byte>): Option<ConnectPacket> {
    var (clientId, d) :- TakeBytes(d);
    var (topic, d) :- TakeIf(flags / 4 % 2 == 1, d);
    var (message, d) :- TakeIf(flags / 4 % 2 == 1, d);
    var (username, d) :- TakeIf(flags / 128 % 2 == 1, d);
    var (password, d) :- TakeIf(flags / 64 % 2 == 1, d);
    if d != [] then None
    else
      var will := if topic.Some? && message.Some?
                  then Some(Will(topic.value, message.value, flags / 8 % 4, flags / 32 % 2 == 1)) else None;
      Some(ConnectPacket(level, flags / 2 % 2 == 1, keepAlive, clientId, will, username, password))
  }

  function DecodeConnect(d: seq<byte>): Option<ConnectPacket> {
    var (name, d) :- TakeBytes(d);
    var (level, d) :- TakeByte(d);
    var (flags, d) :- TakeByte(d);
    var (keepAlive, d) :- TakeInt(d);
    if ProtocolAllowed(name, level) && FlagsAllowed(flags) then DecodePayload(level, flags, keepAlive, d) else None
  }

  // ---------------------------------------------------------------------------
  // The decoder undoes the encoder

  /** What a configuration asks the broker for; fields longer than 65535 bytes are cut. */
  function Requested(cfg: Config, keepAlive: u16): ConnectPacket {
    ConnectPacket(
      Level(cfg.version), cfg.cleanSession, keepAlive, Clip(cfg.clientId),
      if cfg.willTopic == [] then None
      else Some(Will(Clip(cfg.willTopic), Clip(cfg.willMessage), cfg.willQos, cfg.willRetain)),
      if cfg.username == [] then None else Some(Clip(cfg.username)),
      if cfg.username == [] || cfg.password == [] then None else Some(Clip(cfg.password)))
  }

  ghost function FlagsValue(cfg: Config): nat {
    2 * Bit(cfg.cleanSession)
    + (if cfg.willTopic == [] then 0 else 4 + 8 * cfg.willQos + 32 * Bit(cfg.willRetain))
    + (if cfg.username == [] then 0 else 128 + 64 * Bit(cfg.password != []))
  }

  /** The low flags, up to the will bits. */
  ghost function WillValue(cfg: Config): nat {
    2 * Bit(cfg.cleanSession) + (if cfg.willTopic == [] then 0 else 4 + 8 * cfg.willQos + 32 * Bit(cfg.willRetain))
  }

  lemma LowFlags(c: byte, w: byte)
    requires c < 2 && w < 2
    ensures FlagWill(FlagCleanSess(0, c), w) == 2 * c + 4 * w
  {
    hide Or, Shl, Pow2;
    Constants();
    ShlIsMul(c, 1);
    ShlIsMul(w, 2);
    OrDisjoint(0, c, 1);
    OrDisjoint(2 * c, w, 2);
  }

  lemma WillFlags(f: byte, q: byte, r: byte)
    requires f < 8 && q < 4 && r < 2
    ensures FlagWillRetain(FlagWillQos(f, q), r) == f + 8 * q + 32 * r
  {
    hide Or, Shl, Pow2;
    Constants();
    ShlIsMul(q, 3);
    ShlIsMul(r, 5);
    OrDisjoint(f, q, 3);
    OrDisjoint(f + 8 * q, r, 5);
  }

  lemma LoginFlags(f: byte, p: byte)
    requires f < 64 && p < 2
    ensures FlagPasswd(FlagUsername(f, 1), p) == f + 128 + 64 * p
  {
    hide Or, Shl, Pow2;
    Constants();
    ShlIsMul(p, 6);
    OrDisjoint(f, 1, 7);
    OrInsert(f, p, 1, 1, 6);
  }

  lemma ConnectFlagsValue(cfg: Config)
    requires cfg.willTopic == [] || cfg.willQos < 4
    ensures ConnectFlags(cfg) == FlagsValue(cfg)
  {
    hide FlagCleanSess, FlagWill, FlagWillQos, FlagWillRetain, FlagPasswd, FlagUsername;
    var c, w := Bit(cfg.cleanSession), Bit(cfg.willTopic != []);
    LowFlags(c, w);
    if w == 1 {
      WillFlags(2 * c + 4, cfg.willQos, Bit(cfg.willRetain));
    }
    if cfg.username != [] {
      LoginFlags(WillValue(cfg), Bit(cfg.password != []));
    }
  }

  /** The flags of the sum read back; the decoder's divisions pick out the summands. */
  lemma FlagsReadBack(cfg: Config)
    requires cfg.willTopic == [] || cfg.willQos < 4
    ensures var f := FlagsValue(cfg);
            && f % 2 == 0
            && f / 2 % 2 == Bit(cfg.cleanSession)
            && f / 4 % 2 == Bit(cfg.willTopic != [])
            && f / 8 % 4 == (if cfg.willTopic == [] then 0 else cfg.willQos)
            && f / 32 % 2 == (if cfg.willTopic == [] then 0 else Bit(cfg.willRetain))
            && f / 64 % 2 == (if cfg.username == [] then 0 else Bit(cfg.password != []))
            && f / 128 % 2 == Bit(cfg.username != [])
  {
    var will, login := cfg.willTopic != [], cfg.username != [];
    FlagDigits(Bit(cfg.cleanSession), Bit(will), if will then cfg.willQos else 0,
               if will then Bit(cfg.willRetain) else 0, if login then Bit(cfg.password != []) else 0, Bit(login));
  }

  lemma FlagDigits(c: nat, w: nat, q: nat, r: nat, p: nat, u: nat)
    requires c < 2 && w < 2 && q < 4 && r < 2 && p < 2 && u < 2
    ensures var f := 2 * c + 4 * w + 8 * q + 32 * r + 64 * p + 128 * u;
            && f % 2 == 0 && f / 2 % 2 == c && f / 4 % 2 == w && f / 8 % 4 == q
            && f / 32 % 2 == r && f / 64 % 2 == p && f / 128 % 2 == u
  {
    var f := 2 * c + 4 * w + 8 * q + 32 * r + 64 * p + 128 * u;
    var f32 := r + 2 * p + 4 * u;
    assert f / 32 == f32;
    var f4 := w + 2 * q + 8 * f32;
    assert f / 4 == f4;
    assert f / 8 == q + 4 * f32;
    assert f / 2 == c + 2 * f4;
  }

  lemma TakeEncoded(x: seq<byte>, rest: seq<byte>)
    ensures TakeBytes(EncodeBytes(x) + rest) == Some((Clip(x), rest))
  {
    hide EncodeInt;
    IntRoundTrip(|Clip(x)|);
    var d := EncodeBytes(x) + rest;
    assert d[2..] == Clip(x) + rest;
  }

  lemma TakeEncodedInt(i: u16, rest: seq<byte>)
    ensures TakeInt(EncodeInt(i) + rest) == Some((i, rest))
  {
    hide EncodeInt;
    IntRoundTrip(i);
    assert (EncodeInt(i) + rest)[2..] == rest;
  }

  ghost function Part(present: bool, x: seq<byte>): seq<byte> {
    if present then EncodeBytes(x) else []
  }

  lemma TakeEncodedIf(present: bool, x: seq<byte>, rest: seq<byte>)
    ensures TakeIf(present, Part(present, x) + rest)
            == Some((if present then Some(Clip(x)) else None, rest))
  {
    hide EncodeBytes, TakeBytes;
    if present {
      TakeEncoded(x, rest);
    } else {
      assert [] + rest == rest;
    }
  }

  lemma PayloadDecodes(cfg: Config, keepAlive: u16)
    requires cfg.willTopic == [] || cfg.willQos < 4
    ensures DecodePayload(Level(cfg.version), FlagsValue(cfg), keepAlive,
                          EncodeBytes(cfg.clientId) + WillFields(cfg) + LoginFields(cfg))
            == Some(Requested(cfg, keepAlive))
  {
    hide EncodeBytes, TakeBytes, TakeIf, FlagsValue, Part, Clip;
    FlagsReadBack(cfg);
    var will, user, pass := cfg.willTopic != [], cfg.username != [], cfg.username != [] && cfg.password != [];
    var d4 := Part(pass, cfg.password) + [];
    var d3 := Part(user, cfg.username) + d4;
    var d2 := Part(will, cfg.willMessage) + d3;
    var d1 := Part(will, cfg.willTopic) + d2;
    PayloadParts(cfg);
    TakeEncoded(cfg.clientId, d1);
    TakeEncodedIf(will, cfg.willTopic, d2);
    TakeEncodedIf(will, cfg.willMessage, d3);
    TakeEncodedIf(user, cfg.username, d4);
    TakeEncodedIf(pass, cfg.password, []);
  }

  lemma PayloadParts(cfg: Config)
    ensures var will, user := cfg.willTopic != [], cfg.username != [];
            EncodeBytes(cfg.clientId) + WillFields(cfg) + LoginFields(cfg)
            == EncodeBytes(cfg.clientId)
               + (Part(will, cfg.willTopic)
                  + (Part(will, cfg.willMessage)
                     + (Part(user, cfg.username) + (Part(user && cfg.password != [], cfg.password) + []))))
  {
    hide EncodeBytes;
  }

  /** The fixed part of the packet is read off whatever the rest is. */
  lemma HeadDecodes(cfg: Config, keepAlive: u16)
    ensures var d := ConnectFrame(cfg, keepAlive).data;
            var tail := EncodeBytes(cfg.clientId) + WillFields(cfg) + LoginFields(cfg);
            var flags := ConnectFlags(cfg);
            DecodeConnect(d) == if FlagsAllowed(flags) then DecodePayload(Level(cfg.version), flags, keepAlive, tail) else None
  {
    hide EncodeBytes, EncodeInt, TakeBytes, TakeInt, DecodePayload, FlagsAllowed, ConnectFlags, WillFields, LoginFields;
    var flags := ConnectFlags(cfg);
    var tail := EncodeBytes(cfg.clientId) + WillFields(cfg) + LoginFields(cfg);
    var d3 := EncodeInt(keepAlive) + tail;
    var d2 := [flags] + d3;
    var d1 := [Level(cfg.version)] + d2;
    assert ConnectFrame(cfg, keepAlive).data == EncodeBytes(Magic(cfg.version)) + d1;
    TakeEncoded(Magic(cfg.version), d1);
    assert d1[1..] == d2 && d2[1..] == d3;
    TakeEncodedInt(keepAlive, tail);
  }

  /** Whatever the will QoS, its two low bits are what arrives as the will QoS. */
  lemma WillQosArrives(cfg: Config)
    requires cfg.willTopic != []
    ensures ConnectFlags(cfg) / 8 % 4 == cfg.willQos % 4
  {
    hide FlagCleanSess, FlagWill, FlagWillQos, FlagWillRetain, FlagPasswd, FlagUsername;
    var c, r, p := Bit(cfg.cleanSession), Bit(cfg.willRetain), Bit(cfg.password != []);
    LowFlags(c, 1);
    var f := 2 * c + 4;
    var g := FlagWillQos(f, cfg.willQos);
    var h := FlagWillRetain(g, r);
    WillQosSet(f, cfg.willQos);
    WillQosKept(g, r);
    WillQosKept(h, 1);
    WillQosKept(FlagUsername(h, 1), p);
  }

  lemma WillQosSet(f: byte, q: byte)
    requires f < 8
    ensures FlagWillQos(f, q) / 8 % 4 == q % 4
  {
    hide Or, Shl;
    ShlIsMul(q, 3);
    Constants();
    OrWillQos(f, 8 * q);
  }

  lemma WillQosKept(f: byte, b: byte)
    requires b < 2
    ensures FlagWillRetain(f, b) / 8 % 4 == f / 8 % 4
    ensures FlagPasswd(f, b) / 8 % 4 == f / 8 % 4
    ensures FlagUsername(f, b) / 8 % 4 == f / 8 % 4
  {
    hide Or, Shl, ToByte;
    ShlIsMul(b, 5);
    ShlIsMul(b, 6);
    ShlIsMul(b, 7);
    Constants();
    OrWillQos(f, 32 * b);
    OrWillQos(f, 64 * b);
    OrWillQos(f, 128 * b);
  }

  lemma OrWillQos(a: nat, b: nat)
    ensures a / 8 % 4 == 0 ==> ToByte(Or(a, b)) / 8 % 4 == b / 8 % 4
    ensures b / 8 % 4 == 0 ==> ToByte(Or(a, b)) / 8 % 4 == a / 8 % 4
  {
    hide Or, Low, Shr, Pow2;
    Constants();
    OrField(a, b, 2, 3);
    WillQosBits(a);
    WillQosBits(b);
    WillQosBits(Or(a, b));
    OrZero(a / 8 % 4);
    OrZero(b / 8 % 4);
    WillQosInByte(Or(a, b));
  }

  lemma WillQosBits(a: nat)
    ensures Low(Shr(a, 3), 2) == a / 8 % 4
  {
    hide Low, Shr, Pow2;
    Constants();
    LowIsMod(Shr(a, 3), 2);
    ShrIsDiv(a, 3);
  }

  lemma WillQosInByte(a: nat)
    ensures ToByte(a) / 8 % 4 == a / 8 % 4
  {
    var k, m := a / 256, a % 256;
    assert a / 8 == 4 * (8 * k) + m / 8;
    AddFours(8 * k, m / 8);
  }

  lemma AddFours(k: nat, x: nat)
    ensures (4 * k + x) % 4 == x % 4
  {
  }

  /** The decoder recovers every setting exactly when there is no will or its QoS is 0, 1 or 2. */
  lemma ConnectDecodesIff(cfg: Config, keepAlive: u16)
    ensures DecodeConnect(ConnectFrame(cfg, keepAlive).data) == Some(Requested(cfg, keepAlive))
            <==> cfg.willTopic == [] || cfg.willQos <= 2
  {
    hide EncodeBytes, EncodeInt, ConnectFrame, ConnectFlags, DecodeConnect, DecodePayload;
    HeadDecodes(cfg, keepAlive);
    if cfg.willTopic == [] || cfg.willQos <= 2 {
      ConnectFlagsValue(cfg);
      FlagsReadBack(cfg);
      PayloadDecodes(cfg, keepAlive);
    } else {
      WillQosArrives(cfg);
      WillQosDecoded(Level(cfg.version), ConnectFlags(cfg), keepAlive,
                     EncodeBytes(cfg.clientId) + WillFields(cfg) + LoginFields(cfg));
    }
  }

  /** Whatever else is in it, a CONNECT that is accepted says the keep alive it was built with. */
  lemma KeepAliveDecodes(cfg: Config, keepAlive: u16)
    ensures var packet := DecodeConnect(ConnectFrame(cfg, keepAlive).data);
            packet.Some? ==> packet.value.keepAlive == keepAlive
  {
    hide EncodeBytes, EncodeInt, ConnectFrame, ConnectFlags, DecodeConnect, TakeBytes, TakeIf;
    HeadDecodes(cfg, keepAlive);
  }

  lemma ConnectHeader(cfg: Config, keepAlive: u16)
    ensures ConnectFrame(cfg, keepAlive).header == CONNECT
  {
  }

  lemma WillQosDecoded(level: byte, flags: byte, keepAlive: u16, d: seq<byte>)
    ensures var r := DecodePayload(level, flags, keepAlive, d);
            r.Some? && r.value.will.Some? ==> r.value.will.value.qos == flags / 8 % 4
  {
    hide TakeBytes, TakeIf;
  }
}
