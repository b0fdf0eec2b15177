/** The client: what it keeps between events, and what each event makes it do. */
module Client {
  import opened Bits
  import opened Frames
  import opened Wrappers
  import opened Packets
  import opened Connect

  datatype ConnectionState = StateInit | StateConnecting | StateConnected | StateDisconnected

  datatype ClientError = UnknownError | SocketProxyAuthenticationRequired | OtherSocketError(code: nat)
                       | UnacceptableProtocolVersion | IdentifierRejected | ServerUnavailable
                       | BadUserNameOrPassword | NotAuthorized | NoPingResponse

  datatype Signal = Connected | Disconnected | Error(error: ClientError)
                  | Published(message: Message, mid: u16) | Received(message: Message)
                  | Subscribed(topic: seq<byte>, qos: byte) | Unsubscribed(topic: seq<byte>) | Pingresp

  /** What an event hands to the network and to the application, in order. */
  datatype Action = Send(frame: RawFrame) | Emit(signal: Signal) | OpenSocket | CloseSocket

  /** A single-shot timer, in milliseconds; due is set while it runs. */
  datatype Timer = Timer(interval: nat, due: Option<nat>) {
    function Start(now: nat): Timer { this.(due := Some(now + interval)) }
    function Stop(): Timer { this.(due := None) }
    // A running timer starts over when its interval is set.
    function SetInterval(ms: nat, now: nat): Timer {
      Timer(ms, if due.Some? then Some(now + ms) else None)
    }
  }

  datatype ClientState = ClientState(gmid: u16, connection: ConnectionState,
                                     midToTopic: map<u16, seq<byte>>, midToMessage: map<u16, Message>,
                                     timer: Timer, pingResponseTimer: Timer)

  datatype Outcome = Outcome(state: ClientState, out: seq<Action>)

  // ---------------------------------------------------------------------------
  // What each event does, on values

  function MidAfter(gmid: u16): u16 {
    var g := (gmid + 1) % 0x1_0000;
    if g == 0 then 1 else g
  }

  function Sending(c: ClientState, f: RawFrame, now: nat): Outcome {
    Outcome(c.(timer := c.timer.Start(now)), [Send(f)])
  }

  /** Whether publishing m draws an identifier, and which one it goes out under. */
  predicate DrawsMid(m: Message) {
    m.qos > QOS0 && m.id == 0
  }

  function PublishMid(c: ClientState, m: Message): u16 {
    if DrawsMid(m) then c.gmid else m.id
  }

  function Publishing(c: ClientState, m: Message, now: nat): Outcome {
    var mid := PublishMid(c, m);
    var d := c.(gmid := if DrawsMid(m) then MidAfter(c.gmid) else c.gmid, timer := c.timer.Start(now));
    var f := PublishFrame(m, mid);
    if m.qos == QOS0 then Outcome(d, [Send(f), Emit(Published(m, mid))])
    else Outcome(d.(midToMessage := c.midToMessage[mid := m]), [Send(f)])
  }

  function Requesting(c: ClientState, f: RawFrame, topic: seq<byte>, now: nat): Outcome {
    Outcome(c.(gmid := MidAfter(c.gmid), timer := c.timer.Start(now), midToTopic := c.midToTopic[c.gmid := topic]), [Send(f)])
  }

  function Subscribing(c: ClientState, topic: seq<byte>, qos: byte, now: nat): Outcome {
    Requesting(c, SubscribeFrame(c.gmid, topic, qos), topic, now)
  }

  function Unsubscribing(c: ClientState, topic: seq<byte>, now: nat): Outcome {
    Requesting(c, UnsubscribeFrame(c.gmid, topic), topic, now)
  }

  function Disconnecting(c: ClientState, now: nat): Outcome {
    Outcome(c.(connection := StateDisconnected, timer := c.timer.Start(now)),
            [Send(RawFrame(DISCONNECT, [])), CloseSocket])
  }

  function NetworkLost(c: ClientState): Outcome {
    Outcome(ClientState(c.gmid, StateDisconnected, map[], map[], c.timer.Stop(), c.pingResponseTimer.Stop()),
            [Emit(Disconnected)])
  }

  /** The keep-alive timer, which has just run out. */
  function PingDue(c: ClientState, now: nat): Outcome {
    if c.connection != StateConnected then Outcome(c.(timer := c.timer.Stop()), [])
    else
      Outcome(c.(timer := c.timer.Start(now), pingResponseTimer := c.pingResponseTimer.Start(now)),
              [Send(RawFrame(PINGREQ, []))])
  }

  /** The ping response timer, which has just run out. */
  function PingTimeout(c: ClientState, now: nat): Outcome {
    var d := Disconnecting(c.(pingResponseTimer := c.pingResponseTimer.Stop()), now);
    Outcome(d.state, [Emit(Error(NoPingResponse))] + d.out)
  }

  function ConnackError(code: byte): ClientError {
    match code
    case 1 => UnacceptableProtocolVersion
    case 2 => IdentifierRejected
    case 3 => ServerUnavailable
    case 4 => BadUserNameOrPassword
    case 5 => NotAuthorized
    case _ => UnknownError
  }

  function Connacked(c: ClientState, code: byte): Outcome {
    if code == 0 then Outcome(c.(connection := StateConnected), [Emit(Connected)])
    else Outcome(c, [Emit(Error(ConnackError(code)))])
  }

  function Answering(c: ClientState, header: byte, mid: u16, now: nat): Outcome {
    Sending(c, AckFrame(header, mid), now)
  }

  function MessageArrived(c: ClientState, m: Message, now: nat): Outcome {
    if m.qos == QOS1 then
      var o := Answering(c, PUBACK, m.id, now);
      Outcome(o.state, o.out + [Emit(Received(m))])
    else if m.qos == QOS2 then
      var o := Answering(c, PUBREC, m.id, now);
      Outcome(o.state, o.out + [Emit(Received(m))])
    else
      Outcome(c, [Emit(Received(m))])
  }

  /** The value taken out of a hash, or the default one. */
  function Lookup<T>(m: map<u16, T>, mid: u16, default: T): T {
    if mid in m then m[mid] else default
  }

  function Handshaking(c: ClientState, t: byte, mid: u16, now: nat): Outcome {
    if t == PUBREC then Answering(c, PUBREL_HEADER, mid, now)
    else if t == PUBREL then Answering(c, PUBCOMP, mid, now)
    else Outcome(c.(midToMessage := c.midToMessage - {mid}),
                 [Emit(Published(Lookup(c.midToMessage, mid, EMPTY_MESSAGE), mid))])
  }

  function Arrived(c: ClientState, f: RawFrame, now: nat): Outcome
    requires Readable(f)
  {
    var t := GetType(f.header);
    if t == CONNACK then Connacked(c, f.data[1])
    else if t == PUBLISH then MessageArrived(c, ParsePublish(f), now)
    else if t == PUBACK || t == PUBREC || t == PUBREL || t == PUBCOMP then Handshaking(c, t, FrameMid(f), now)
    else if t == SUBACK then
      Outcome(c.(midToTopic := c.midToTopic - {FrameMid(f)}),
              [Emit(Subscribed(Lookup(c.midToTopic, FrameMid(f), []), f.data[2]))])
    else if t == UNSUBACK then
      Outcome(c.(midToTopic := c.midToTopic - {FrameMid(f)}),
              [Emit(Unsubscribed(Lookup(c.midToTopic, FrameMid(f), [])))])
    else if t == PINGRESP then Outcome(c.(pingResponseTimer := c.pingResponseTimer.Stop()), [Emit(Pingresp)])
    else Outcome(c, [])
  }

  /** qBound(keepAlive * 100, 10000, keepAlive * 1000): ten seconds, but at least a tenth of the keep
      alive interval, and never more than all of it. */
  function PingResponseInterval(keepAlive: u16): nat {
    var ms := if 10000 < keepAlive * 1000 then 10000 else keepAlive * 1000;
    if keepAlive * 100 > ms then keepAlive * 100 else ms
  }

  /** The keep alive in seconds that goes with an interval of the keep-alive timer. */
  function KeepAliveOf(interval: nat): u16 {
    interval / 1000 % 0x1_0000
  }

  lemma KeepAliveOfInterval(keepAlive: u16)
    ensures KeepAliveOf(keepAlive * 1000) == keepAlive
  {
  }

  // ---------------------------------------------------------------------------
  // The object

  class ClientPrivate {
    var config: Config
    var gmid: u16
    var connection: ConnectionState
    var midToTopic: map<u16, seq<byte>>
    var midToMessage: map<u16, Message>
    var timer: Timer
    var pingResponseTimer: Timer

    ghost function State(): ClientState
      reads this
    {
      ClientState(gmid, connection, midToTopic, midToMessage, timer, pingResponseTimer)
    }

    constructor (config: Config)
      ensures this.config == config
      ensures State() == ClientState(1, StateInit, map[], map[], Timer(300000, None), Timer(30000, None))
      ensures KeepAlive() == 300
    {
      this.config := config;
      gmid, connection := 1, StateInit;
      midToTopic, midToMessage := map[], map[];
      timer, pingResponseTimer := Timer(0, None), Timer(0, None);
      new;
      SetKeepAlive(300, 0);
    }

    method SetKeepAlive(keepAlive: u16, now: nat)
      modifies this`timer, this`pingResponseTimer
      // a running timer starts over
      ensures timer == Timer(keepAlive * 1000, if old(timer).due.Some? then Some(now + keepAlive * 1000) else None)
      ensures var ms := PingResponseInterval(keepAlive);
              pingResponseTimer == Timer(ms, if old(pingResponseTimer).due.Some? then Some(now + ms) else None)
      ensures KeepAlive() == keepAlive
    {
      KeepAliveOfInterval(keepAlive);
      timer := timer.SetInterval(keepAlive * 1000, now);
      pingResponseTimer := pingResponseTimer.SetInterval(PingResponseInterval(keepAlive), now);
    }

    function KeepAlive(): u16
      reads this
    {
      KeepAliveOf(timer.interval)
    }

    method NextMid() returns (mid: u16)
      modifies this`gmid
      ensures mid == old(gmid) && gmid == MidAfter(old(gmid))
    {
      mid := gmid;
      gmid := (gmid + 1) % 0x1_0000;
      if gmid == 0 {
        gmid := gmid + 1;
      }
    }

    method SendFrame(f: Frame, now: nat) returns (out: seq<Action>)
      modifies this`timer
      ensures Outcome(State(), out) == Sending(old(State()), f.Value(), now)
    {
      out := [Send(RawFrame(f.header, f.data))];
      timer := timer.Start(now);
    }

    method ConnectToHost() returns (out: seq<Action>)
      modifies this`connection
      ensures Outcome(State(), out) == Outcome(old(State()).(connection := StateConnecting), [OpenSocket])
    {
      connection := StateConnecting;
      out := [OpenSocket];
    }

    method OnNetworkConnected(now: nat) returns (out: seq<Action>)
      modifies this`timer
      ensures Outcome(State(), out) == Sending(old(State()), ConnectFrame(config, old(KeepAlive())), now)
      // what CONNECT announces is what the timer is set to
      ensures forall k: u16 :: old(timer.interval) == k * 1000 ==>
                out == [Send(ConnectFrame(config, k))] && timer == Timer(k * 1000, Some(now + k * 1000))
    {
      forall k: u16
        ensures KeepAliveOf(k * 1000) == k
      {
        KeepAliveOfInterval(k);
      }
      out := SendConnect(now);
    }

    method BuildConnectFlags() returns (flags: byte)
      ensures flags == ConnectFlags(config)
    {
      hide FlagCleanSess, FlagWill, FlagWillQos, FlagWillRetain, FlagPasswd, FlagUsername;
      flags := 0;
      flags := FlagCleanSess(flags, if config.cleanSession then 1 else 0);
      flags := FlagWill(flags, if config.willTopic == [] then 0 else 1);
      if config.willTopic != [] {
        flags := FlagWillQos(flags, config.willQos);
        flags := FlagWillRetain(flags, if config.willRetain then 1 else 0);
      }
      if config.username != [] {
        flags := FlagUsername(flags, 1);
        flags := FlagPasswd(flags, if config.password != [] then 1 else 0);
      }
    }

    method SendConnect(now: nat) returns (out: seq<Action>)
      modifies this`timer
      ensures Outcome(State(), out) == Sending(old(State()), ConnectFrame(config, old(KeepAlive())), now)
    {
      hide ConnectFlags, EncodeInt, EncodeBytes, WillFields, LoginFields;
      var flags := BuildConnectFlags();
      var frame := new Frame(CONNECT, []);
      frame.WriteByteArray(if config.version == V3_1_1 then PROTOCOL_MAGIC_3_1_1 else PROTOCOL_MAGIC_3_1_0);
      assert frame.data == EncodeBytes(Magic(config.version));
      frame.WriteChar(if config.version == V3_1_1 then 4 else 3);
      frame.WriteChar(flags);
      frame.WriteInt(KeepAlive());
      frame.WriteByteArray(config.clientId);
      WriteWill(frame);
      WriteLogin(frame);
      out := SendFrame(frame, now);
    }

    method WriteWill(frame: Frame)
      modifies frame`data
      ensures frame.data == old(frame.data) + WillFields(config)
    {
      hide EncodeBytes;
      if config.willTopic != [] {
        frame.WriteByteArray(config.willTopic);
        frame.WriteByteArray(config.willMessage);
      }
    }

    method WriteLogin(frame: Frame)
      modifies frame`data
      ensures frame.data == old(frame.data) + LoginFields(config)
    {
      hide EncodeBytes;
      if config.username != [] {
        frame.WriteByteArray(config.username);
        if config.password != [] {
          frame.WriteByteArray(config.password);
        }
      }
    }

    method SendPublish(m: Message, now: nat) returns (msgid: u16, out: seq<Action>)
      modifies this`gmid, this`timer
      ensures msgid == PublishMid(old(State()), m)
      ensures State() == old(State()).(gmid := if DrawsMid(m) then MidAfter(old(gmid)) else old(gmid),
                                       timer := old(timer).Start(now))
      ensures out == [Send(PublishFrame(m, msgid))]
    {
      hide SetRetain, SetQos, SetDup, EncodeInt, EncodeBytes;
      msgid := m.id;
      var header := SetRetain(PUBLISH, if m.retain then 1 else 0);
      header := SetQos(header, m.qos);
      header := SetDup(header, if m.dup then 1 else 0);
      var frame := new Frame(header, []);
      frame.WriteByteArray(m.topic);
      assert frame.data == EncodeBytes(m.topic);
      if m.qos > QOS0 {
        if msgid == 0 {
          msgid := NextMid();
        }
        frame.WriteInt(msgid);
      }
      if m.payload != [] {
        frame.WriteRawData(m.payload);
      }
      assert frame.data == EncodeBytes(m.topic) + (if m.qos > QOS0 then EncodeInt(msgid) else []) + m.payload;
      out := SendFrame(frame, now);
    }

    method Publish(m: Message, now: nat) returns (msgid: u16, out: seq<Action>)
      modifies this`gmid, this`timer, this`midToMessage
      ensures msgid == PublishMid(old(State()), m)
      ensures Outcome(State(), out) == Publishing(old(State()), m, now)
    {
      msgid, out := SendPublish(m, now);
      if m.qos == QOS0 {
        out := out + [Emit(Published(m, msgid))];
      } else {
        midToMessage := midToMessage[msgid := m];
      }
    }

    method SendPuback(header: byte, mid: u16, now: nat) returns (out: seq<Action>)
      modifies this`timer
      ensures Outcome(State(), out) == Answering(old(State()), header, mid, now)
    {
      var frame := new Frame(header, []);
      frame.WriteInt(mid);
      assert frame.data == EncodeInt(mid);
      out := SendFrame(frame, now);
    }

    method Subscribe(topic: seq<byte>, qos: byte, now: nat) returns (out: seq<Action>)
      modifies this`gmid, this`timer, this`midToTopic
      ensures Outcome(State(), out) == Subscribing(old(State()), topic, qos, now)
    {
      hide SetQos, EncodeInt, EncodeBytes;
      var mid := NextMid();
      var frame := new Frame(SetQos(SUBSCRIBE, QOS1), []);
      frame.WriteInt(mid);
      assert frame.data == EncodeInt(mid);
      frame.WriteByteArray(topic);
      frame.WriteChar(qos);
      out := SendFrame(frame, now);
      midToTopic := midToTopic[mid := topic];
    }

    method Unsubscribe(topic: seq<byte>, now: nat) returns (out: seq<Action>)
      modifies this`gmid, this`timer, this`midToTopic
      ensures Outcome(State(), out) == Unsubscribing(old(State()), topic, now)
    {
      hide SetQos, EncodeInt, EncodeBytes;
      var mid := NextMid();
      var frame := new Frame(SetQos(UNSUBSCRIBE, QOS1), []);
      frame.WriteInt(mid);
      assert frame.data == EncodeInt(mid);
      frame.WriteByteArray(topic);
      out := SendFrame(frame, now);
      midToTopic := midToTopic[mid := topic];
    }

    method DisconnectFromHost(now: nat) returns (out: seq<Action>)
      modifies this`connection, this`timer
      ensures Outcome(State(), out) == Disconnecting(old(State()), now)
    {
      connection := StateDisconnected;
      var frame := new Frame(DISCONNECT, []);
      out := SendFrame(frame, now);
      out := out + [CloseSocket];
    }

    /** Slot of the keep-alive timer; a single-shot timer is no longer running when it fires. */
    method OnTimerPingReq(now: nat) returns (out: seq<Action>)
      modifies this`timer, this`pingResponseTimer
      ensures Outcome(State(), out) == PingDue(old(State()), now)
    {
      timer := timer.Stop();
      if connection != StateConnected {
        return [];
      }
      var frame := new Frame(PINGREQ, []);
      out := SendFrame(frame, now);
      pingResponseTimer := pingResponseTimer.Start(now);
    }

    method OnPingTimeout(now: nat) returns (out: seq<Action>)
      modifies this`connection, this`timer, this`pingResponseTimer
      ensures Outcome(State(), out) == PingTimeout(old(State()), now)
    {
      pingResponseTimer := pingResponseTimer.Stop();
      var rest := DisconnectFromHost(now);
      out := [Emit(Error(NoPingResponse))] + rest;
    }

    method StopKeepAlive()
      modifies this`timer, this`pingResponseTimer
      ensures timer == old(timer).Stop() && pingResponseTimer == old(pingResponseTimer).Stop()
    {
      timer := timer.Stop();
      pingResponseTimer := pingResponseTimer.Stop();
    }

    method OnNetworkDisconnected() returns (out: seq<Action>)
      modifies this
      ensures Outcome(State(), out) == NetworkLost(old(State())) && config == old(config)
    {
      StopKeepAlive();
      midToTopic := map[];
      midToMessage := map[];
      connection := StateDisconnected;
      out := [Emit(Disconnected)];
    }

    method OnNetworkReceived(f: RawFrame, now: nat) returns (out: seq<Action>)
      requires Readable(f)
      modifies this
      ensures Outcome(State(), out) == Arrived(old(State()), f, now) && config == old(config)
    {
      hide And, Or, Shr, Shl;
      var frame := new Frame(f.header, f.data);
      var t := GetType(f.header);
      if t == CONNACK {
        var flags := frame.ReadChar();
        var code := frame.ReadChar();
        out := HandleConnack(code);
      } else if t == PUBLISH {
        var qos := GetQos(f.header);
        var topic := frame.ReadByteArray();
        var mid := 0;
        if qos > QOS0 {
          mid := frame.ReadInt();
        }
        QosField(f.header);
        out := HandlePublish(Message(mid, topic, frame.data, qos, GetRetain(f.header) != 0, GetDup(f.header) != 0), now);
      } else if t == PUBACK || t == PUBREC || t == PUBREL || t == PUBCOMP {
        var mid := frame.ReadInt();
        out := HandlePuback(t, mid, now);
      } else if t == SUBACK {
        var mid := frame.ReadInt();
        var topic := Lookup(midToTopic, mid, []);
        midToTopic := midToTopic - {mid};
        var qos := frame.ReadChar();
        out := [Emit(Subscribed(topic, qos))];
      } else if t == UNSUBACK {
        var mid := frame.ReadInt();
        var topic := Lookup(midToTopic, mid, []);
        midToTopic := midToTopic - {mid};
        out := [Emit(Unsubscribed(topic))];
      } else if t == PINGRESP {
        pingResponseTimer := pingResponseTimer.Stop();
        out := [Emit(Pingresp)];
      } else {
        out := [];
      }
    }

    method HandleConnack(ack: byte) returns (out: seq<Action>)
      modifies this`connection
      ensures Outcome(State(), out) == Connacked(old(State()), ack)
    {
      match ack
      case 0 =>
        connection := StateConnected;
        out := [Emit(Connected)];
      case 1 => out := [Emit(Error(UnacceptableProtocolVersion))];
      case 2 => out := [Emit(Error(IdentifierRejected))];
      case 3 => out := [Emit(Error(ServerUnavailable))];
      case 4 => out := [Emit(Error(BadUserNameOrPassword))];
      case 5 => out := [Emit(Error(NotAuthorized))];
      case _ => out := [Emit(Error(UnknownError))];
    }

    method HandlePublish(m: Message, now: nat) returns (out: seq<Action>)
      modifies this`timer
      ensures Outcome(State(), out) == MessageArrived(old(State()), m, now)
    {
      out := [];
      if m.qos == QOS1 {
        out := SendPuback(PUBACK, m.id, now);
      } else if m.qos == QOS2 {
        out := SendPuback(PUBREC, m.id, now);
      }
      out := out + [Emit(Received(m))];
    }

    method HandlePuback(t: byte, mid: u16, now: nat) returns (out: seq<Action>)
      requires t == PUBACK || t == PUBREC || t == PUBREL || t == PUBCOMP
      modifies this`timer, this`midToMessage
      ensures Outcome(State(), out) == Handshaking(old(State()), t, mid, now)
    {
      if t == PUBREC {
        out := SendPuback(SetQos(PUBREL, QOS1), mid, now);
      } else if t == PUBREL {
        out := SendPuback(PUBCOMP, mid, now);
      } else {
        var m := Lookup(midToMessage, mid, EMPTY_MESSAGE);
        midToMessage := midToMessage - {mid};
        out := [Emit(Published(m, mid))];
      }
    }
  }

  // ---------------------------------------------------------------------------
  // Answers of the broker

  // The refusals of table 3.1 in section 3.2.2.3 of MQTT 3.1.1, from return code 1 on.
  const REFUSALS: seq<ClientError> :=
    [UnacceptableProtocolVersion, IdentifierRejected, ServerUnavailable, BadUserNameOrPassword, NotAuthorized]

  /** CONNACK connects the client at return code 0 and says so. Any other code is reported as the error it
      stands for, or an unknown one if it is reserved, and changes nothing. */
  lemma ConnackArrives(c: ClientState, flags: byte, code: byte, now: nat)
    ensures var f := RawFrame(CONNACK, [flags, code]);
            && Readable(f)
            && var o := Arrived(c, f, now);
               && (o.out == [Emit(Connected)] <==> code == 0)
               && (o.state == c.(connection := StateConnected) || code != 0)
               && (code != 0 ==> o.state == c)
               && (1 <= code <= 5 ==> o.out == [Emit(Error(REFUSALS[code - 1]))])
               && (code > 5 ==> o.out == [Emit(Error(UnknownError))])
  {
    hide GetType;
    TypeField(CONNACK);
  }

  /** SUBACK reports the topic kept under its identifier with the QoS granted, and UNSUBACK the topic. */
  lemma TopicAckArrives(c: ClientState, mid: u16, code: byte, now: nat)
    requires mid in c.midToTopic
    ensures Readable(SubackFrame(mid, code)) && Readable(AckFrame(UNSUBACK, mid))
    ensures Arrived(c, SubackFrame(mid, code), now)
            == Outcome(c.(midToTopic := c.midToTopic - {mid}), [Emit(Subscribed(c.midToTopic[mid], code))])
    ensures Arrived(c, AckFrame(UNSUBACK, mid), now)
            == Outcome(c.(midToTopic := c.midToTopic - {mid}), [Emit(Unsubscribed(c.midToTopic[mid]))])
  {
    hide GetType, EncodeInt, DecodeInt;
    TypeField(SUBACK);
    TypeField(UNSUBACK);
    AckParses(UNSUBACK, mid);
    RequestParses(mid, [], code);
  }

  // ---------------------------------------------------------------------------
  // Deliveries from the broker

  /** A delivered message reaches the application as it was sent, and is answered once, under its
      own identifier: by PUBACK at QoS 1, PUBREC at QoS 2, and not at all at QoS 0. */
  lemma DeliveryAnswered(c: ClientState, m: Message, mid: u16, now: nat)
    requires m.qos <= QOS2
    ensures var f := PublishFrame(m, mid);
            && Readable(f)
            && var o := Arrived(c, f, now);
               && o.out == (if m.qos == QOS0 then [] else [Send(AckFrame(if m.qos == QOS1 then PUBACK else PUBREC, mid))])
                           + [Emit(Received(m.(id := if m.qos > QOS0 then mid else 0, topic := Clip(m.topic))))]
               && o.state == if m.qos == QOS0 then c else c.(timer := c.timer.Start(now))
  {
    hide GetType, GetQos, ParsePublish, AckFrame, PublishHeader, EncodeBytes, EncodeInt;
    PublishParses(m, mid);
    PublishHeaderFields(m);
  }

  /** The release of a QoS 2 delivery is answered by PUBCOMP under its identifier. */
  lemma ReleaseAnswered(c: ClientState, mid: u16, now: nat)
    ensures Readable(AckFrame(PUBREL_HEADER, mid))
    ensures Arrived(c, AckFrame(PUBREL_HEADER, mid), now)
            == Outcome(c.(timer := c.timer.Start(now)), [Send(AckFrame(PUBCOMP, mid))])
  {
    hide GetType, DecodeInt, EncodeInt, SetQos;
    PubrelHeader();
    TypeField(PUBREL_HEADER);
    AckParses(PUBREL_HEADER, mid);
  }

  // ---------------------------------------------------------------------------
  // Packet identifiers

  /** The identifier of the k-th draw of a client, counted from 0. */
  ghost function DrawnMid(k: nat): u16 {
    if k == 0 then 1 else MidAfter(DrawnMid(k - 1))
  }

  /** In closed form: identifiers run through 1 to 65535 and start over, never 0. */
  lemma {:induction false} DrawnMidIs(k: nat)
    ensures DrawnMid(k) == k % 65535 + 1
  {
    hide MidAfter;
    if k > 0 {
      DrawnMidIs(k - 1);
      MidAfterIs(DrawnMid(k - 1));
      NextRemainder(k - 1, 65535);
    }
  }

  lemma MidAfterIs(gmid: u16)
    ensures MidAfter(gmid) == if gmid == 65535 then 1 else gmid + 1
  {
  }

  lemma NextRemainder(a: nat, d: nat)
    requires d > 0
    ensures (a + 1) % d == if a % d == d - 1 then 0 else a % d + 1
  {
    var q, r := a / d, a % d;
    EuclideanDivision(a, d);
    if r == d - 1 {
      assert a + 1 == (q + 1) * d + 0;
      DivUnique(a + 1, d, q + 1, 0);
    } else {
      DivUnique(a + 1, d, q, r + 1);
    }
  }

  /** Two draws get the same identifier exactly when a multiple of 65535 draws lies between them. */
  lemma MidsRepeat(j: nat, k: nat)
    ensures DrawnMid(j) == DrawnMid(k) <==> (k - j) % 65535 == 0
  {
    DrawnMidIs(j);
    DrawnMidIs(k);
    SameRemainder(j, k, 65535);
  }

  lemma SameRemainder(a: nat, b: nat, d: nat)
    requires d > 0
    ensures a % d == b % d <==> (b - a) % d == 0
  {
    EuclideanDivision(a, d);
    EuclideanDivision(b, d);
    EuclideanDivision(b - a, d);
    var k := b / d - a / d;
    assert k * d == b / d * d - a / d * d;
    if a % d == b % d {
      DivUnique(b - a, d, k, 0);
    } else if (b - a) % d == 0 {
      var e := (b - a) / d - k;
      assert e * d == (b - a) / d * d - k * d;
      SmallMultiple(e, d);
    }
  }
}
