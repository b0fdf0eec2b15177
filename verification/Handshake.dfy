/** The publishing client and a broker that follows sections 4.3.2 and 4.3.3 of MQTT 3.1.1, with
    packets travelling in both directions, requests overlapping and the connection coming and going.

    A packet is answered or received whenever a step picks it, so first-in first-out channels are a
    special case of the runs considered here. */
module Handshake {
  import opened Bits
  import opened Frames
  import opened Wrappers
  import opened Packets
  import opened Client

  /** A publish, subscribe or unsubscribe, as it was made. */
  datatype Request = PublishRequest(mid: u16, message: Message)
                   | SubscribeRequest(mid: u16, topic: seq<byte>, qos: byte)
                   | UnsubscribeRequest(mid: u16, topic: seq<byte>)

  /** A packet on its way. tag is the number of the request it belongs to, for observation only;
      packets of handshakes the broker started have none. */
  datatype Flight = Flight(toBroker: bool, frame: RawFrame, tag: Option<nat>)

  /** A completion reported to the application: on receiving a packet with that tag, or, for a publish
      at QoS 0, in the step that makes the request with that number. */
  datatype Answer = Answer(tag: Option<nat>, signal: Signal)

  /** The socket is up from its connected to its disconnected signal, and closing from the moment the
      client or an error asked for its end. messageOwner and topicOwner record which request an entry of
      the client's two hashes is for, since how many requests had been made when the connection was
      last lost. */
  datatype World = World(c: ClientState, up: bool, closing: bool, wire: map<nat, Flight>, next: nat,
                         history: seq<Request>, since: nat,
                         messageOwner: map<u16, nat>, topicOwner: map<u16, nat>, answers: seq<Answer>)

  datatype Step = Publish(m: Message, now: nat)
                | Subscribe(topic: seq<byte>, qos: byte, now: nat)
                | Unsubscribe(topic: seq<byte>, now: nat)
                | Connect
                | Disconnect(now: nat)
                | PingDue(now: nat)
                | PingTimeout(now: nat)
                | NetworkUp(connect: RawFrame, now: nat)
                | NetworkDown
                | SocketError
                | BrokerAnswers(i: nat, code: byte)
                | BrokerSends(frame: RawFrame)
                | ClientReceives(i: nat, now: nat)

  /** The broker's answer to a packet of a handshake the client started. */
  function BrokerReply(f: RawFrame, code: byte): Option<RawFrame> {
    var t := GetType(f.header);
    if |f.data| < 2 then None
    else if t == PUBLISH then
      if !Readable(f) then None
      else if GetQos(f.header) == QOS1 then Some(AckFrame(PUBACK, ParsePublish(f).id))
      else if GetQos(f.header) == QOS2 then Some(AckFrame(PUBREC, ParsePublish(f).id))
      else None
    else if t == PUBREL then Some(AckFrame(PUBCOMP, FrameMid(f)))
    else if t == SUBSCRIBE then Some(SubackFrame(FrameMid(f), code))
    else if t == UNSUBSCRIBE then Some(AckFrame(UNSUBACK, FrameMid(f)))
    else None
  }

  /** What a broker sends on its own: deliveries, their releases, and answers without identifier. */
  predicate BrokerMaySend(f: RawFrame) {
    var t := GetType(f.header);
    Readable(f) && (t == PUBLISH || t == PUBREL || t == CONNACK || t == PINGRESP)
  }

  /** A frame handed to the network. It is dropped while the socket is down, or if it is too long, and
      the client's are dropped as soon as the socket is closing. */
  function Put(w: World, toBroker: bool, f: RawFrame, tag: Option<nat>): (v: World)
    ensures v == w.(wire := v.wire, next := v.next)
  {
    if w.up && !(toBroker && w.closing) && |f.data| <= MAX_REMAINING_LENGTH then
      w.(wire := w.wire[w.next := Flight(toBroker, f, tag)], next := w.next + 1)
    else w
  }

  function PutFirst(w: World, out: seq<Action>, tag: Option<nat>): (v: World)
    ensures v == w.(wire := v.wire, next := v.next)
  {
    if out != [] && out[0].Send? then Put(w, true, out[0].frame, tag) else w
  }

  /** The client, or an error, asks for the end of the connection. */
  function Close(w: World): World {
    w.(closing := w.up)
  }

  predicate IsCompletion(a: Action) {
    a.Emit? && (a.signal.Published? || a.signal.Subscribed? || a.signal.Unsubscribed?)
  }

  function Completions(out: seq<Action>, tag: Option<nat>): seq<Answer> {
    if out == [] then []
    else
      (if IsCompletion(out[0]) then [Answer(tag, out[0].signal)] else []) + Completions(out[1..], tag)
  }

  function Restrict(m: map<u16, nat>, keys: set<u16>): map<u16, nat> {
    map k | k in m && k in keys :: m[k]
  }

  /** An identifier the step chooses for a new request is not in use. */
  predicate IsFree(c: ClientState, s: Step) {
    match s
    case Publish(m, _) => m.qos > QOS0 ==> PublishMid(c, m) !in c.midToMessage
    case Subscribe(_, _, _) => c.gmid !in c.midToTopic
    case Unsubscribe(_, _) => c.gmid !in c.midToTopic
    case _ => true
  }

  /** The assumption of the theorems. */
  predicate Fresh(w: World, s: Step) {
    IsFree(w.c, s)
  }

  predicate Enabled(w: World, s: Step) {
    match s
    case Publish(m, _) => m.qos <= QOS2
    case NetworkUp(f, _) => !w.up && GetType(f.header) == CONNECT
    case BrokerAnswers(i, _) => i in w.wire && w.wire[i].toBroker
    case BrokerSends(f) => w.up && BrokerMaySend(f)
    case ClientReceives(i, _) => i in w.wire && !w.wire[i].toBroker && Readable(w.wire[i].frame)
    case _ => true
  }

  /** The client has reacted; whatever completions it reported count for tag. */
  function After(w: World, o: Outcome, tag: Option<nat>): (v: World)
    ensures v == w.(c := o.state, answers := v.answers)
  {
    w.(c := o.state, answers := w.answers + Completions(o.out, tag))
  }

  /** A request that awaits no acknowledgement. */
  function MakeInstant(w: World, r: Request, o: Outcome): (v: World)
    ensures v.history == w.history + [r] && v.c == o.state
  {
    PutFirst(After(w, o, Some(|w.history|)).(history := w.history + [r]), o.out, None)
  }

  function MakeRequest(w: World, r: Request, o: Outcome): (v: World)
    ensures v.history == w.history + [r] && v.c == o.state
  {
    var tag := |w.history|;
    var w1 := After(w, o, Some(tag)).(
                 history := w.history + [r],
                 messageOwner := if r.PublishRequest? then w.messageOwner[r.mid := tag] else w.messageOwner,
                 topicOwner := if r.PublishRequest? then w.topicOwner else w.topicOwner[r.mid := tag]);
    PutFirst(w1, o.out, Some(tag))
  }

  function Receive(w: World, i: nat, now: nat): World
    requires i in w.wire && Readable(w.wire[i].frame)
  {
    var flight := w.wire[i];
    var o := Arrived(w.c, flight.frame, now);
    var w1 := After(w, o, flight.tag).(
                 wire := w.wire - {i},
                 messageOwner := Restrict(w.messageOwner, o.state.midToMessage.Keys),
                 topicOwner := Restrict(w.topicOwner, o.state.midToTopic.Keys));
    PutFirst(w1, o.out, flight.tag)
  }

  function Next(w: World, s: Step): World
    requires Enabled(w, s)
  {
    match s
    case Publish(m, now) =>
      var o, made := Publishing(w.c, m, now), PublishRequest(PublishMid(w.c, m), m);
      if m.qos == QOS0 then MakeInstant(w, made, o) else MakeRequest(w, made, o)
    case Subscribe(topic, qos, now) =>
      MakeRequest(w, SubscribeRequest(w.c.gmid, topic, qos), Subscribing(w.c, topic, qos, now))
    case Unsubscribe(topic, now) =>
      MakeRequest(w, UnsubscribeRequest(w.c.gmid, topic), Unsubscribing(w.c, topic, now))
    case Connect => w.(c := w.c.(connection := StateConnecting))
    case Disconnect(now) =>
      var o := Disconnecting(w.c, now);
      Close(PutFirst(After(w, o, None), o.out, None))
    case PingDue(now) =>
      var o := Client.PingDue(w.c, now);
      PutFirst(After(w, o, None), o.out, None)
    case PingTimeout(now) =>
      var o := Client.PingTimeout(w.c, now);
      Close(PutFirst(After(w, o, None), o.out[1..], None))
    case NetworkUp(f, now) =>
      var o := Sending(w.c, f, now);
      PutFirst(After(w, o, None).(up := true, closing := false), o.out, None)
    case SocketError => Close(w)
    case NetworkDown =>
      After(w, NetworkLost(w.c), None).(
         up := false, closing := false, wire := map[], since := |w.history|,
         messageOwner := map[], topicOwner := map[])
    case BrokerAnswers(i, code) =>
      var w1 := w.(wire := w.wire - {i});
      var reply := BrokerReply(w.wire[i].frame, code);
      if reply.Some? then Put(w1, false, reply.value, w.wire[i].tag) else w1
    case BrokerSends(f) => Put(w, false, f, None)
    case ClientReceives(i, now) => Receive(w, i, now)
  }

  function Initial(c: ClientState): World {
    World(c.(midToTopic := map[], midToMessage := map[]), false, false, map[], 0, [], 0, map[], map[], [])
  }

  // ---------------------------------------------------------------------------
  // The invariant

  /** Messages and topics are kept in two tables that have nothing to do with each other. All that
      follows is about the requests of one kind, whatever becomes of the other. */
  datatype Kind = Messages | Topics

  function KindOf(r: Request): Kind {
    if r.PublishRequest? then Messages else Topics
  }

  /** The step makes a request of this kind. */
  predicate Makes(s: Step, kind: Kind) {
    match kind
    case Messages => s.Publish? && s.m.qos > QOS0
    case Topics => s.Subscribe? || s.Unsubscribe?
  }

  ghost predicate HasKind(w: World, tag: Option<nat>, kind: Kind) {
    tag.Some? && tag.value < |w.history| && KindOf(w.history[tag.value]) == kind
  }

  /** The one packet a request may have on the way, by how far its handshake has come. */
  ghost predicate Expected(r: Request, toBroker: bool, f: RawFrame) {
    match r
    case PublishRequest(mid, m) =>
      1 <= m.qos <= 2
      && if toBroker then f == PublishFrame(m, mid) || (m.qos == QOS2 && f == AckFrame(PUBREL_HEADER, mid))
         else if m.qos == QOS1 then f == AckFrame(PUBACK, mid)
         else f == AckFrame(PUBREC, mid) || f == AckFrame(PUBCOMP, mid)
    case SubscribeRequest(mid, topic, qos) =>
      if toBroker then f == SubscribeFrame(mid, topic, qos) else exists code: byte :: f == SubackFrame(mid, code)
    case UnsubscribeRequest(mid, topic) =>
      f == if toBroker then UnsubscribeFrame(mid, topic) else AckFrame(UNSUBACK, mid)
  }

  /** The request is still waiting for its final acknowledgement, with its entry in place. */
  ghost predicate Pending(w: World, t: nat) {
    && w.since <= t < |w.history|
    && var r := w.history[t];
       if r.PublishRequest? then r.mid in w.messageOwner && w.messageOwner[r.mid] == t
       else r.mid in w.topicOwner && w.topicOwner[r.mid] == t
  }

  /** A packet of a QoS 1 or 2 handshake started by the client. */
  predicate OfHandshake(toBroker: bool, f: RawFrame) {
    var t := GetType(f.header);
    && Readable(f)
    && if toBroker then (t == PUBLISH && GetQos(f.header) > QOS0) || t == PUBREL
       else t == PUBACK || t == PUBREC || t == PUBCOMP
  }

  function HandshakeMid(f: RawFrame): u16
    requires Readable(f) && |f.data| >= 2
  {
    if GetType(f.header) == PUBLISH then ParsePublish(f).id else FrameMid(f)
  }

  /** Packets outside the client's own handshakes. */
  ghost predicate Unrelated(toBroker: bool, f: RawFrame) {
    !OfHandshake(toBroker, f) && if toBroker then BrokerReply(f, 0) == None else BrokerMaySend(f)
  }

  /** The completion reports what was asked for. */
  ghost predicate Answers(r: Request, s: Signal) {
    match r
    case PublishRequest(mid, m) => s == Published(m, mid)
    case SubscribeRequest(_, topic, _) => s.Subscribed? && s.topic == topic
    case UnsubscribeRequest(_, topic) => s == Unsubscribed(topic)
  }

  ghost predicate Answered(w: World, t: nat) {
    exists k :: 0 <= k < |w.answers| && w.answers[k].tag == Some(t)
  }

  ghost predicate OwnersMatch(w: World) {
    && w.messageOwner.Keys == w.c.midToMessage.Keys
    && w.topicOwner.Keys == w.c.midToTopic.Keys
    && (forall mid :: mid in w.messageOwner ==>
          w.since <= w.messageOwner[mid] < |w.history|
          && w.history[w.messageOwner[mid]] == PublishRequest(mid, w.c.midToMessage[mid]))
    && (forall mid :: mid in w.topicOwner ==>
          && w.since <= w.topicOwner[mid] < |w.history|
          && var r := w.history[w.topicOwner[mid]];
             !r.PublishRequest? && r.mid == mid && r.topic == w.c.midToTopic[mid])
  }

  /** Every packet on the way belongs to the handshake of a request made since the connection was
      last lost, or to none; nothing is on the way while the socket is down. */
  ghost predicate WireMatches(w: World) {
    && w.since <= |w.history|
    && (forall i :: i in w.wire ==> i < w.next)
    && (!w.up ==> w.wire == map[] && !w.closing)
    && (forall i :: i in w.wire && w.wire[i].tag.Some? ==>
          && w.since <= w.wire[i].tag.value < |w.history|
          && Expected(w.history[w.wire[i].tag.value], w.wire[i].toBroker, w.wire[i].frame))
    && (forall i :: i in w.wire && w.wire[i].tag.None? ==> Unrelated(w.wire[i].toBroker, w.wire[i].frame))
  }

  ghost predicate AnswersTagged(w: World) {
    forall k :: 0 <= k < |w.answers| ==> w.answers[k].tag.Some? && w.answers[k].tag.value < |w.history|
  }

  /** Since the connection was last lost every request is either pending or answered, not both. */
  ghost predicate Settled(w: World, kind: Kind) {
    forall t: nat :: w.since <= t < |w.history| && KindOf(w.history[t]) == kind ==> (Pending(w, t) <==> !Answered(w, t))
  }

  /** A packet's request is pending, and no other packet belongs to it. */
  ghost predicate OnePacketEach(w: World, kind: Kind) {
    && (forall i :: i in w.wire && HasKind(w, w.wire[i].tag, kind) ==> Pending(w, w.wire[i].tag.value))
    && (forall i, j :: i in w.wire && j in w.wire && HasKind(w, w.wire[i].tag, kind) && w.wire[i].tag == w.wire[j].tag ==>
          i == j)
  }

  ghost predicate AnswersRight(w: World, kind: Kind) {
    && (forall k :: 0 <= k < |w.answers| && HasKind(w, w.answers[k].tag, kind) ==>
          Answers(w.history[w.answers[k].tag.value], w.answers[k].signal))
    && (forall j, k :: 0 <= j < k < |w.answers| && HasKind(w, w.answers[j].tag, kind) ==>
          w.answers[j].tag != w.answers[k].tag)
  }

  ghost predicate Inv(w: World, kind: Kind) {
    && OwnersMatch(w) && WireMatches(w) && AnswersTagged(w)
    && Settled(w, kind) && OnePacketEach(w, kind) && AnswersRight(w, kind)
  }

  // ---------------------------------------------------------------------------
  // What the two ends make of the packets of a handshake

  lemma HeaderTypes()
    ensures GetType(PUBACK) == PUBACK && GetType(PUBREC) == PUBREC && GetType(PUBCOMP) == PUBCOMP
    ensures GetType(SUBACK) == SUBACK && GetType(UNSUBACK) == UNSUBACK
    ensures GetType(PUBREL_HEADER) == PUBREL
    ensures GetType(SUBSCRIBE_HEADER) == SUBSCRIBE && GetType(UNSUBSCRIBE_HEADER) == UNSUBSCRIBE
  {
    hide GetType, SetQos;
    PubrelHeader();
    TypeField(PUBACK);
    TypeField(PUBREC);
    TypeField(PUBCOMP);
    TypeField(SUBACK);
    TypeField(UNSUBACK);
    TypeField(PUBREL_HEADER);
    TypeField(SUBSCRIBE_HEADER);
    TypeField(UNSUBSCRIBE_HEADER);
  }

  /** A conforming broker answers every packet of a handshake, and with the next packet of it. */
  lemma BrokerFollowsUp(r: Request, f: RawFrame, code: byte)
    requires Expected(r, true, f)
    ensures var reply := BrokerReply(f, code);
            reply.Some? && Expected(r, false, reply.value) && |reply.value.data| <= 3
  {
    hide GetType, GetQos, DecodeInt, EncodeInt, EncodeBytes, SetQos, PublishHeader;
    HeaderTypes();
    match r
    case PublishRequest(mid, m) =>
      if f == PublishFrame(m, mid) {
        PublishParses(m, mid);
        PublishHeaderFields(m);
      } else {
        AckParses(PUBREL_HEADER, mid);
      }
    case SubscribeRequest(mid, topic, qos) => RequestParses(mid, topic, qos);
    case UnsubscribeRequest(mid, topic) => RequestParses(mid, topic, 0);
  }

  lemma ReplyOrNot(f: RawFrame, code: byte)
    ensures BrokerReply(f, code) == None <==> BrokerReply(f, 0) == None
  {
  }

  /** Packets of handshakes the broker started, and those without identifier, get no answer. */
  lemma NoReply(header: byte, mid: u16, m: Message)
    requires header == PUBACK || header == PUBREC || header == PUBCOMP
    requires m.qos == QOS0
    ensures Unrelated(true, AckFrame(header, mid))
    ensures Unrelated(true, PublishFrame(m, mid))
  {
    hide GetType, GetQos, EncodeInt, EncodeBytes, SetQos, PublishHeader;
    HeaderTypes();
    PublishHeaderFields(m);
  }

  ghost predicate SameTables(c: ClientState, d: ClientState) {
    d.gmid == c.gmid && d.midToTopic == c.midToTopic && d.midToMessage == c.midToMessage
  }

  /** No table changes, nothing is completed, and a packet sent belongs to no request of the client. */
  ghost predicate Incidental(c: ClientState, o: Outcome) {
    && SameTables(c, o.state)
    && Completions(o.out, None) == []
    && (o.out != [] && o.out[0].Send? ==> Unrelated(true, o.out[0].frame))
  }

  lemma ReplyIsIncidental(c: ClientState, header: byte, mid: u16, now: nat, rest: seq<Action>)
    requires header == PUBACK || header == PUBREC || header == PUBCOMP
    requires rest == [] || (|rest| == 1 && rest[0].Emit? && rest[0].signal.Received?)
    ensures var o := Answering(c, header, mid, now);
            Incidental(c, Outcome(o.state, o.out + rest))
  {
    hide AckFrame, BrokerReply, Unrelated;
    NoReply(header, mid, EMPTY_MESSAGE);
    var out := Answering(c, header, mid, now).out + rest;
    assert out[1..] == rest;
    NothingCompleted(rest, None);
  }

  lemma {:induction false} NothingCompleted(out: seq<Action>, tag: Option<nat>)
    requires forall i :: 0 <= i < |out| ==> !IsCompletion(out[i])
    ensures Completions(out, tag) == []
  {
    if out != [] {
      NothingCompleted(out[1..], tag);
    }
  }

  /** Without completions only the client's state changes. */
  lemma AfterQuiet(w: World, o: Outcome, tag: Option<nat>)
    requires forall i :: 0 <= i < |o.out| ==> !IsCompletion(o.out[i])
    ensures After(w, o, tag) == w.(c := o.state)
  {
    NothingCompleted(o.out, tag);
    assert w.answers + [] == w.answers;
  }

  lemma MessageIsIncidental(c: ClientState, m: Message, now: nat)
    ensures Incidental(c, MessageArrived(c, m, now))
  {
    hide Incidental, Answering;
    if m.qos == QOS1 {
      ReplyIsIncidental(c, PUBACK, m.id, now, [Emit(Received(m))]);
    } else if m.qos == QOS2 {
      ReplyIsIncidental(c, PUBREC, m.id, now, [Emit(Received(m))]);
    } else {
      SignalIsIncidental(c, c, Received(m));
    }
  }

  lemma SignalIsIncidental(c: ClientState, d: ClientState, s: Signal)
    requires SameTables(c, d) && !s.Published? && !s.Subscribed? && !s.Unsubscribed?
    ensures Incidental(c, Outcome(d, [Emit(s)]))
  {
    NothingCompleted([Emit(s)], None);
  }

  /** The broker's own packets concern no request of the client. */
  lemma DeliveryArrives(c: ClientState, f: RawFrame, now: nat)
    requires BrokerMaySend(f)
    ensures Incidental(c, Arrived(c, f, now))
  {
    hide GetType, GetQos, ParsePublish, Answering, MessageArrived, Incidental, FrameMid, ConnackError;
    var t := GetType(f.header);
    if t == PUBLISH {
      MessageIsIncidental(c, ParsePublish(f), now);
    } else if t == PUBREL {
      ReplyIsIncidental(c, PUBCOMP, FrameMid(f), now, []);
      var o := Answering(c, PUBCOMP, FrameMid(f), now);
      assert Outcome(o.state, o.out + []) == o;
    } else if t == CONNACK {
      SignalIsIncidental(c, c.(connection := StateConnected), Connected);
      SignalIsIncidental(c, c, Error(ConnackError(f.data[1])));
    } else {
      SignalIsIncidental(c, c.(pingResponseTimer := c.pingResponseTimer.Stop()), Pingresp);
    }
  }

  /** The client's entry under the identifier of r is what r put there. */
  ghost predicate Holds(r: Request, c: ClientState) {
    if r.PublishRequest? then r.mid in c.midToMessage && c.midToMessage[r.mid] == r.message
    else r.mid in c.midToTopic && c.midToTopic[r.mid] == r.topic
  }

  /** What the client does with the packet a request expects from the broker: either it is the last
      one, and the client reports a completion and drops the entry under its identifier, or the client
      sends the next packet. */
  ghost predicate Finishes(r: Request, c: ClientState, o: Outcome) {
    && |o.out| == 1 && o.out[0].Emit?
    && (o.out[0].signal.Published? || o.out[0].signal.Subscribed? || o.out[0].signal.Unsubscribed?)
    && o.state == if r.PublishRequest? then c.(midToMessage := c.midToMessage - {r.mid})
                  else c.(midToTopic := c.midToTopic - {r.mid})
  }

  ghost predicate Proceeds(r: Request, c: ClientState, o: Outcome) {
    && |o.out| == 1 && o.out[0].Send? && Expected(r, true, o.out[0].frame) && |o.out[0].frame.data| == 2
    && SameTables(c, o.state)
  }

  lemma AnswerArrives(r: Request, c: ClientState, f: RawFrame, now: nat)
    requires Expected(r, false, f) && Readable(f)
    ensures var o := Arrived(c, f, now);
            if Proceeds(r, c, o) then true
            else Finishes(r, c, o) && (Holds(r, c) ==> Answers(r, o.out[0].signal))
  {
    hide GetType, GetQos, DecodeInt, EncodeInt, SetQos, PublishFrame;
    HeaderTypes();
    match r
    case PublishRequest(mid, m) => AckParses(f.header, mid);
    case SubscribeRequest(mid, topic, qos) =>
      var code: byte :| f == SubackFrame(mid, code);
      RequestParses(mid, topic, code);
    case UnsubscribeRequest(mid, topic) => AckParses(UNSUBACK, mid);
  }

  // ---------------------------------------------------------------------------
  // Every step keeps the invariant

  /** The invariant but for the wire does not look at the wire. */
  lemma SameRequests(w: World, v: World, kind: Kind)
    requires v == w.(wire := v.wire, next := v.next)
    ensures OwnersMatch(w) <==> OwnersMatch(v)
    ensures AnswersTagged(w) <==> AnswersTagged(v)
    ensures Settled(w, kind) <==> Settled(v, kind)
    ensures AnswersRight(w, kind) <==> AnswersRight(v, kind)
    ensures forall t: nat :: Pending(w, t) <==> Pending(v, t)
  {
    hide Answers;
    SamePending(w, v);
  }

  lemma SamePending(w: World, v: World)
    requires w.since == v.since && w.history == v.history && w.answers == v.answers
    requires w.messageOwner == v.messageOwner && w.topicOwner == v.topicOwner
    ensures forall t: nat :: Pending(w, t) <==> Pending(v, t)
    ensures forall t: nat :: Answered(w, t) <==> Answered(v, t)
  {
  }

  lemma DropFlight(w: World, i: nat, kind: Kind)
    requires Inv(w, kind)
    ensures Inv(w.(wire := w.wire - {i}), kind)
  {
    hide Expected, Unrelated, OwnersMatch, Settled, AnswersTagged, AnswersRight, Pending;
    SameRequests(w, w.(wire := w.wire - {i}), kind);
  }

  lemma PutTagged(w: World, toBroker: bool, f: RawFrame, t: nat, kind: Kind)
    requires Inv(w, kind) && w.since <= t < |w.history| && Expected(w.history[t], toBroker, f)
    requires KindOf(w.history[t]) == kind ==> Pending(w, t) && forall i :: i in w.wire ==> w.wire[i].tag != Some(t)
    ensures Inv(Put(w, toBroker, f, Some(t)), kind)
  {
    hide Expected, Unrelated, OwnersMatch, Settled, AnswersTagged, AnswersRight, Pending;
    SameRequests(w, Put(w, toBroker, f, Some(t)), kind);
  }

  lemma PutUntagged(w: World, toBroker: bool, f: RawFrame, kind: Kind)
    requires Inv(w, kind) && Unrelated(toBroker, f)
    ensures Inv(Put(w, toBroker, f, None), kind)
  {
    hide Expected, Unrelated, OwnersMatch, Settled, AnswersTagged, AnswersRight, Pending;
    SameRequests(w, Put(w, toBroker, f, None), kind);
  }

  /** Changes of the client outside its tables. */
  lemma Housekeeping(w: World, d: ClientState, kind: Kind)
    requires Inv(w, kind) && SameTables(w.c, d)
    ensures Inv(w.(c := d), kind)
  {
    hide Expected, Answers, Unrelated;
    SamePending(w, w.(c := d));
  }

  /** The tables after a request took identifier r.mid. */
  ghost predicate Recorded(r: Request, c: ClientState, d: ClientState) {
    match r
    case PublishRequest(mid, m) => d.midToTopic == c.midToTopic && d.midToMessage == c.midToMessage[mid := m]
    case _ => d.midToMessage == c.midToMessage && d.midToTopic == c.midToTopic[r.mid := r.topic]
  }

  /** The identifier of r is not in use in its table. */
  ghost predicate Unused(r: Request, c: ClientState) {
    if r.PublishRequest? then r.mid !in c.midToMessage else r.mid !in c.midToTopic
  }

  /** The world in which r has been made and its packet not yet sent. */
  ghost predicate Requested(w: World, r: Request, v: World) {
    && v == w.(c := v.c, history := w.history + [r],
               messageOwner := if r.PublishRequest? then w.messageOwner[r.mid := |w.history|] else w.messageOwner,
               topicOwner := if r.PublishRequest? then w.topicOwner else w.topicOwner[r.mid := |w.history|])
    && Recorded(r, w.c, v.c)
  }

  lemma RequestKeeps(w: World, r: Request, o: Outcome, kind: Kind)
    requires Inv(w, kind) && Recorded(r, w.c, o.state)
    requires KindOf(r) == kind ==> Unused(r, w.c)
    requires |o.out| == 1 && o.out[0].Send? && Expected(r, true, o.out[0].frame)
    ensures Inv(MakeRequest(w, r, o), kind)
  {
    hide Inv, Expected, Pending, Recorded, Unused, After, Put;
    var tag := |w.history|;
    AfterQuiet(w, o, Some(tag));
    var v := w.(c := o.state, history := w.history + [r],
                messageOwner := if r.PublishRequest? then w.messageOwner[r.mid := tag] else w.messageOwner,
                topicOwner := if r.PublishRequest? then w.topicOwner else w.topicOwner[r.mid := tag]);
    assert Requested(w, r, v);
    RequestRecorded(w, r, v, kind);
    PutTagged(v, true, o.out[0].frame, tag, kind);
  }

  lemma RequestRecorded(w: World, r: Request, v: World, kind: Kind)
    requires Inv(w, kind) && Requested(w, r, v)
    requires KindOf(r) == kind ==> Unused(r, w.c)
    ensures Inv(v, kind) && Pending(v, |w.history|) && v.since <= |w.history|
    ensures forall i :: i in v.wire ==> v.wire[i].tag != Some(|w.history|)
  {
    hide Expected, Unrelated, OwnersMatch, Settled, AnswersTagged, OnePacketEach, AnswersRight, Pending, Recorded, Unused;
    RequestOwners(w, r, v);
    RequestPending(w, r, v, kind);
    RequestSettles(w, r, v, kind);
    RequestWire(w, r, v, kind);
    RequestAnswers(w, r, v, kind);
  }

  /** A request reported in its own step needs no entry and no packet. */
  lemma InstantKeeps(w: World, r: Request, o: Outcome, kind: Kind)
    requires Inv(w, kind) && SameTables(w.c, o.state) && r.PublishRequest?
    requires |o.out| == 2 && o.out[0].Send? && Unrelated(true, o.out[0].frame) && o.out[1] == Emit(Published(r.message, r.mid))
    ensures Inv(MakeInstant(w, r, o), kind)
    ensures MakeInstant(w, r, o).answers == w.answers + [Answer(Some(|w.history|), Published(r.message, r.mid))]
  {
    hide Expected, Unrelated, OwnersMatch, Settled, OnePacketEach, AnswersRight, Pending, Completions;
    var a := Answer(Some(|w.history|), Published(r.message, r.mid));
    InstantReport(o.out, Some(|w.history|));
    var v := w.(c := o.state, history := w.history + [r], answers := w.answers + [a]);
    assert v == After(w, o, Some(|w.history|)).(history := w.history + [r]);
    assert forall t: nat :: t < |w.history| ==> v.history[t] == w.history[t];
    InstantOwners(w, r, v);
    InstantPending(w, r, v);
    InstantSettles(w, r, v, kind);
    InstantAnswers(w, r, v, kind);
    InstantWire(w, r, v, kind);
    PutUntagged(v, true, o.out[0].frame, kind);
  }

  lemma InstantReport(out: seq<Action>, tag: Option<nat>)
    requires |out| == 2 && out[0].Send? && IsCompletion(out[1])
    ensures Completions(out, tag) == [Answer(tag, out[1].signal)]
  {
    assert out[1..] == [out[1]] && out[1..][1..] == [];
    assert Completions(out[1..], tag) == [Answer(tag, out[1].signal)] + Completions([], tag);
  }

  ghost predicate Instant(w: World, r: Request, v: World) {
    && r.PublishRequest? && SameTables(w.c, v.c)
    && v == w.(c := v.c, history := w.history + [r],
               answers := w.answers + [Answer(Some(|w.history|), Published(r.message, r.mid))])
  }

  lemma InstantOwners(w: World, r: Request, v: World)
    requires OwnersMatch(w) && Instant(w, r, v)
    ensures OwnersMatch(v)
  {
    assert v.history[..|w.history|] == w.history;
    OlderOwners(w, v.history);
  }

  lemma InstantPending(w: World, r: Request, v: World)
    requires OwnersMatch(w) && Instant(w, r, v)
    ensures !Pending(v, |w.history|)
    ensures forall t: nat :: t < |w.history| ==> (Pending(v, t) <==> Pending(w, t))
  {
    forall t: nat | t < |w.history|
      ensures Pending(v, t) <==> Pending(w, t)
    {
      assert v.history[t] == w.history[t];
    }
  }

  lemma InstantSettles(w: World, r: Request, v: World, kind: Kind)
    requires OwnersMatch(w) && Settled(w, kind) && Instant(w, r, v)
    ensures Settled(v, kind)
  {
    hide Pending, OwnersMatch;
    InstantPending(w, r, v);
    assert v.answers[|w.answers|].tag == Some(|w.history|);
    forall t: nat | t < |w.history|
      ensures v.history[t] == w.history[t] && (Answered(v, t) <==> Answered(w, t))
    {
      if Answered(w, t) {
        var k :| 0 <= k < |w.answers| && w.answers[k].tag == Some(t);
        assert v.answers[k].tag == Some(t);
      }
    }
  }

  lemma InstantAnswers(w: World, r: Request, v: World, kind: Kind)
    requires AnswersTagged(w) && AnswersRight(w, kind) && Instant(w, r, v)
    ensures AnswersTagged(v) && AnswersRight(v, kind)
  {
    assert forall t: nat :: t < |w.history| ==> v.history[t] == w.history[t];
  }

  lemma InstantWire(w: World, r: Request, v: World, kind: Kind)
    requires OwnersMatch(w) && WireMatches(w) && OnePacketEach(w, kind) && Instant(w, r, v)
    ensures WireMatches(v) && OnePacketEach(v, kind)
  {
    hide Expected, Unrelated, Pending, OwnersMatch;
    InstantPending(w, r, v);
    assert forall t: nat :: t < |w.history| ==> v.history[t] == w.history[t];
  }

  lemma RequestOwners(w: World, r: Request, v: World)
    requires OwnersMatch(w) && w.since <= |w.history| && Requested(w, r, v)
    ensures OwnersMatch(v)
  {
    var tag := |w.history|;
    assert v.history[..tag] == w.history && v.history[tag] == r;
    OlderOwners(w, v.history);
  }

  /** Requests made later do not change what the entries stand for. */
  lemma OlderOwners(w: World, history: seq<Request>)
    requires OwnersMatch(w) && |w.history| <= |history| && history[..|w.history|] == w.history
    ensures forall mid :: mid in w.messageOwner ==> history[w.messageOwner[mid]] == w.history[w.messageOwner[mid]]
    ensures forall mid :: mid in w.topicOwner ==> history[w.topicOwner[mid]] == w.history[w.topicOwner[mid]]
  {
  }

  lemma RequestPending(w: World, r: Request, v: World, kind: Kind)
    requires OwnersMatch(w) && w.since <= |w.history| && Requested(w, r, v)
    requires KindOf(r) == kind ==> Unused(r, w.c)
    ensures Pending(v, |w.history|)
    ensures forall t: nat :: t < |w.history| && KindOf(w.history[t]) == kind ==> (Pending(v, t) <==> Pending(w, t))
  {
    hide Expected, Unrelated;
    forall t: nat | t < |w.history| && KindOf(w.history[t]) == kind
      ensures Pending(v, t) <==> Pending(w, t)
    {
      assert v.history[t] == w.history[t];
    }
  }

  lemma RequestSettles(w: World, r: Request, v: World, kind: Kind)
    requires Inv(w, kind) && Requested(w, r, v)
    requires KindOf(r) == kind ==> Unused(r, w.c)
    ensures Settled(v, kind)
  {
    hide OnePacketEach, AnswersRight, Pending, Recorded, Expected, Unrelated;
    RequestPending(w, r, v, kind);
    assert forall t: nat :: Answered(w, t) <==> Answered(v, t);
    assert !Answered(v, |w.history|);
    assert forall t: nat :: t < |w.history| ==> v.history[t] == w.history[t];
  }

  lemma RequestWire(w: World, r: Request, v: World, kind: Kind)
    requires Inv(w, kind) && Requested(w, r, v)
    requires KindOf(r) == kind ==> Unused(r, w.c)
    ensures WireMatches(v) && OnePacketEach(v, kind)
    ensures forall i :: i in v.wire ==> v.wire[i].tag != Some(|w.history|)
  {
    hide Expected, Unrelated, OwnersMatch, Settled, AnswersRight, Recorded, Pending;
    RequestPending(w, r, v, kind);
    assert forall t: nat :: t < |w.history| ==> v.history[t] == w.history[t];
  }

  lemma RequestAnswers(w: World, r: Request, v: World, kind: Kind)
    requires AnswersTagged(w) && AnswersRight(w, kind) && Requested(w, r, v)
    ensures AnswersTagged(v) && AnswersRight(v, kind)
  {
    hide Answers, Recorded;
    assert forall t: nat :: t < |w.history| ==> v.history[t] == w.history[t];
  }

  /** Request t has been completed by receiving packet i, with answer a. */
  ghost predicate Completed(w: World, i: nat, t: nat, a: Answer, v: World) {
    && i in w.wire && w.wire[i].tag == Some(t) && t < |w.history|
    && var r := w.history[t];
       && v == w.(c := v.c, wire := w.wire - {i}, answers := w.answers + [a],
                  messageOwner := if r.PublishRequest? then w.messageOwner - {r.mid} else w.messageOwner,
                  topicOwner := if r.PublishRequest? then w.topicOwner else w.topicOwner - {r.mid})
       && v.c == (if r.PublishRequest? then w.c.(midToMessage := w.c.midToMessage - {r.mid})
                  else w.c.(midToTopic := w.c.midToTopic - {r.mid}))
       && a.tag == Some(t)
  }

  /** Receiving the last packet of a handshake settles its request. */
  lemma CompletionKeeps(w: World, i: nat, t: nat, now: nat, kind: Kind)
    requires Inv(w, kind) && i in w.wire && w.wire[i].tag == Some(t) && Readable(w.wire[i].frame)
    requires t < |w.history| && Finishes(w.history[t], w.c, Arrived(w.c, w.wire[i].frame, now))
    requires KindOf(w.history[t]) == kind ==> Answers(w.history[t], Arrived(w.c, w.wire[i].frame, now).out[0].signal)
    ensures Inv(Receive(w, i, now), kind)
  {
    hide Expected, Unrelated, Readable, OwnersMatch, Settled, AnswersTagged;
    hide OnePacketEach, AnswersRight, Answers, Pending, Completed, Receive;
    var v := Receive(w, i, now);
    var a := Answer(Some(t), Arrived(w.c, w.wire[i].frame, now).out[0].signal);
    CompletionEffect(w, i, t, now);
    CompletionOwners(w, i, t, a, v);
    CompletionSettles(w, i, t, a, v, kind);
    CompletionWire(w, i, t, a, v, kind);
    CompletionAnswers(w, i, t, a, v, kind);
  }

  lemma CompletionEffect(w: World, i: nat, t: nat, now: nat)
    requires OwnersMatch(w) && i in w.wire && w.wire[i].tag == Some(t) && Readable(w.wire[i].frame)
    requires t < |w.history| && Finishes(w.history[t], w.c, Arrived(w.c, w.wire[i].frame, now))
    ensures var a := Answer(Some(t), Arrived(w.c, w.wire[i].frame, now).out[0].signal);
            Completed(w, i, t, a, Receive(w, i, now)) && Receive(w, i, now).answers == w.answers + [a]
  {
    hide Arrived, Readable, Restrict;
    var r := w.history[t];
    var o := Arrived(w.c, w.wire[i].frame, now);
    var v := Receive(w, i, now);
    var a := Answer(Some(t), o.out[0].signal);
    assert o.out[1..] == [];
    assert Completions(o.out, Some(t)) == [a] + [];
    assert w.messageOwner.Keys == w.c.midToMessage.Keys && w.topicOwner.Keys == w.c.midToTopic.Keys;
    RestrictTo(w.messageOwner, r.mid);
    RestrictTo(w.topicOwner, r.mid);
  }

  lemma RestrictTo(m: map<u16, nat>, mid: u16)
    ensures Restrict(m, m.Keys) == m && Restrict(m, m.Keys - {mid}) == m - {mid}
  {
  }

  lemma CompletionOwners(w: World, i: nat, t: nat, a: Answer, v: World)
    requires OwnersMatch(w) && Completed(w, i, t, a, v)
    ensures OwnersMatch(v)
  {
  }

  lemma CompletionPending(w: World, i: nat, t: nat, a: Answer, v: World, kind: Kind)
    requires OnePacketEach(w, kind) && Completed(w, i, t, a, v)
    ensures !Pending(v, t)
    ensures forall u: nat :: u != t && u < |w.history| && KindOf(w.history[u]) == kind ==> (Pending(v, u) <==> Pending(w, u))
  {
    forall u: nat | u != t && u < |w.history| && KindOf(w.history[u]) == kind
      ensures Pending(v, u) <==> Pending(w, u)
    {
      if KindOf(w.history[t]) == kind {
        assert HasKind(w, w.wire[i].tag, kind);
        PendingUnlike(w, t, u);
      }
    }
  }

  lemma CompletionSettles(w: World, i: nat, t: nat, a: Answer, v: World, kind: Kind)
    requires Settled(w, kind) && OnePacketEach(w, kind) && Completed(w, i, t, a, v)
    ensures Settled(v, kind)
  {
    hide Pending, OnePacketEach;
    CompletionPending(w, i, t, a, v, kind);
    assert v.answers[|w.answers|].tag == Some(t);
    forall u: nat | u != t
      ensures Answered(v, u) <==> Answered(w, u)
    {
      if Answered(w, u) {
        var k :| 0 <= k < |w.answers| && w.answers[k].tag == Some(u);
        assert v.answers[k].tag == Some(u);
      }
    }
  }

  lemma CompletionWire(w: World, i: nat, t: nat, a: Answer, v: World, kind: Kind)
    requires WireMatches(w) && OnePacketEach(w, kind) && Completed(w, i, t, a, v)
    ensures WireMatches(v) && OnePacketEach(v, kind)
  {
    hide Expected, Unrelated, Pending;
    CompletionPending(w, i, t, a, v, kind);
  }

  /** Two pending requests never share an entry. */
  lemma PendingUnlike(w: World, t: nat, u: nat)
    requires Pending(w, t) && t != u
    ensures Pending(w, u) && KindOf(w.history[u]) == KindOf(w.history[t]) ==> w.history[u].mid != w.history[t].mid
  {
  }

  lemma CompletionAnswers(w: World, i: nat, t: nat, a: Answer, v: World, kind: Kind)
    requires AnswersTagged(w) && AnswersRight(w, kind) && Settled(w, kind) && OnePacketEach(w, kind) && WireMatches(w)
    requires Completed(w, i, t, a, v)
    requires KindOf(w.history[t]) == kind ==> Answers(w.history[t], a.signal)
    ensures AnswersTagged(v) && AnswersRight(v, kind)
  {
    hide Answers, Expected, Unrelated, Pending;
    if KindOf(w.history[t]) == kind {
      assert HasKind(w, w.wire[i].tag, kind);
      assert !Answered(w, t);
      assert forall j :: 0 <= j < |w.answers| ==> w.answers[j].tag != Some(t);
    }
  }

  /** Receiving any other packet moves the handshake on. */
  lemma ProgressKeeps(w: World, i: nat, t: nat, now: nat, kind: Kind)
    requires Inv(w, kind) && i in w.wire && w.wire[i].tag == Some(t) && Readable(w.wire[i].frame)
    requires t < |w.history| && Proceeds(w.history[t], w.c, Arrived(w.c, w.wire[i].frame, now))
    ensures Inv(Receive(w, i, now), kind) && Receive(w, i, now).answers == w.answers
  {
    hide Expected, Unrelated, Readable, OwnersMatch, Settled, AnswersTagged, AnswersRight, Receive, Arrived, Pending;
    var o := Arrived(w.c, w.wire[i].frame, now);
    var v := w.(wire := w.wire - {i});
    DropFlight(w, i, kind);
    Housekeeping(v, o.state, kind);
    SamePending(w, v.(c := o.state));
    PutTagged(v.(c := o.state), true, o.out[0].frame, t, kind);
    ProgressEffect(w, i, t, now);
  }

  lemma ProgressEffect(w: World, i: nat, t: nat, now: nat)
    requires OwnersMatch(w) && i in w.wire && w.wire[i].tag == Some(t) && t < |w.history| && Readable(w.wire[i].frame)
    requires Proceeds(w.history[t], w.c, Arrived(w.c, w.wire[i].frame, now))
    ensures var o := Arrived(w.c, w.wire[i].frame, now);
            Receive(w, i, now) == Put(w.(wire := w.wire - {i}, c := o.state), true, o.out[0].frame, Some(t))
    ensures Receive(w, i, now).answers == w.answers
  {
    hide Arrived, Expected, Readable;
    var o := Arrived(w.c, w.wire[i].frame, now);
    assert o.out[1..] == [];
    assert Completions(o.out, Some(t)) == [] + [];
    RestrictAll(w, o.state);
  }

  lemma RestrictAll(w: World, d: ClientState)
    requires OwnersMatch(w) && SameTables(w.c, d)
    ensures Restrict(w.messageOwner, d.midToMessage.Keys) == w.messageOwner
    ensures Restrict(w.topicOwner, d.midToTopic.Keys) == w.topicOwner
  {
  }

  /** Receiving a delivery of the broker's touches no request. */
  lemma DeliveryKeeps(w: World, i: nat, now: nat, kind: Kind)
    requires Inv(w, kind) && i in w.wire && w.wire[i].tag == None && BrokerMaySend(w.wire[i].frame)
    ensures Inv(Receive(w, i, now), kind) && Receive(w, i, now).answers == w.answers
  {
    hide Expected, Unrelated, Arrived, Answers, Inv;
    DeliveryArrives(w.c, w.wire[i].frame, now);
    var o := Arrived(w.c, w.wire[i].frame, now);
    var v := w.(wire := w.wire - {i});
    DropFlight(w, i, kind);
    Housekeeping(v, o.state, kind);
    assert OwnersMatch(w) by { Parts(w, kind); }
    RestrictAll(w, o.state);
    assert w.answers + [] == w.answers;
    if o.out != [] && o.out[0].Send? {
      PutUntagged(v.(c := o.state), true, o.out[0].frame, kind);
    }
  }

  lemma Parts(w: World, kind: Kind)
    requires Inv(w, kind)
    ensures OwnersMatch(w) && WireMatches(w) && AnswersRight(w, kind)
  {
  }

  lemma PendingHolds(w: World, t: nat)
    requires OwnersMatch(w) && Pending(w, t)
    ensures Holds(w.history[t], w.c)
  {
  }

  lemma ReceiveKeeps(w: World, i: nat, now: nat, kind: Kind)
    requires Inv(w, kind) && Enabled(w, ClientReceives(i, now))
    ensures Inv(Receive(w, i, now), kind)
  {
    hide Expected, BrokerMaySend, Arrived, Answers, Readable, Receive, Finishes, Proceeds, Holds, OwnersMatch, Pending;
    hide AnswersTagged, AnswersRight, Settled;
    match w.wire[i].tag
    case None => DeliveryKeeps(w, i, now, kind);
    case Some(t) =>
      AnswerArrives(w.history[t], w.c, w.wire[i].frame, now);
      if Proceeds(w.history[t], w.c, Arrived(w.c, w.wire[i].frame, now)) {
        ProgressKeeps(w, i, t, now, kind);
      } else {
        if KindOf(w.history[t]) == kind {
          PendingHolds(w, t);
        }
        CompletionKeeps(w, i, t, now, kind);
      }
  }

  lemma BrokerAnswerKeeps(w: World, i: nat, code: byte, kind: Kind)
    requires Inv(w, kind) && Enabled(w, BrokerAnswers(i, code))
    ensures Inv(Next(w, BrokerAnswers(i, code)), kind)
  {
    hide Expected, BrokerMaySend, Answers, BrokerReply, Readable;
    hide OfHandshake, OwnersMatch, AnswersTagged, AnswersRight, Settled, Pending;
    var v := w.(wire := w.wire - {i});
    DropFlight(w, i, kind);
    var reply := BrokerReply(w.wire[i].frame, code);
    ReplyOrNot(w.wire[i].frame, code);
    if reply.Some? {
      match w.wire[i].tag
      case None => assert false;
      case Some(t) =>
        BrokerFollowsUp(w.history[t], w.wire[i].frame, code);
        SamePending(w, v);
        PutTagged(v, false, reply.value, t, kind);
    }
  }

  lemma LossKeeps(w: World, kind: Kind)
    requires Inv(w, kind)
    ensures Inv(Next(w, NetworkDown), kind)
  {
    hide Answers, After;
    AfterQuiet(w, NetworkLost(w.c), None);
  }

  lemma PublishKeeps(w: World, m: Message, now: nat, kind: Kind)
    requires Inv(w, kind) && Enabled(w, Publish(m, now)) && (kind == Messages ==> Fresh(w, Publish(m, now)))
    ensures Inv(Next(w, Publish(m, now)), kind)
  {
    hide Inv, PublishFrame, BrokerReply, MakeRequest, MakeInstant, OfHandshake;
    var o := Publishing(w.c, m, now);
    if m.qos == QOS0 {
      NoReply(PUBACK, PublishMid(w.c, m), m);
      InstantKeeps(w, PublishRequest(PublishMid(w.c, m), m), o, kind);
    } else {
      RequestKeeps(w, PublishRequest(PublishMid(w.c, m), m), o, kind);
    }
  }

  /** The invariant of one kind of requests survives every step whose identifier, if the step chooses
      one for a request of that kind, is not in use. */
  lemma NextKeeps(w: World, s: Step, kind: Kind)
    requires Inv(w, kind) && Enabled(w, s) && (Makes(s, kind) ==> Fresh(w, s))
    ensures Inv(Next(w, s), kind)
  {
    hide Inv, BrokerReply, Receive, MakeRequest, MakeInstant, After, GetType, BrokerMaySend, OfHandshake, Put;
    match s
    case Publish(m, now) => PublishKeeps(w, m, now, kind);
    case Subscribe(topic, qos, now) =>
      RequestKeeps(w, SubscribeRequest(w.c.gmid, topic, qos), Subscribing(w.c, topic, qos, now), kind);
    case Unsubscribe(topic, now) =>
      RequestKeeps(w, UnsubscribeRequest(w.c.gmid, topic), Unsubscribing(w.c, topic, now), kind);
    case Connect => Housekeeping(w, w.c.(connection := StateConnecting), kind);
    case Disconnect(now) =>
      var o := Disconnecting(w.c, now);
      AfterQuiet(w, o, None);
      QuietStep(w, o, kind);
      SocketChanges(PutFirst(w.(c := o.state), o.out, None), Next(w, s), kind);
    case PingDue(now) =>
      AfterQuiet(w, Client.PingDue(w.c, now), None);
      QuietStep(w, Client.PingDue(w.c, now), kind);
    case PingTimeout(now) =>
      var o := Client.PingTimeout(w.c, now);
      AfterQuiet(w, o, None);
      QuietStep(w, Outcome(o.state, o.out[1..]), kind);
      SocketChanges(PutFirst(w.(c := o.state), o.out[1..], None), Next(w, s), kind);
    case NetworkUp(f, now) => NetworkUpKeeps(w, f, now, kind);
    case NetworkDown => LossKeeps(w, kind);
    case SocketError => SocketChanges(w, Next(w, s), kind);
    case BrokerAnswers(i, code) => BrokerAnswerKeeps(w, i, code, kind);
    case BrokerSends(f) => BrokerSendKeeps(w, f, kind);
    case ClientReceives(i, now) => ReceiveKeeps(w, i, now, kind);
  }

  /** The assumption is needed at every step: without it the request that held the identifier is
      neither pending nor answered any more. */
  lemma UnfreshBreaks(w: World, s: Step, kind: Kind)
    requires Inv(w, kind) && Enabled(w, s) && Makes(s, kind) && !Fresh(w, s)
    ensures !Inv(Next(w, s), kind)
  {
    hide PublishFrame, SubscribeFrame, UnsubscribeFrame, WireMatches, OnePacketEach, AnswersTagged, AnswersRight;
    hide After, PutFirst;
    RequestsReportNothing(w, s);
    var v := Next(w, s);
    var t := if s.Publish? then w.messageOwner[PublishMid(w.c, s.m)] else w.topicOwner[w.c.gmid];
    assert Pending(w, t);
    assert v.history[t] == w.history[t] && !Pending(v, t);
    assert Answered(v, t) <==> Answered(w, t);
  }

  /** Making a request that is to be acknowledged completes none. */
  lemma RequestsReportNothing(w: World, s: Step)
    ensures match s
            case Publish(m, now) =>
              m.qos > QOS0 ==> After(w, Publishing(w.c, m, now), Some(|w.history|)) == w.(c := Publishing(w.c, m, now).state)
            case Subscribe(topic, qos, now) =>
              After(w, Subscribing(w.c, topic, qos, now), Some(|w.history|)) == w.(c := Subscribing(w.c, topic, qos, now).state)
            case Unsubscribe(topic, now) =>
              After(w, Unsubscribing(w.c, topic, now), Some(|w.history|)) == w.(c := Unsubscribing(w.c, topic, now).state)
            case _ => true
  {
    hide After, PublishFrame, SubscribeFrame, UnsubscribeFrame;
    match s
    case Publish(m, now) =>
      if m.qos > QOS0 {
        AfterQuiet(w, Publishing(w.c, m, now), Some(|w.history|));
      }
    case Subscribe(topic, qos, now) => AfterQuiet(w, Subscribing(w.c, topic, qos, now), Some(|w.history|));
    case Unsubscribe(topic, now) => AfterQuiet(w, Unsubscribing(w.c, topic, now), Some(|w.history|));
    case _ =>
  }

  lemma QuietStep(w: World, o: Outcome, kind: Kind)
    requires Inv(w, kind) && SameTables(w.c, o.state)
    requires o.out != [] && o.out[0].Send? ==> |o.out[0].frame.data| < 2
    ensures Inv(PutFirst(w.(c := o.state), o.out, None), kind)
  {
    hide Inv, GetType, GetQos;
    Housekeeping(w, o.state, kind);
    if o.out != [] && o.out[0].Send? {
      PutUntagged(w.(c := o.state), true, o.out[0].frame, kind);
    }
  }

  lemma NetworkUpKeeps(w: World, f: RawFrame, now: nat, kind: Kind)
    requires Inv(w, kind) && !w.up && GetType(f.header) == CONNECT
    ensures Inv(Next(w, NetworkUp(f, now)), kind)
  {
    hide Inv, GetType, GetQos, Readable, After;
    AfterQuiet(w, Sending(w.c, f, now), None);
    var c := Sending(w.c, f, now).state;
    Housekeeping(w, c, kind);
    SocketChanges(w.(c := c), w.(c := c, up := true, closing := false), kind);
    PutUntagged(w.(c := c, up := true, closing := false), true, f, kind);
  }

  lemma SocketChanges(w: World, v: World, kind: Kind)
    requires Inv(w, kind) && v == w.(up := v.up, closing := v.closing) && (w.up ==> v.up) && (v.closing ==> v.up)
    ensures Inv(v, kind)
  {
    hide Expected, Unrelated, Answers, Pending, Answered;
    SamePending(w, v);
  }

  lemma BrokerSendKeeps(w: World, f: RawFrame, kind: Kind)
    requires Inv(w, kind) && Enabled(w, BrokerSends(f))
    ensures Inv(Next(w, BrokerSends(f)), kind)
  {
    hide Inv, GetType, GetQos, Readable;
    PutUntagged(w, false, f, kind);
  }

  // ---------------------------------------------------------------------------
  // What becomes of the packets of a handshake

  /** The packet a request starts its handshake with. */
  function FirstPacket(r: Request): RawFrame {
    match r
    case PublishRequest(mid, m) => PublishFrame(m, mid)
    case SubscribeRequest(mid, topic, qos) => SubscribeFrame(mid, topic, qos)
    case UnsubscribeRequest(mid, topic) => UnsubscribeFrame(mid, topic)
  }

  /** The socket takes the first packet of a request made now. */
  predicate Departs(w: World, r: Request) {
    w.up && !w.closing && |FirstPacket(r).data| <= MAX_REMAINING_LENGTH
  }

  ghost predicate OnTheWay(w: World, t: nat) {
    exists i :: i in w.wire && w.wire[i].tag == Some(t)
  }

  lemma RequestDeparts(w: World, s: Step, kind: Kind)
    requires Enabled(w, s) && Makes(s, kind) && WireMatches(w)
    ensures var v, t := Next(w, s), |w.history|;
            |v.history| == t + 1 && v.history[..t] == w.history && KindOf(v.history[t]) == kind
            && (OnTheWay(v, t) <==> Departs(w, v.history[t]))
  {
    hide PublishFrame, SubscribeFrame, UnsubscribeFrame, Expected, Unrelated;
    var v, t := Next(w, s), |w.history|;
    if Departs(w, v.history[t]) {
      assert w.next in v.wire && v.wire[w.next].tag == Some(t);
    }
  }

  /** Everything on the way stays so, and anything new carries one of these numbers or none. */
  ghost predicate Grows(w: World, v: World, tag: Option<nat>) {
    && (forall i :: i in w.wire ==> i in v.wire && v.wire[i] == w.wire[i])
    && (forall i :: i in v.wire && i !in w.wire ==> v.wire[i].tag == None || v.wire[i].tag == tag)
  }

  lemma PutGrows(w: World, toBroker: bool, f: RawFrame, tag: Option<nat>)
    requires forall i :: i in w.wire ==> i < w.next
    ensures Grows(w, Put(w, toBroker, f, tag), tag)
  {
  }

  lemma PutFirstGrows(w: World, out: seq<Action>, tag: Option<nat>)
    requires forall i :: i in w.wire ==> i < w.next
    ensures Grows(w, PutFirst(w, out, tag), tag)
  {
    hide Put;
    if out != [] && out[0].Send? {
      PutGrows(w, true, out[0].frame, tag);
    }
  }

  lemma RequestGrows(w: World, r: Request, o: Outcome)
    requires forall i :: i in w.wire ==> i < w.next
    ensures Grows(w, MakeRequest(w, r, o), Some(|w.history|))
  {
    hide PutFirst, Completions;
    var tag := |w.history|;
    var w1 := After(w, o, Some(tag)).(
                 history := w.history + [r],
                 messageOwner := if r.PublishRequest? then w.messageOwner[r.mid := tag] else w.messageOwner,
                 topicOwner := if r.PublishRequest? then w.topicOwner else w.topicOwner[r.mid := tag]);
    PutFirstGrows(w1, o.out, Some(tag));
  }

  /** Steps other than the two at which a packet arrives leave everything on the way, unless the
      connection is lost, and add only packets of a new request or of none. */
  lemma WireGrows(w: World, s: Step)
    requires Enabled(w, s) && WireMatches(w) && s != NetworkDown && !s.BrokerAnswers? && !s.ClientReceives?
    ensures Grows(w, Next(w, s), Some(|w.history|))
  {
    hide MakeRequest, Completions, Expected, Unrelated, BrokerMaySend, GetType, Put, PublishFrame, SubscribeFrame, UnsubscribeFrame;
    match s
    case Publish(m, now) =>
      var o := Publishing(w.c, m, now);
      RequestGrows(w, PublishRequest(PublishMid(w.c, m), m), o);
      PutFirstGrows(After(w, o, Some(|w.history|)).(history := w.history + [PublishRequest(PublishMid(w.c, m), m)]), o.out, None);
    case Subscribe(topic, qos, now) =>
      RequestGrows(w, SubscribeRequest(w.c.gmid, topic, qos), Subscribing(w.c, topic, qos, now));
    case Unsubscribe(topic, now) =>
      RequestGrows(w, UnsubscribeRequest(w.c.gmid, topic), Unsubscribing(w.c, topic, now));
    case Connect =>
    case Disconnect(now) =>
      var o := Disconnecting(w.c, now);
      PutFirstGrows(After(w, o, None), o.out, None);
    case PingDue(now) =>
      var o := Client.PingDue(w.c, now);
      PutFirstGrows(After(w, o, None), o.out, None);
    case PingTimeout(now) =>
      var o := Client.PingTimeout(w.c, now);
      PutFirstGrows(After(w, o, None), o.out[1..], None);
    case NetworkUp(f, now) =>
      var o := Sending(w.c, f, now);
      PutFirstGrows(After(w, o, None).(up := true, closing := false), o.out, None);
    case SocketError =>
    case BrokerSends(f) => PutGrows(w, false, f, None);
  }

  lemma HistoryGrows(w: World, s: Step)
    requires Enabled(w, s)
    ensures |w.history| <= |Next(w, s).history| && Next(w, s).history[..|w.history|] == w.history
  {
    hide PublishFrame, SubscribeFrame, UnsubscribeFrame, Arrived, Completions, Restrict, BrokerReply, BrokerMaySend, Readable;
    hide Put, PutFirst;
  }

  /** Only a request itself makes it pending. */
  lemma NoRevival(w: World, s: Step, t: nat)
    requires Enabled(w, s) && t < |w.history|
    ensures Pending(Next(w, s), t) ==> Pending(w, t) && s != NetworkDown
  {
    hide MakeRequest, Arrived, Completions, BrokerReply, Readable, GetType, BrokerMaySend, Put, PutFirst;
    hide PublishFrame, SubscribeFrame, UnsubscribeFrame;
    match s
    case Publish(m, now) => RequestRevivesNothing(w, PublishRequest(PublishMid(w.c, m), m), Publishing(w.c, m, now), t);
    case Subscribe(topic, qos, now) =>
      RequestRevivesNothing(w, SubscribeRequest(w.c.gmid, topic, qos), Subscribing(w.c, topic, qos, now), t);
    case Unsubscribe(topic, now) =>
      RequestRevivesNothing(w, UnsubscribeRequest(w.c.gmid, topic), Unsubscribing(w.c, topic, now), t);
    case _ =>
  }

  lemma RequestRevivesNothing(w: World, r: Request, o: Outcome, t: nat)
    requires t < |w.history|
    ensures Pending(MakeRequest(w, r, o), t) ==> Pending(w, t)
  {
    hide PutFirst;
    assert (w.history + [r])[t] == w.history[t];
  }

  /** Packet i makes way for a packet of the same handshake, if that is not dropped. */
  lemma PutInPlace(w: World, i: nat, d: ClientState, toBroker: bool, f: RawFrame, t: nat)
    requires WireMatches(w) && i in w.wire && w.wire[i].tag.Some? && |f.data| <= 3
    requires forall j :: j in w.wire && w.wire[j].tag == w.wire[i].tag ==> j == i
    ensures var v := Put(w.(wire := w.wire - {i}, c := d), toBroker, f, w.wire[i].tag);
            OnTheWay(v, t) <==> OnTheWay(w, t) && (w.wire[i].tag == Some(t) ==> !(toBroker && w.closing))
  {
    hide Expected, Unrelated;
    var v := Put(w.(wire := w.wire - {i}, c := d), toBroker, f, w.wire[i].tag);
    if !(toBroker && w.closing) {
      assert w.next in v.wire && v.wire[w.next].tag == w.wire[i].tag;
    }
    forall j | j in w.wire && j != i
      ensures j in v.wire && v.wire[j] == w.wire[j]
    {
    }
    assert OnTheWay(w, w.wire[i].tag.value);
  }

  lemma RemoveOther(w: World, i: nat, v: World, t: nat)
    requires i in w.wire && w.wire[i].tag != Some(t)
    requires forall j :: j in w.wire && j != i ==> j in v.wire && v.wire[j] == w.wire[j]
    requires forall j :: j in v.wire && j !in w.wire ==> v.wire[j].tag != Some(t)
    requires i in v.wire ==> v.wire[i] == w.wire[i]
    ensures OnTheWay(v, t) <==> OnTheWay(w, t)
  {
  }

  /** The client receives a packet that concerns request t while its socket is closing. */
  predicate CutsOff(w: World, s: Step, t: nat) {
    s.ClientReceives? && s.i in w.wire && w.wire[s.i].tag == Some(t) && w.closing
  }

  lemma BrokerMovesOn(w: World, i: nat, code: byte, t: nat, kind: Kind)
    requires Inv(w, kind) && Enabled(w, BrokerAnswers(i, code)) && t < |w.history| && KindOf(w.history[t]) == kind
    ensures OnTheWay(Next(w, BrokerAnswers(i, code)), t) <==> OnTheWay(w, t)
  {
    hide Expected, Unrelated, BrokerReply, OwnersMatch, AnswersTagged, AnswersRight, Settled, Pending, BrokerMaySend;
    var v := Next(w, BrokerAnswers(i, code));
    if w.wire[i].tag == Some(t) {
      BrokerFollowsUp(w.history[t], w.wire[i].frame, code);
      PutInPlace(w, i, w.c, false, BrokerReply(w.wire[i].frame, code).value, t);
    } else {
      RemoveOther(w, i, v, t);
    }
  }

  lemma ReceiveOther(w: World, i: nat, now: nat, t: nat)
    requires WireMatches(w) && i in w.wire && Readable(w.wire[i].frame) && w.wire[i].tag != Some(t)
    ensures OnTheWay(Receive(w, i, now), t) <==> OnTheWay(w, t)
  {
    hide Expected, Unrelated, Arrived, Completions, Restrict, Readable;
    RemoveOther(w, i, Receive(w, i, now), t);
  }

  lemma ClientMovesOn(w: World, i: nat, now: nat, t: nat, kind: Kind)
    requires Inv(w, kind) && Enabled(w, ClientReceives(i, now)) && t < |w.history| && KindOf(w.history[t]) == kind
    requires Pending(Receive(w, i, now), t)
    ensures OnTheWay(Receive(w, i, now), t) <==> OnTheWay(w, t) && !CutsOff(w, ClientReceives(i, now), t)
  {
    hide Expected, Unrelated, Readable, Arrived, Pending, OwnersMatch, AnswersTagged, AnswersRight, Settled, Receive;
    if w.wire[i].tag != Some(t) {
      ReceiveOther(w, i, now, t);
    } else {
      AnswerArrives(w.history[t], w.c, w.wire[i].frame, now);
      var o := Arrived(w.c, w.wire[i].frame, now);
      if Proceeds(w.history[t], w.c, o) {
        ProgressEffect(w, i, t, now);
        PutInPlace(w, i, o.state, true, o.out[0].frame, t);
      } else {
        CompletionEffect(w, i, t, now);
        CompletionPending(w, i, t, Answer(Some(t), o.out[0].signal), Receive(w, i, now), kind);
        assert false;
      }
    }
  }

  /** While a request is pending, every packet of its handshake is followed by the next one, except the
      one the client answers while its socket is closing; then nothing follows any more. */
  lemma StepOnTheWay(w: World, s: Step, kind: Kind, t: nat)
    requires Inv(w, kind) && Enabled(w, s) && t < |w.history| && KindOf(w.history[t]) == kind
    requires Pending(Next(w, s), t)
    ensures Pending(w, t) && (OnTheWay(Next(w, s), t) <==> OnTheWay(w, t) && !CutsOff(w, s, t))
  {
    hide Inv, Pending, OwnersMatch, WireMatches, Receive, MakeRequest, BrokerReply, BrokerMaySend, Readable;
    Parts(w, kind);
    NoRevival(w, s, t);
    if s.BrokerAnswers? {
      BrokerMovesOn(w, s.i, s.code, t, kind);
    } else if s.ClientReceives? {
      ClientMovesOn(w, s.i, s.now, t, kind);
    } else {
      WireGrows(w, s);
    }
  }

  /** A closing socket stays so until the connection is lost. */
  lemma ClosingLasts(w: World, s: Step)
    requires Enabled(w, s) && WireMatches(w) && w.closing && s != NetworkDown
    ensures Next(w, s).closing
  {
    hide Arrived, BrokerReply, Completions, Restrict, Expected, Unrelated, Readable, BrokerMaySend;
    hide PublishFrame, SubscribeFrame, UnsubscribeFrame, GetType;
  }

  // ---------------------------------------------------------------------------
  // Runs

  ghost predicate IsRun(ws: seq<World>, steps: seq<Step>) {
    && |ws| == |steps| + 1
    && (exists c :: ws[0] == Initial(c))
    && forall k :: 0 <= k < |steps| ==> Enabled(ws[k], steps[k]) && ws[k + 1] == Next(ws[k], steps[k])
  }

  /** Identifiers chosen for requests of this kind are never in use. */
  ghost predicate AlwaysFresh(ws: seq<World>, steps: seq<Step>, kind: Kind)
    requires |ws| == |steps| + 1
  {
    forall k :: 0 <= k < |steps| && Makes(steps[k], kind) ==> Fresh(ws[k], steps[k])
  }

  lemma {:induction false} RunKeeps(ws: seq<World>, steps: seq<Step>, kind: Kind, k: nat)
    requires IsRun(ws, steps) && AlwaysFresh(ws, steps, kind) && k < |ws|
    ensures Inv(ws[k], kind)
  {
    hide Inv, Next, Enabled, Fresh, Makes;
    if k == 0 {
      var c :| ws[0] == Initial(c);
      InitialInv(c, kind);
    } else {
      RunKeeps(ws, steps, kind, k - 1);
      NextKeeps(ws[k - 1], steps[k - 1], kind);
    }
  }

  lemma InitialInv(c: ClientState, kind: Kind)
    ensures Inv(Initial(c), kind)
  {
  }

  /** A packet of a client's QoS 1 or 2 handshake belongs to the publish request under its identifier. */
  lemma HandshakeIsTagged(w: World, i: nat)
    requires WireMatches(w) && i in w.wire && OfHandshake(w.wire[i].toBroker, w.wire[i].frame)
    ensures HasKind(w, w.wire[i].tag, Messages) && |w.wire[i].frame.data| >= 2
    ensures w.history[w.wire[i].tag.value].mid == HandshakeMid(w.wire[i].frame)
  {
    hide GetType, GetQos, DecodeInt, EncodeInt, EncodeBytes;
    hide SetQos, PublishHeader, BrokerReply, BrokerMaySend, ParsePublish;
    HeaderTypes();
    var f := w.wire[i].frame;
    match w.history[w.wire[i].tag.value]
    case PublishRequest(mid, m) =>
      PublishParses(m, mid);
      PublishHeaderFields(m);
      AckParses(f.header, mid);
    case SubscribeRequest(_, _, _) => assert false;
    case UnsubscribeRequest(_, _) => assert false;
  }

  /** In every run in which publish identifiers are not in use when chosen, at every moment: of the
      PUBLISH and PUBREL packets on the way to the broker and the PUBACK, PUBREC and PUBCOMP packets on
      the way back, no two carry the same identifier, and while there is one the client holds the
      message it was published with. */
  lemma OnePacketPerIdentifier(ws: seq<World>, steps: seq<Step>, k: nat, i: nat, j: nat)
    requires IsRun(ws, steps) && AlwaysFresh(ws, steps, Messages) && k < |ws|
    requires i in ws[k].wire && OfHandshake(ws[k].wire[i].toBroker, ws[k].wire[i].frame)
    requires j in ws[k].wire && OfHandshake(ws[k].wire[j].toBroker, ws[k].wire[j].frame)
    ensures var w := ws[k];
            var f, g := w.wire[i].frame, w.wire[j].frame;
            && |f.data| >= 2 && |g.data| >= 2
            && (HandshakeMid(f) == HandshakeMid(g) ==> i == j)
            && HandshakeMid(f) in w.c.midToMessage
            && exists t: nat :: t < |w.history| && w.history[t] == PublishRequest(HandshakeMid(f), w.c.midToMessage[HandshakeMid(f)])
                                && w.wire[i].tag == Some(t) && Expected(w.history[t], w.wire[i].toBroker, f)
  {
    hide IsRun, AlwaysFresh, Expected, Unrelated, OfHandshake, HandshakeMid, Settled, AnswersTagged, AnswersRight;
    RunKeeps(ws, steps, Messages, k);
    var w := ws[k];
    HandshakeIsTagged(w, i);
    HandshakeIsTagged(w, j);
    assert Pending(w, w.wire[i].tag.value) && Pending(w, w.wire[j].tag.value);
  }

  /** In every run, for every request made since the connection was last lost: it has been reported
      once and is no longer in the tables, or has not been reported and is. Each report, of whatever
      age, belongs to one request, names the right message or topic, and is the only one for it. */
  lemma ReportedExactlyOnce(ws: seq<World>, steps: seq<Step>, kind: Kind, k: nat)
    requires IsRun(ws, steps) && AlwaysFresh(ws, steps, kind) && k < |ws|
    ensures var w := ws[k];
            && (forall t: nat :: w.since <= t < |w.history| && KindOf(w.history[t]) == kind ==>
                  (Pending(w, t) <==> !Answered(w, t)))
            && (forall a :: 0 <= a < |w.answers| ==> w.answers[a].tag.Some? && w.answers[a].tag.value < |w.history|)
            && (forall a :: 0 <= a < |w.answers| && HasKind(w, w.answers[a].tag, kind) ==>
                  Answers(w.history[w.answers[a].tag.value], w.answers[a].signal))
            && (forall a, b :: 0 <= a < |w.answers| && 0 <= b < |w.answers|
                               && HasKind(w, w.answers[a].tag, kind) && w.answers[a].tag == w.answers[b].tag ==>
                  a == b)
  {
    hide IsRun, AlwaysFresh, Pending, Answered, Answers, OwnersMatch, WireMatches, OnePacketEach, HasKind;
    RunKeeps(ws, steps, kind, k);
  }

  /** The client's table of a kind holds exactly the pending requests of that kind, under their
      identifiers. */
  lemma TablesHoldThePending(ws: seq<World>, steps: seq<Step>, kind: Kind, k: nat, mid: u16)
    requires IsRun(ws, steps) && AlwaysFresh(ws, steps, kind) && k < |ws|
    ensures TableIsExact(ws[k], kind, mid)
  {
    hide IsRun, AlwaysFresh, Settled, WireMatches, OnePacketEach, AnswersTagged, AnswersRight;
    RunKeeps(ws, steps, kind, k);
    ExactTable(ws[k], kind, mid);
  }

  ghost predicate TableIsExact(w: World, kind: Kind, mid: u16) {
    && (mid in (if kind == Messages then w.c.midToMessage.Keys else w.c.midToTopic.Keys) <==>
        exists t: nat :: Pending(w, t) && KindOf(w.history[t]) == kind && w.history[t].mid == mid)
    && (forall t: nat :: Pending(w, t) && KindOf(w.history[t]) == kind && w.history[t].mid == mid ==> Holds(w.history[t], w.c))
  }

  lemma ExactTable(w: World, kind: Kind, mid: u16)
    requires OwnersMatch(w)
    ensures TableIsExact(w, kind, mid)
  {
    if kind == Messages && mid in w.c.midToMessage {
      assert Pending(w, w.messageOwner[mid]);
    }
    if kind == Topics && mid in w.c.midToTopic {
      assert Pending(w, w.topicOwner[mid]);
    }
  }

  /** The packet types that end a handshake. */
  predicate IsFinal(t: byte, kind: Kind) {
    match kind
    case Messages => t == PUBACK || t == PUBCOMP
    case Topics => t == SUBACK || t == UNSUBACK
  }

  /** The final acknowledgement of a request makes the client report exactly that request. */
  lemma FinalAckReports(ws: seq<World>, steps: seq<Step>, kind: Kind, k: nat)
    requires IsRun(ws, steps) && AlwaysFresh(ws, steps, kind) && k < |steps| && steps[k].ClientReceives?
    requires IsFinal(GetType(ws[k].wire[steps[k].i].frame.header), kind)
    ensures Reports(ws[k], steps[k].i, steps[k].now, kind, ws[k + 1])
  {
    hide Inv, Reports, Next, GetType;
    RunKeeps(ws, steps, kind, k);
    FinalAckStep(ws[k], steps[k].i, steps[k].now, kind);
    NextReceives(ws[k], steps[k].i, steps[k].now);
  }

  lemma NextReceives(w: World, i: nat, now: nat)
    requires Enabled(w, ClientReceives(i, now))
    ensures Next(w, ClientReceives(i, now)) == Receive(w, i, now)
  {
  }

  /** Receiving packet i ends the handshake of the pending request it belongs to: the client reports
      that request, once, and it is no longer pending. */
  ghost predicate Reports(w: World, i: nat, now: nat, kind: Kind, v: World) {
    && i in w.wire && Readable(w.wire[i].frame) && HasKind(w, w.wire[i].tag, kind)
    && var t, out := w.wire[i].tag.value, Arrived(w.c, w.wire[i].frame, now).out;
       && Pending(w, t) && !Pending(v, t)
       && |out| == 1 && out[0].Emit? && Answers(w.history[t], out[0].signal)
       && (out[0].signal.Subscribed? ==> |w.wire[i].frame.data| == 3 && out[0].signal.qos == w.wire[i].frame.data[2])
       && v.answers == w.answers + [Answer(Some(t), out[0].signal)]
  }

  lemma FinalAckStep(w: World, i: nat, now: nat, kind: Kind)
    requires Inv(w, kind) && Enabled(w, ClientReceives(i, now))
    requires IsFinal(GetType(w.wire[i].frame.header), kind)
    ensures Reports(w, i, now, kind, Receive(w, i, now))
  {
    hide GetType, Settled, AnswersTagged, AnswersRight, Readable, Arrived, Receive;
    hide Completed, Answers, Finishes, Holds, OwnersMatch, Expected, BrokerMaySend;
    FinalIsTagged(w, i, kind);
    var t := w.wire[i].tag.value;
    PendingHolds(w, t);
    AnswerArrives(w.history[t], w.c, w.wire[i].frame, now);
    FinalFinishes(w.history[t], w.c, w.wire[i].frame, now, kind);
    FinishesReports(w.history[t], w.c, Arrived(w.c, w.wire[i].frame, now));
    GrantIsReported(w.history[t], w.c, w.wire[i].frame, now);
    CompletionEffect(w, i, t, now);
    CompletionPending(w, i, t, Answer(Some(t), Arrived(w.c, w.wire[i].frame, now).out[0].signal), Receive(w, i, now), kind);
  }

  lemma FinishesReports(r: Request, c: ClientState, o: Outcome)
    requires Finishes(r, c, o)
    ensures |o.out| == 1 && o.out[0].Emit?
  {
  }

  /** The QoS the broker granted is the one reported. */
  lemma GrantIsReported(r: Request, c: ClientState, f: RawFrame, now: nat)
    requires Expected(r, false, f) && Readable(f)
    ensures forall x :: x in Arrived(c, f, now).out && x.Emit? && x.signal.Subscribed? ==> |f.data| == 3 && x.signal.qos == f.data[2]
  {
    hide GetType, GetQos, DecodeInt, EncodeInt, SetQos, PublishFrame;
    HeaderTypes();
  }

  /** Where reports come from, in every run: a publish at QoS 0 is reported in its own step, with its own
      message and identifier; a publish above QoS 0 is not reported in its own step; and apart from that
      only receiving a packet reports anything, and then at most one completion. */
  lemma ReportsComeFrom(ws: seq<World>, steps: seq<Step>, k: nat)
    requires IsRun(ws, steps) && k < |steps|
    ensures var w, v, s := ws[k], ws[k + 1], steps[k];
            if s.Publish? then
              && v.history == w.history + [PublishRequest(PublishMid(w.c, s.m), s.m)]
              && v.answers == w.answers + (if s.m.qos == QOS0 then [Answer(Some(|w.history|), Published(s.m, s.m.id))] else [])
            else if s.ClientReceives? then
              v.history == w.history && |w.answers| <= |v.answers| <= |w.answers| + 1 && v.answers[..|w.answers|] == w.answers
            else v.answers == w.answers
  {
    hide Next;
    StepReports(ws[k], steps[k]);
  }

  lemma StepReports(w: World, s: Step)
    requires Enabled(w, s)
    ensures var v := Next(w, s);
            if s.Publish? then
              && v.history == w.history + [PublishRequest(PublishMid(w.c, s.m), s.m)]
              && v.answers == w.answers + (if s.m.qos == QOS0 then [Answer(Some(|w.history|), Published(s.m, s.m.id))] else [])
            else if s.ClientReceives? then
              v.history == w.history && |w.answers| <= |v.answers| <= |w.answers| + 1 && v.answers[..|w.answers|] == w.answers
            else v.answers == w.answers
  {
    hide PublishFrame, SubscribeFrame, UnsubscribeFrame, BrokerReply, BrokerMaySend, GetType, Readable, Restrict;
    hide Put, PutFirst, Completions, Arrived;
    RequestsReportNothing(w, s);
    match s
    case Publish(m, now) =>
      if m.qos == QOS0 {
        InstantReport(Publishing(w.c, m, now).out, Some(|w.history|));
      }
    case Disconnect(now) => AfterQuiet(w, Disconnecting(w.c, now), None);
    case PingDue(now) => AfterQuiet(w, Client.PingDue(w.c, now), None);
    case PingTimeout(now) => AfterQuiet(w, Client.PingTimeout(w.c, now), None);
    case NetworkUp(f, now) => AfterQuiet(w, Sending(w.c, f, now), None);
    case NetworkDown => AfterQuiet(w, NetworkLost(w.c), None);
    case ClientReceives(i, now) => ArrivalReportsOne(w.c, w.wire[i].frame, now, w.wire[i].tag);
    case _ =>
  }

  lemma ArrivalReportsOne(c: ClientState, f: RawFrame, now: nat, tag: Option<nat>)
    requires Readable(f)
    ensures |Completions(Arrived(c, f, now).out, tag)| <= 1
  {
    hide GetType, GetQos, Readable, ParsePublish, AckFrame, Completions;
    var out := Arrived(c, f, now).out;
    if |out| == 2 {
      NothingCompleted(out, tag);
    } else if |out| == 1 {
      OneCompletion(out, tag);
    } else {
      NothingCompleted(out, tag);
    }
  }

  lemma OneCompletion(out: seq<Action>, tag: Option<nat>)
    requires |out| == 1
    ensures |Completions(out, tag)| <= 1
  {
    assert out[1..] == [];
    assert Completions(out[1..], tag) == [];
  }

  /** What a publish at QoS 0 puts on an open socket reads back as the message published, an over-long
      topic cut to 65535 bytes. */
  lemma InstantArrives(w: World, m: Message, now: nat)
    requires m.qos == QOS0 && w.up && !w.closing && PublishSize(m) <= MAX_REMAINING_LENGTH
    ensures var v := Next(w, Publish(m, now));
            && v.wire == w.wire[w.next := v.wire[w.next]]
            && var flight := v.wire[w.next];
               && flight.toBroker && flight.tag == None && Readable(flight.frame) && GetType(flight.frame.header) == PUBLISH
               && ParsePublish(flight.frame) == m.(id := 0, topic := Clip(m.topic))
  {
    hide PublishFrame, GetType, Readable, ParsePublish, PublishSize, Completions;
    PublishFrameSize(m, PublishMid(w.c, m));
    PublishParses(m, PublishMid(w.c, m));
  }

  lemma FinalIsTagged(w: World, i: nat, kind: Kind)
    requires WireMatches(w) && Enabled(w, ClientReceives(i, 0)) && IsFinal(GetType(w.wire[i].frame.header), kind)
    ensures HasKind(w, w.wire[i].tag, kind) && Expected(w.history[w.wire[i].tag.value], false, w.wire[i].frame)
  {
    hide GetType, GetQos, EncodeInt, Readable;
    HeaderTypes();
  }

  lemma FinalFinishes(r: Request, c: ClientState, f: RawFrame, now: nat, kind: Kind)
    requires Readable(f) && IsFinal(GetType(f.header), kind)
    ensures !Proceeds(r, c, Arrived(c, f, now))
  {
    hide GetType, GetQos, DecodeInt, Connacked, MessageArrived, ParsePublish, Expected;
  }

  /** After step j and before moment k, the client received a packet of request t while closing. */
  ghost predicate CutOff(ws: seq<World>, steps: seq<Step>, t: nat, j: nat, k: nat)
    requires k <= |steps| < |ws|
  {
    exists n :: j < n < k && CutsOff(ws[n], steps[n], t)
  }

  /** In every run, for every request, made at step j: as long as it is pending, exactly one packet of
      its handshake is on the way if the socket took the first one and has not been closing at any
      moment the client received one of the following; otherwise none is. */
  lemma OnTheWayIff(ws: seq<World>, steps: seq<Step>, kind: Kind, j: nat, k: nat)
    requires IsRun(ws, steps) && AlwaysFresh(ws, steps, kind) && j < k < |ws| && Makes(steps[j], kind)
    ensures var t := |ws[j].history|;
            t < |ws[j + 1].history| && t < |ws[k].history|
            && (Pending(ws[k], t) ==>
                (OnTheWay(ws[k], t) <==> Departs(ws[j], ws[j + 1].history[t]) && !CutOff(ws, steps, t, j, k)))
            && (forall a, b :: a in ws[k].wire && b in ws[k].wire && ws[k].wire[a].tag == ws[k].wire[b].tag == Some(t) ==> a == b)
  {
    hide IsRun, Next, Enabled, Pending, OnTheWay, Departs, CutOff, Makes, Fresh, WireMatches, OwnersMatch, AnswersTagged, AnswersRight;
    FollowRequest(ws, steps, kind, j, k);
    RunKeeps(ws, steps, kind, k);
  }

  lemma {:induction false} FollowRequest(ws: seq<World>, steps: seq<Step>, kind: Kind, j: nat, k: nat)
    requires IsRun(ws, steps) && AlwaysFresh(ws, steps, kind) && j < k < |ws| && Makes(steps[j], kind)
    ensures var t := |ws[j].history|;
            t < |ws[j + 1].history| && t < |ws[k].history|
            && ws[k].history[t] == ws[j + 1].history[t] && KindOf(ws[k].history[t]) == kind
            && (Pending(ws[k], t) ==>
                && (OnTheWay(ws[k], t) <==> Departs(ws[j], ws[j + 1].history[t]) && !CutOff(ws, steps, t, j, k))
                && (CutOff(ws, steps, t, j, k) ==> ws[k].closing))
    decreases k
  {
    hide Inv, Next, Enabled, Fresh, Makes, Pending, OnTheWay, Departs, WireMatches, OwnersMatch, CutsOff;
    var t := |ws[j].history|;
    RunKeeps(ws, steps, kind, k - 1);
    Parts(ws[k - 1], kind);
    if k == j + 1 {
      RequestDeparts(ws[j], steps[j], kind);
    } else {
      FollowRequest(ws, steps, kind, j, k - 1);
      HistoryGrows(ws[k - 1], steps[k - 1]);
      assert ws[k].history[t] == ws[k].history[..|ws[k - 1].history|][t];
      if Pending(ws[k], t) {
        StepOnTheWay(ws[k - 1], steps[k - 1], kind, t);
        CutOffStep(ws, steps, t, j, k);
        if CutOff(ws, steps, t, j, k) {
          NoRevival(ws[k - 1], steps[k - 1], t);
          CutsOffCloses(ws[k - 1], steps[k - 1], t);
          ClosingLasts(ws[k - 1], steps[k - 1]);
        }
      }
    }
  }

  lemma CutOffStep(ws: seq<World>, steps: seq<Step>, t: nat, j: nat, k: nat)
    requires j + 1 < k <= |steps| < |ws|
    ensures CutOff(ws, steps, t, j, k) <==> CutOff(ws, steps, t, j, k - 1) || CutsOff(ws[k - 1], steps[k - 1], t)
  {
    hide CutsOff;
  }

  lemma CutsOffCloses(w: World, s: Step, t: nat)
    ensures CutsOff(w, s, t) ==> w.closing
  {
  }

  /** So a request whose first packet the socket took never stalls before its connection ends: what is
      on the way belongs to a pending request, a pending request has its packet on the way unless the
      socket is closing, and once nothing is on the way and the socket is neither closing nor has been
      lost since, the request has been reported. */
  lemma NothingStalls(ws: seq<World>, steps: seq<Step>, kind: Kind, j: nat, k: nat)
    requires IsRun(ws, steps) && AlwaysFresh(ws, steps, kind) && j < k < |ws| && Makes(steps[j], kind)
    ensures var t := |ws[j].history|;
            t < |ws[j + 1].history| && t < |ws[k].history|
            && (Departs(ws[j], ws[j + 1].history[t]) ==>
                && (OnTheWay(ws[k], t) ==> Pending(ws[k], t))
                && (Pending(ws[k], t) ==> OnTheWay(ws[k], t) || ws[k].closing)
                && (ws[k].wire == map[] && ws[k].since <= t && !ws[k].closing ==> Answered(ws[k], t)))
  {
    hide IsRun, Next, Enabled, Pending, Answered, Departs, CutOff, Makes, Fresh, WireMatches, OwnersMatch, AnswersTagged, AnswersRight;
    FollowRequest(ws, steps, kind, j, k);
    RunKeeps(ws, steps, kind, k);
  }

  /** A run in which it does: a QoS 2 publish whose PUBREC arrives after the application has asked for
      the end of the connection, and before that has come. PUBREL is dropped, the message stays in the
      table, and nothing is on the way for it. */
  lemma ClosingStalls(c: ClientState, connect: RawFrame, m: Message, code: byte, now: nat)
    requires GetType(connect.header) == CONNECT && |connect.data| <= MAX_REMAINING_LENGTH
    requires m.qos == QOS2 && PublishSize(m) <= MAX_REMAINING_LENGTH
    ensures var w0 := Initial(c);
            Enabled(w0, NetworkUp(connect, now))
            && var w1 := Next(w0, NetworkUp(connect, now));
               var w2 := Next(w1, Publish(m, now));
               Enabled(w2, BrokerAnswers(1, code))
               && var w3 := Next(w2, BrokerAnswers(1, code));
                  var w4 := Next(w3, Disconnect(now));
                  Enabled(w4, ClientReceives(2, now))
                  && var w5 := Next(w4, ClientReceives(2, now));
                     && Departs(w1, w2.history[0])
                     && Pending(w5, 0) && !Answered(w5, 0) && !OnTheWay(w5, 0) && w5.closing
  {
    hide PublishFrame, GetType, GetQos, BrokerReply, AckFrame, Readable, PublishSize, Next, Enabled;
    ConnectDeparts(c, connect, now);
    var w1 := Next(Initial(c), NetworkUp(connect, now));
    var mid := PublishMid(w1.c, m);
    PublishFrameSize(m, mid);
    QosTwoExchange(m, mid, code);
    PublishDeparts(w1, m, now);
    var w2 := Next(w1, Publish(m, now));
    BrokerReplies(w2, 1, AckFrame(PUBREC, mid), code);
    var w3 := Next(w2, BrokerAnswers(1, code));
    assert w3.wire == map[0 := Flight(true, connect, None), 2 := Flight(false, AckFrame(PUBREC, mid), Some(0))];
    DisconnectCloses(w3, now);
    var w4 := Next(w3, Disconnect(now));
    ReleaseIsDropped(w4, 2, mid, now);
  }

  lemma ConnectDeparts(c: ClientState, connect: RawFrame, now: nat)
    requires GetType(connect.header) == CONNECT && |connect.data| <= MAX_REMAINING_LENGTH
    ensures var w := Initial(c);
            Enabled(w, NetworkUp(connect, now))
            && Next(w, NetworkUp(connect, now)) == w.(c := Sending(w.c, connect, now).state, up := true, closing := false,
                                                     wire := map[0 := Flight(true, connect, None)], next := 1)
  {
    hide After;
    AfterQuiet(Initial(c), Sending(Initial(c).c, connect, now), None);
  }

  lemma PublishDeparts(w: World, m: Message, now: nat)
    requires QOS0 < m.qos <= QOS2 && w.up && !w.closing && |PublishFrame(m, PublishMid(w.c, m)).data| <= MAX_REMAINING_LENGTH
    ensures Enabled(w, Publish(m, now))
    ensures var mid, tag := PublishMid(w.c, m), |w.history|;
            Next(w, Publish(m, now)) ==
            w.(c := Publishing(w.c, m, now).state, history := w.history + [PublishRequest(mid, m)],
               messageOwner := w.messageOwner[mid := tag],
               wire := w.wire[w.next := Flight(true, PublishFrame(m, mid), Some(tag))], next := w.next + 1)
  {
    hide PublishFrame, After;
    RequestsReportNothing(w, Publish(m, now));
  }

  lemma DisconnectCloses(w: World, now: nat)
    requires w.up && !w.closing
    ensures Enabled(w, Disconnect(now))
    ensures Next(w, Disconnect(now)) ==
            w.(c := Disconnecting(w.c, now).state, closing := true,
               wire := w.wire[w.next := Flight(true, RawFrame(DISCONNECT, []), None)], next := w.next + 1)
  {
    hide After;
    AfterQuiet(w, Disconnecting(w.c, now), None);
  }

  lemma ReleaseIsDropped(w: World, i: nat, mid: u16, now: nat)
    requires w.up && w.closing && i in w.wire && w.wire[i] == Flight(false, AckFrame(PUBREC, mid), Some(0))
    requires Readable(AckFrame(PUBREC, mid)) && mid in w.c.midToMessage
    ensures Enabled(w, ClientReceives(i, now))
    ensures var v := Next(w, ClientReceives(i, now));
            && v.wire == w.wire - {i} && v.history == w.history && v.since == w.since && v.closing && v.answers == w.answers
            && mid in v.c.midToMessage && (mid in w.messageOwner ==> mid in v.messageOwner && v.messageOwner[mid] == w.messageOwner[mid])
  {
    hide AckFrame, Arrived, Readable, Completions;
    PubrecArrives(w.c, mid, now);
    assert w.answers + [] == w.answers;
  }

  lemma QosTwoExchange(m: Message, mid: u16, code: byte)
    requires m.qos == QOS2
    ensures BrokerReply(PublishFrame(m, mid), code) == Some(AckFrame(PUBREC, mid))
    ensures |AckFrame(PUBREC, mid).data| == 2 && Readable(AckFrame(PUBREC, mid))
  {
    hide GetType, GetQos, EncodeInt, DecodeInt, EncodeBytes, PublishHeader;
    HeaderTypes();
    PublishParses(m, mid);
    PublishHeaderFields(m);
  }

  lemma PubrecArrives(c: ClientState, mid: u16, now: nat)
    requires Readable(AckFrame(PUBREC, mid))
    ensures var o := Arrived(c, AckFrame(PUBREC, mid), now);
            SameTables(c, o.state) && |o.out| == 1 && o.out[0].Send? && Completions(o.out, Some(0)) == []
  {
    hide GetType, EncodeInt, DecodeInt;
    HeaderTypes();
    var out := Arrived(c, AckFrame(PUBREC, mid), now).out;
    assert out[1..] == [];
  }

  // ---------------------------------------------------------------------------
  // When is an identifier not in use?

  /** The request got its identifier from the client's counter. */
  predicate Drew(r: Request) {
    r.PublishRequest? ==> r.message.qos > QOS0 && r.message.id == 0
  }

  /** How many identifiers these requests have drawn. */
  ghost function Draws(history: seq<Request>): nat {
    if history == [] then 0 else Draws(history[..|history| - 1]) + (if Drew(history[|history| - 1]) then 1 else 0)
  }

  /** How many identifiers have been drawn since request t drew its own, that one included. */
  ghost function DrawnSince(w: World, t: nat): int
    requires t < |w.history|
  {
    Draws(w.history) - Draws(w.history[..t])
  }

  /** The n-th identifier drawn is the n-th of the counter, whatever identifiers the application
      brings along itself. */
  ghost predicate Counted(w: World) {
    && w.c.gmid == DrawnMid(Draws(w.history))
    && forall t: nat :: t < |w.history| && Drew(w.history[t]) ==> w.history[t].mid == DrawnMid(Draws(w.history[..t]))
  }

  lemma CountedKeeps(w: World, s: Step)
    requires Counted(w) && Enabled(w, s)
    ensures Counted(Next(w, s))
  {
    hide Enabled, Next, MidAfter, Drew;
    CounterFollowsHistory(w, s);
    var v := Next(w, s);
    forall t: nat | t < |w.history|
      ensures v.history[t] == w.history[t] && v.history[..t] == w.history[..t]
    {
      assert v.history[t] == v.history[..|w.history|][t];
      assert v.history[..t] == v.history[..|w.history|][..t];
    }
  }

  /** A request that draws an identifier gets the next of the counter; nothing else moves the counter. */
  lemma CounterFollowsHistory(w: World, s: Step)
    requires Enabled(w, s)
    ensures var v := Next(w, s);
            if s.Publish? || Makes(s, Topics) then
              |v.history| == |w.history| + 1 && v.history[..|w.history|] == w.history
              && if Drew(v.history[|w.history|]) then v.history[|w.history|].mid == w.c.gmid && v.c.gmid == MidAfter(w.c.gmid)
                 else v.c.gmid == w.c.gmid
            else v.history == w.history && v.c.gmid == w.c.gmid
  {
    hide PublishFrame, SubscribeFrame, UnsubscribeFrame, BrokerReply;
    hide GetType, BrokerMaySend, Readable, Restrict, MidAfter;
    hide Arrived, Completions, Put, PutFirst, IsCompletion, MakeRequest, MakeInstant;
    if s.ClientReceives? {
      ArrivalKeepsCounter(w.c, w.wire[s.i].frame, s.now);
    }
  }

  lemma ArrivalKeepsCounter(c: ClientState, f: RawFrame, now: nat)
    requires Readable(f)
    ensures Arrived(c, f, now).state.gmid == c.gmid
  {
    hide GetType, GetQos, Readable, ParsePublish;
  }

  /** The step draws an identifier. */
  predicate DrawsOne(s: Step) {
    Makes(s, Topics) || (Makes(s, Messages) && s.m.id == 0)
  }

  /** A drawn identifier is in use exactly when a request of the same kind is pending that drew its
      own a multiple of 65535 draws ago, or brought the same one along. */
  lemma DrawnIsFreshIff(w: World, s: Step, kind: Kind)
    requires OwnersMatch(w) && Counted(w) && Makes(s, kind) && DrawsOne(s)
    ensures Fresh(w, s) <==>
            forall t: nat :: Pending(w, t) && KindOf(w.history[t]) == kind ==>
              if Drew(w.history[t]) then DrawnSince(w, t) % 65535 != 0 else w.history[t].mid != w.c.gmid
  {
    hide Counted, Fresh, OwnersMatch, DrawnSince;
    FreshIff(w, s, kind);
    forall t: nat | Pending(w, t) && Drew(w.history[t])
      ensures w.c.gmid == w.history[t].mid <==> DrawnSince(w, t) % 65535 == 0
    {
      SameDraw(w, t);
    }
  }

  lemma FreshIff(w: World, s: Step, kind: Kind)
    requires OwnersMatch(w) && Makes(s, kind) && DrawsOne(s)
    ensures Fresh(w, s) <==> forall t: nat :: Pending(w, t) && KindOf(w.history[t]) == kind ==> w.history[t].mid != w.c.gmid
  {
    if !Fresh(w, s) {
      var t := if kind == Messages then w.messageOwner[w.c.gmid] else w.topicOwner[w.c.gmid];
      assert Pending(w, t);
    }
  }

  lemma SameDraw(w: World, t: nat)
    requires Counted(w) && t < |w.history| && Drew(w.history[t])
    ensures w.c.gmid == w.history[t].mid <==> DrawnSince(w, t) % 65535 == 0
  {
    hide DrawnMid, Draws;
    MidsRepeat(Draws(w.history[..t]), Draws(w.history));
  }

  /** Fewer than 65535 identifiers have been drawn while a request of this kind is pending, and none
      of those brought along is the next to be drawn. */
  ghost predicate Prompt(w: World, kind: Kind) {
    forall t: nat :: Pending(w, t) && KindOf(w.history[t]) == kind ==>
      if Drew(w.history[t]) then DrawnSince(w, t) < 65535 else w.history[t].mid != w.c.gmid
  }

  /** An identifier is drawn only then, and one brought along only when it is not in use. */
  ghost predicate Careful(w: World, s: Step, kind: Kind) {
    Makes(s, kind) ==> if DrawsOne(s) then Prompt(w, kind) else Fresh(w, s)
  }

  lemma {:induction false} DrawsGrow(history: seq<Request>, t: nat)
    requires t < |history| && Drew(history[t])
    ensures Draws(history[..t]) < Draws(history)
  {
    hide Drew;
    var rest := history[..|history| - 1];
    if t < |rest| {
      assert rest[..t] == history[..t];
      DrawsGrow(rest, t);
    }
  }

  lemma CarefulIsFresh(w: World, s: Step, kind: Kind)
    requires OwnersMatch(w) && Counted(w) && Makes(s, kind) && Careful(w, s, kind)
    ensures Fresh(w, s)
  {
    hide Counted, Fresh, OwnersMatch, Draws;
    if DrawsOne(s) {
      forall t: nat | Pending(w, t) && KindOf(w.history[t]) == kind && Drew(w.history[t])
        ensures DrawnSince(w, t) % 65535 != 0
      {
        DrawsGrow(w.history, t);
      }
      DrawnIsFreshIff(w, s, kind);
    }
  }

  /** An application that is careful about requests of one kind never reuses an identifier for them,
      whatever it does about the others: the theorems above hold of all its runs. */
  lemma {:induction false} CarefulRunsAreFresh(ws: seq<World>, steps: seq<Step>, kind: Kind, k: nat)
    requires IsRun(ws, steps) && ws[0].c.gmid == 1
    requires forall j :: 0 <= j < |steps| ==> Careful(ws[j], steps[j], kind)
    requires k < |ws|
    ensures Inv(ws[k], kind) && Counted(ws[k])
    ensures k < |steps| && Makes(steps[k], kind) ==> Fresh(ws[k], steps[k])
  {
    hide Inv, Next, Enabled, Fresh, Counted, Careful, Makes;
    if k == 0 {
      var c :| ws[0] == Initial(c);
      InitialInv(c, kind);
      assert Counted(ws[0]) by { InitialCounted(ws[0]); }
    } else {
      CarefulRunsAreFresh(ws, steps, kind, k - 1);
      NextKeeps(ws[k - 1], steps[k - 1], kind);
      CountedKeeps(ws[k - 1], steps[k - 1]);
    }
    if k < |steps| && Makes(steps[k], kind) {
      Parts(ws[k], kind);
      CarefulIsFresh(ws[k], steps[k], kind);
    }
  }

  lemma InitialCounted(w: World)
    requires w.c.gmid == 1 && w.history == []
    ensures Counted(w)
  {
  }

  /** Whatever the application publishes, under whatever identifiers: if fewer than 65535 identifiers
      are drawn while a subscribe or unsubscribe request is pending, then the topic table holds
      exactly the requests since the last loss of the connection that have not been acknowledged, and
      every SUBACK and UNSUBACK reports its own request's topic, which nothing else ever does. */
  lemma TopicTableIsExact(ws: seq<World>, steps: seq<Step>, k: nat, mid: u16)
    requires IsRun(ws, steps) && ws[0].c.gmid == 1 && k < |ws|
    requires forall j, t: nat :: 0 <= j < |steps| && Makes(steps[j], Topics)
                                 && Pending(ws[j], t) && KindOf(ws[j].history[t]) == Topics ==>
               DrawnSince(ws[j], t) < 65535
    ensures TableIsExact(ws[k], Topics, mid) && AnswersRight(ws[k], Topics)
    ensures forall t: nat :: ws[k].since <= t < |ws[k].history| && KindOf(ws[k].history[t]) == Topics ==>
              (Pending(ws[k], t) <==> !Answered(ws[k], t))
    ensures k < |steps| && steps[k].ClientReceives? && IsFinal(GetType(ws[k].wire[steps[k].i].frame.header), Topics) ==>
              Reports(ws[k], steps[k].i, steps[k].now, Topics, ws[k + 1])
  {
    hide Inv, Counted, Fresh, Reports, TableIsExact, GetType, Next, Pending, Answered, DrawnSince, AnswersRight;
    forall j | 0 <= j < |steps|
      ensures Careful(ws[j], steps[j], Topics)
    {
      hide Enabled;
    }
    forall j | 0 <= j < |steps| && Makes(steps[j], Topics)
      ensures Fresh(ws[j], steps[j])
    {
      CarefulRunsAreFresh(ws, steps, Topics, j);
    }
    RunKeeps(ws, steps, Topics, k);
    Parts(ws[k], Topics);
    TablesHoldThePending(ws, steps, Topics, k, mid);
    ReportedExactlyOnce(ws, steps, Topics, k);
    if k < |steps| && steps[k].ClientReceives? && IsFinal(GetType(ws[k].wire[steps[k].i].frame.header), Topics) {
      FinalAckReports(ws, steps, Topics, k);
    }
  }

  /** Reusing an identifier that is in use breaks the promise: of two QoS 1 messages published under
      the same identifier the first acknowledgement reports the second message, and the second
      acknowledgement an empty one. */
  lemma ReuseMixesUp(c: ClientState, m: Message, m': Message, code: byte, now: nat)
    requires m.qos == m'.qos == QOS1 && m.id == m'.id != 0 && m != m'
    requires PublishSize(m) <= MAX_REMAINING_LENGTH && PublishSize(m') <= MAX_REMAINING_LENGTH
    ensures var w0 := Initial(c).(up := true);
            var w1 := Next(w0, Publish(m, now));
            var w2 := Next(w1, Publish(m', now));
            && !Fresh(w1, Publish(m', now))
            && Enabled(w2, BrokerAnswers(0, code))
            && var w3 := Next(w2, BrokerAnswers(0, code));
               Enabled(w3, BrokerAnswers(1, code))
               && var w4 := Next(w3, BrokerAnswers(1, code));
                  Enabled(w4, ClientReceives(2, now))
                  && var w5 := Next(w4, ClientReceives(2, now));
                     Enabled(w5, ClientReceives(3, now))
                     && Next(w5, ClientReceives(3, now)).answers ==
                        [Answer(Some(0), Published(m', m.id)), Answer(Some(1), Published(EMPTY_MESSAGE, m.id))]
  {
    hide PublishFrame, GetType, GetQos, BrokerReply, AckFrame, Arrived, Readable, Restrict, PublishSize, Completions;
    hide Next;
    var mid := m.id;
    PublishFrameSize(m, mid);
    PublishFrameSize(m', mid);
    QosOneExchange(m, mid, code);
    QosOneExchange(m', mid, code);
    var w0 := Initial(c).(up := true);
    PublishDeparts(w0, m, now);
    var w1 := Next(w0, Publish(m, now));
    PublishDeparts(w1, m', now);
    var w2 := Next(w1, Publish(m', now));
    assert w2.wire == map[0 := Flight(true, PublishFrame(m, mid), Some(0)), 1 := Flight(true, PublishFrame(m', mid), Some(1))];
    BothAcknowledged(w2, PublishFrame(m, mid), PublishFrame(m', mid), mid, m', code, now);
  }

  /** The second half of the run: both publishes are acknowledged and both acknowledgements arrive. */
  lemma BothAcknowledged(w: World, f: RawFrame, f': RawFrame, mid: u16, m: Message, code: byte, now: nat)
    requires w.up && w.next == 2 && w.answers == []
    requires w.wire == map[0 := Flight(true, f, Some(0)), 1 := Flight(true, f', Some(1))]
    requires BrokerReply(f, code) == BrokerReply(f', code) == Some(AckFrame(PUBACK, mid))
    requires Readable(AckFrame(PUBACK, mid)) && |AckFrame(PUBACK, mid).data| == 2
    requires w.c.midToMessage == map[mid := m]
    ensures var w3 := Next(w, BrokerAnswers(0, code));
            Enabled(w3, BrokerAnswers(1, code))
            && var w4 := Next(w3, BrokerAnswers(1, code));
               Enabled(w4, ClientReceives(2, now))
               && var w5 := Next(w4, ClientReceives(2, now));
                  Enabled(w5, ClientReceives(3, now))
                  && Next(w5, ClientReceives(3, now)).answers ==
                     [Answer(Some(0), Published(m, mid)), Answer(Some(1), Published(EMPTY_MESSAGE, mid))]
  {
    hide BrokerReply, AckFrame, Readable, Next, Enabled;
    var ack := AckFrame(PUBACK, mid);
    BrokerReplies(w, 0, ack, code);
    var w3 := Next(w, BrokerAnswers(0, code));
    BrokerReplies(w3, 1, ack, code);
    var w4 := Next(w3, BrokerAnswers(1, code));
    assert w4.wire == map[2 := Flight(false, ack, Some(0)), 3 := Flight(false, ack, Some(1))];
    AcknowledgementTaken(w4, 2, mid, now);
    var w5 := Next(w4, ClientReceives(2, now));
    assert w5.wire == map[3 := Flight(false, ack, Some(1))];
    AcknowledgementTaken(w5, 3, mid, now);
  }

  lemma BrokerReplies(w: World, i: nat, reply: RawFrame, code: byte)
    requires i in w.wire && w.wire[i].toBroker && w.up && |reply.data| == 2
    requires BrokerReply(w.wire[i].frame, code) == Some(reply)
    ensures Enabled(w, BrokerAnswers(i, code))
    ensures Next(w, BrokerAnswers(i, code)) ==
            w.(wire := (w.wire - {i})[w.next := Flight(false, reply, w.wire[i].tag)], next := w.next + 1)
  {
    hide BrokerReply;
  }

  lemma AcknowledgementTaken(w: World, i: nat, mid: u16, now: nat)
    requires i in w.wire && !w.wire[i].toBroker && w.wire[i].frame == AckFrame(PUBACK, mid) && Readable(w.wire[i].frame)
    ensures Enabled(w, ClientReceives(i, now))
    ensures var v := Next(w, ClientReceives(i, now));
            && v.wire == w.wire - {i} && v.c.midToMessage == w.c.midToMessage - {mid}
            && v.answers == w.answers + [Answer(w.wire[i].tag, Published(Lookup(w.c.midToMessage, mid, EMPTY_MESSAGE), mid))]
  {
    hide Arrived, AckFrame, Readable, Restrict, Completions;
    PubackArrives(w.c, mid, now, w.wire[i].tag);
  }

  lemma QosOneExchange(m: Message, mid: u16, code: byte)
    requires m.qos == QOS1
    ensures BrokerReply(PublishFrame(m, mid), code) == Some(AckFrame(PUBACK, mid))
    ensures |AckFrame(PUBACK, mid).data| == 2 && Readable(AckFrame(PUBACK, mid))
  {
    hide GetType, GetQos, EncodeInt, DecodeInt, EncodeBytes, PublishHeader;
    HeaderTypes();
    PublishParses(m, mid);
    PublishHeaderFields(m);
  }

  lemma PubackArrives(c: ClientState, mid: u16, now: nat, tag: Option<nat>)
    requires Readable(AckFrame(PUBACK, mid))
    ensures var o := Arrived(c, AckFrame(PUBACK, mid), now);
            && o.state == c.(midToMessage := c.midToMessage - {mid})
            && o.out == [Emit(Published(Lookup(c.midToMessage, mid, EMPTY_MESSAGE), mid))]
            && Completions(o.out, tag) == [Answer(tag, Published(Lookup(c.midToMessage, mid, EMPTY_MESSAGE), mid))]
  {
    hide GetType, EncodeInt, DecodeInt;
    HeaderTypes();
    AckParses(PUBACK, mid);
    var out := Arrived(c, AckFrame(PUBACK, mid), now).out;
    assert out[1..] == [];
    assert Completions([], tag) == [];
  }
}
