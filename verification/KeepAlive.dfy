/** Keep-alive over time: the client's two timers, a clock, and any traffic. */
module KeepAlive {
  import opened Bits
  import opened Frames
  import opened Wrappers
  import opened Packets
  import opened Connect
  import opened Client

  /** sends holds the times at which frames were handed to the network, lastPing the time of the
      last ping request. */
  datatype Timed = Timed(c: ClientState, now: nat, sends: seq<nat>, lastPing: nat)

  datatype Event = Tick(ms: nat)
                 | KeepAliveDue
                 | ResponseDue
                 | ConnectToHost
                 | NetworkUp(config: Config)
                 | NetworkDown
                 | DisconnectFromHost
                 | Publish(m: Message)
                 | Subscribe(topic: seq<byte>, qos: byte)
                 | Unsubscribe(topic: seq<byte>)
                 | Arrives(f: RawFrame)

  predicate DueBy(t: Timer, now: nat) {
    t.due.Some? && t.due.value <= now
  }

  /** Timers fire when due: time does not pass a moment at which one is to fire. */
  predicate Enabled(s: Timed, e: Event) {
    match e
    case Tick(ms) =>
      && (s.c.timer.due.Some? ==> s.now + ms <= s.c.timer.due.value)
      && (s.c.pingResponseTimer.due.Some? ==> s.now + ms <= s.c.pingResponseTimer.due.value)
    case KeepAliveDue => DueBy(s.c.timer, s.now)
    case ResponseDue => DueBy(s.c.pingResponseTimer, s.now)
    case Arrives(f) => Readable(f)
    case _ => true
  }

  function React(c: ClientState, e: Event, now: nat): Outcome
    requires e.Arrives? ==> Readable(e.f)
  {
    match e
    case Tick(_) => Outcome(c, [])
    case KeepAliveDue => PingDue(c, now)
    case ResponseDue => PingTimeout(c, now)
    case ConnectToHost => Outcome(c.(connection := StateConnecting), [OpenSocket])
    case NetworkUp(config) => Sending(c, ConnectFrame(config, KeepAliveOf(c.timer.interval)), now)
    case NetworkDown => NetworkLost(c)
    case DisconnectFromHost => Disconnecting(c, now)
    case Publish(m) => Publishing(c, m, now)
    case Subscribe(topic, qos) => Subscribing(c, topic, qos, now)
    case Unsubscribe(topic) => Unsubscribing(c, topic, now)
    case Arrives(f) => Arrived(c, f, now)
  }

  function Sends(out: seq<Action>): nat {
    if out == [] then 0 else (if out[0].Send? then 1 else 0) + Sends(out[1..])
  }

  predicate IsPing(e: Event, c: ClientState) {
    e == KeepAliveDue && c.connection == StateConnected
  }

  function Next(s: Timed, e: Event): Timed
    requires Enabled(s, e)
  {
    var o := React(s.c, e, s.now);
    Timed(o.state, if e.Tick? then s.now + e.ms else s.now,
          s.sends + seq(Sends(o.out), _ => s.now),
          if IsPing(e, s.c) then s.now else s.lastPing)
  }

  // ---------------------------------------------------------------------------
  // One event

  /** An event hands over at most one frame, and then the keep-alive timer starts over; otherwise it
      stays as it is, unless it is stopped by firing or by the end of the connection. */
  lemma TimerFollowsSends(c: ClientState, e: Event, now: nat)
    requires e.Arrives? ==> Readable(e.f)
    ensures var o := React(c, e, now);
            && Sends(o.out) <= 1
            && o.state.timer.interval == c.timer.interval
            && o.state.pingResponseTimer.interval == c.pingResponseTimer.interval
            && (Sends(o.out) == 1 ==> o.state.timer == c.timer.Start(now))
            && (Sends(o.out) == 0 && e != KeepAliveDue && e != NetworkDown ==> o.state.timer == c.timer)
            && (Sends(o.out) == 0 && (e == KeepAliveDue || e == NetworkDown) ==> o.state.timer.due == None)
            && (e == KeepAliveDue ==> (Sends(o.out) == 1 <==> c.connection == StateConnected))
  {
    hide GetType, GetQos, ParsePublish, Readable, PublishFrame, AckFrame, ConnectFrame, KeepAliveOf;
    var out := React(c, e, now).out;
    SendsOfFew(out);
  }

  lemma SendsOfFew(out: seq<Action>)
    requires |out| <= 3
    ensures Sends(out) == (if |out| > 0 && out[0].Send? then 1 else 0) + (if |out| > 1 && out[1].Send? then 1 else 0)
                          + (if |out| > 2 && out[2].Send? then 1 else 0)
  {
    assert |out| > 1 ==> Sends(out[1..]) == (if out[1].Send? then 1 else 0) + Sends(out[1..][1..]);
    assert |out| > 2 ==> Sends(out[1..][1..]) == (if out[2].Send? then 1 else 0) + Sends(out[1..][1..][1..]);
  }

  /** What happens to the ping response timer. */
  lemma ResponseTimerChanges(c: ClientState, e: Event, now: nat)
    requires e.Arrives? ==> Readable(e.f)
    ensures var d := React(c, e, now).state;
            d.pingResponseTimer ==
            if IsPing(e, c) then c.pingResponseTimer.Start(now)
            else if e == ResponseDue || e == NetworkDown || IsPingresp(e) then c.pingResponseTimer.Stop()
            else c.pingResponseTimer
  {
    hide GetType, GetQos, ParsePublish, Readable, PublishFrame, AckFrame, ConnectFrame, KeepAliveOf;
  }

  predicate IsPingresp(e: Event) {
    e.Arrives? && GetType(e.f.header) == PINGRESP
  }

  predicate SendsPing(out: seq<Action>) {
    exists i :: 0 <= i < |out| && out[i].Send? && GetType(out[i].frame.header) == PINGREQ
  }

  /** Ping requests are sent by the keep-alive timer only, and only while connected. */
  lemma PingOnlyWhenConnected(s: Timed, e: Event)
    requires Enabled(s, e)
    ensures SendsPing(React(s.c, e, s.now).out) <==> IsPing(e, s.c)
  {
    hide GetType, GetQos, ParsePublish, Readable, PublishHeader, SetQos, EncodeBytes, EncodeInt;
    SentTypes();
    var out := React(s.c, e, s.now).out;
    if IsPing(e, s.c) {
      assert out[0].Send? && out[0].frame.header == PINGREQ;
    }
    if e.Publish? {
      PublishHeaderFields(e.m);
    }
  }

  lemma SentTypes()
    ensures GetType(CONNECT) == CONNECT
    ensures GetType(PINGREQ) == PINGREQ && GetType(DISCONNECT) == DISCONNECT
    ensures GetType(PUBACK) == PUBACK && GetType(PUBREC) == PUBREC && GetType(PUBCOMP) == PUBCOMP
    ensures GetType(PUBREL_HEADER) == PUBREL
    ensures GetType(SUBSCRIBE_HEADER) == SUBSCRIBE && GetType(UNSUBSCRIBE_HEADER) == UNSUBSCRIBE
  {
    hide GetType, SetQos;
    PubrelHeader();
    TypeField(CONNECT);
    TypeField(PINGREQ);
    TypeField(DISCONNECT);
    TypeField(PUBACK);
    TypeField(PUBREC);
    TypeField(PUBCOMP);
    TypeField(PUBREL_HEADER);
    TypeField(SUBSCRIBE_HEADER);
    TypeField(UNSUBSCRIBE_HEADER);
  }

  /** Every signal and every request to the socket, by where it comes from. An event emits at most one
      signal. */
  lemma SignalsComeFrom(s: Timed, e: Event)
    requires Enabled(s, e)
    ensures var out := React(s.c, e, s.now).out;
            && (Emit(Connected) in out <==> Accepts(e))
            && (Emit(Disconnected) in out <==> e == NetworkDown)
            && (Emit(Pingresp) in out <==> IsPingresp(e))
            && (Emit(Error(NoPingResponse)) in out <==> e == ResponseDue)
            && (OpenSocket in out <==> e == ConnectToHost)
            && (CloseSocket in out <==> e == DisconnectFromHost || e == ResponseDue)
            && ((exists error :: Emit(Error(error)) in out) <==> e == ResponseDue || Refuses(e))
    ensures var out := React(s.c, e, s.now).out;
            && (forall m :: Emit(Signal.Received(m)) in out <==>
                  e.Arrives? && GetType(e.f.header) == PUBLISH && m == ParsePublish(e.f))
            && (forall m, mid :: Emit(Published(m, mid)) in out <==>
                  || (e == Publish(m) && m.qos == QOS0 && mid == m.id)
                  || (e.Arrives? && (GetType(e.f.header) == PUBACK || GetType(e.f.header) == PUBCOMP)
                      && mid == FrameMid(e.f) && m == Lookup(s.c.midToMessage, mid, EMPTY_MESSAGE)))
            && (forall i, j :: 0 <= i < |out| && 0 <= j < |out| && out[i].Emit? && out[j].Emit? ==> i == j)
  {
    hide React, GetType, ParsePublish, FrameMid, Lookup;
    if e.Arrives? {
      ArrivalSignals(s.c, e.f, s.now);
    } else {
      LocalSignals(s.c, e, s.now);
    }
  }

  lemma LocalSignals(c: ClientState, e: Event, now: nat)
    requires !e.Arrives?
    ensures var out := React(c, e, now).out;
            && (forall x :: x in out && x.Emit? <==>
                  || (x == Emit(Disconnected) && e == NetworkDown)
                  || (x == Emit(Error(NoPingResponse)) && e == ResponseDue)
                  || (e.Publish? && e.m.qos == QOS0 && x == Emit(Published(e.m, e.m.id))))
            && (OpenSocket in out <==> e == ConnectToHost)
            && (CloseSocket in out <==> e == DisconnectFromHost || e == ResponseDue)
            && (forall i, j :: 0 <= i < |out| && 0 <= j < |out| && out[i].Emit? && out[j].Emit? ==> i == j)
  {
    hide PublishFrame, AckFrame, ConnectFrame, KeepAliveOf, SubscribeFrame, UnsubscribeFrame;
  }

  lemma ArrivalSignals(c: ClientState, f: RawFrame, now: nat)
    requires Readable(f)
    ensures var t, out := GetType(f.header), React(c, Arrives(f), now).out;
            && OpenSocket !in out && CloseSocket !in out
            && ((t == PUBACK || t == PUBCOMP || t == CONNACK) ==> |f.data| >= 2)
            && (forall x :: x in out && x.Emit? <==>
                  || (t == CONNACK && x == if f.data[1] == 0 then Emit(Connected) else Emit(Error(ConnackError(f.data[1]))))
                  || (t == PUBLISH && x == Emit(Signal.Received(ParsePublish(f))))
                  || ((t == PUBACK || t == PUBCOMP)
                      && x == Emit(Published(Lookup(c.midToMessage, FrameMid(f), EMPTY_MESSAGE), FrameMid(f))))
                  || (t == SUBACK && x == Emit(Subscribed(Lookup(c.midToTopic, FrameMid(f), []), f.data[2])))
                  || (t == UNSUBACK && x == Emit(Unsubscribed(Lookup(c.midToTopic, FrameMid(f), []))))
                  || (t == PINGRESP && x == Emit(Pingresp)))
            && (forall i, j :: 0 <= i < |out| && 0 <= j < |out| && out[i].Emit? && out[j].Emit? ==> i == j)
  {
    hide GetType, GetQos, ParsePublish, AckFrame, FrameMid, ConnackError, Lookup;
  }

  /** Every frame handed to the network, by where it comes from. */
  lemma FramesComeFrom(s: Timed, e: Event)
    requires Enabled(s, e)
    ensures forall f :: Send(f) in React(s.c, e, s.now).out <==>
              if e.Arrives? then IsReply(e.f, f)
              else
                || (e.NetworkUp? && f == ConnectFrame(e.config, KeepAliveOf(s.c.timer.interval)))
                || (e.Publish? && f == PublishFrame(e.m, PublishMid(s.c, e.m)))
                || (e.Subscribe? && f == SubscribeFrame(s.c.gmid, e.topic, e.qos))
                || (e.Unsubscribe? && f == UnsubscribeFrame(s.c.gmid, e.topic))
                || ((e == DisconnectFromHost || e == ResponseDue) && f == RawFrame(DISCONNECT, []))
                || (e == KeepAliveDue && s.c.connection == StateConnected && f == RawFrame(PINGREQ, []))
  {
    hide PublishFrame, ConnectFrame, KeepAliveOf, SubscribeFrame, UnsubscribeFrame, Arrived, IsReply;
    if e.Arrives? {
      RepliesTo(s.c, e.f, s.now);
    }
  }

  /** What section 4.3 of MQTT 3.1.1 asks the client to answer a packet with. */
  predicate IsReply(f: RawFrame, reply: RawFrame)
    requires Readable(f)
  {
    var t := GetType(f.header);
    || (t == PUBLISH && GetQos(f.header) == 1 && reply == AckFrame(PUBACK, ParsePublish(f).id))
    || (t == PUBLISH && GetQos(f.header) == 2 && reply == AckFrame(PUBREC, ParsePublish(f).id))
    || (t == PUBREC && reply == AckFrame(0x62, FrameMid(f)))
    || (t == PUBREL && reply == AckFrame(PUBCOMP, FrameMid(f)))
  }

  lemma RepliesTo(c: ClientState, f: RawFrame, now: nat)
    requires Readable(f)
    ensures forall reply :: Send(reply) in Arrived(c, f, now).out <==> IsReply(f, reply)
  {
    hide GetType, GetQos, AckFrame, FrameMid, SetQos, DecodeInt;
    PubrelHeader();
  }

  predicate Accepts(e: Event) {
    e.Arrives? && GetType(e.f.header) == CONNACK && |e.f.data| >= 2 && e.f.data[1] == 0
  }

  predicate Refuses(e: Event) {
    e.Arrives? && GetType(e.f.header) == CONNACK && |e.f.data| >= 2 && e.f.data[1] != 0
  }

  // ---------------------------------------------------------------------------
  // The connection state

  ghost predicate IsPath(ss: seq<Timed>, events: seq<Event>) {
    && |ss| == |events| + 1
    && forall i :: 0 <= i < |events| ==> Enabled(ss[i], events[i]) && ss[i + 1] == Next(ss[i], events[i])
  }

  /** The state an event puts the client in, whatever state it was in. */
  function Decides(e: Event): Option<ConnectionState> {
    if Accepts(e) then Some(StateConnected)
    else if e == ConnectToHost then Some(StateConnecting)
    else if e == DisconnectFromHost || e == ResponseDue || e == NetworkDown then Some(StateDisconnected)
    else None
  }

  ghost predicate Undecided(events: seq<Event>, i: nat, j: nat)
    requires j <= |events|
  {
    forall m :: i <= m < j ==> Decides(events[m]) == None
  }

  /** Event j was the last to decide before moment i. */
  ghost predicate LastDecided(events: seq<Event>, i: nat, st: ConnectionState)
    requires i <= |events|
  {
    exists j: nat :: j < i && Decides(events[j]) == Some(st) && Undecided(events, j + 1, i)
  }

  /** At every moment the client is in a state exactly if the last event that decides was for it, or none
      did and it started there: so it is connected exactly if an accepting CONNACK has arrived and neither
      a call, a missing ping response nor the loss of the network has come since. */
  lemma {:induction false} StateIsLastDecided(ss: seq<Timed>, events: seq<Event>, i: nat, st: ConnectionState)
    requires IsPath(ss, events) && i < |ss|
    ensures ss[i].c.connection == st <==>
            LastDecided(events, i, st) || (ss[0].c.connection == st && Undecided(events, 0, i))
  {
    hide Next, Enabled, Decides;
    if i > 0 {
      StateIsLastDecided(ss, events, i - 1, st);
      EventDecides(ss[i - 1], events[i - 1]);
      OneMoreDecides(events, i, st);
    }
  }

  lemma OneMoreDecides(events: seq<Event>, i: nat, st: ConnectionState)
    requires 0 < i <= |events|
    ensures LastDecided(events, i, st) <==>
            if Decides(events[i - 1]) == None then LastDecided(events, i - 1, st) else Decides(events[i - 1]) == Some(st)
    ensures Undecided(events, 0, i) <==> Undecided(events, 0, i - 1) && Decides(events[i - 1]) == None
  {
    hide Decides;
    if Decides(events[i - 1]) == Some(st) {
      assert Undecided(events, i, i);
    }
    if Decides(events[i - 1]) == None && LastDecided(events, i - 1, st) {
      var j: nat :| j < i - 1 && Decides(events[j]) == Some(st) && Undecided(events, j + 1, i - 1);
      assert Undecided(events, j + 1, i);
    }
    if LastDecided(events, i, st) {
      var j: nat :| j < i && Decides(events[j]) == Some(st) && Undecided(events, j + 1, i);
      assert j < i - 1 ==> Undecided(events, j + 1, i - 1);
    }
  }

  lemma EventDecides(s: Timed, e: Event)
    requires Enabled(s, e)
    ensures Next(s, e).c.connection == match Decides(e) case Some(st) => st case None => s.c.connection
  {
    hide GetType, GetQos, ParsePublish, PublishFrame, AckFrame, ConnectFrame, KeepAliveOf, Sends;
  }

  // ---------------------------------------------------------------------------
  // The invariant

  ghost function LastSend(s: Timed): nat
    requires s.sends != []
  {
    s.sends[|s.sends| - 1]
  }

  /** With a keep alive of k seconds: the keep-alive timer, when it runs, is due k seconds after the
      last frame and not overdue; the ping response timer, when it runs, is due its interval after the
      last ping request, which is no later than the last frame, and above ten seconds of keep alive it
      never runs alone. */
  ghost predicate Inv(s: Timed, k: u16) {
    && s.c.timer.interval == k * 1000
    && s.c.pingResponseTimer.interval == PingResponseInterval(k)
    && (forall i :: 0 <= i < |s.sends| ==> s.sends[i] <= s.now)
    && (s.c.timer.due.Some? ==>
          s.sends != [] && s.c.timer.due.value == LastSend(s) + k * 1000 && s.now <= s.c.timer.due.value)
    && (s.c.pingResponseTimer.due.Some? ==>
          && s.sends != [] && s.lastPing <= LastSend(s)
          && s.c.pingResponseTimer.due.value == s.lastPing + PingResponseInterval(k)
          && s.now <= s.c.pingResponseTimer.due.value
          && (k > 10 ==> s.c.timer.due.Some?))
  }

  /** Above ten seconds of keep alive the response interval is strictly the shorter one. */
  lemma ResponseIntervalShorter(k: u16)
    ensures PingResponseInterval(k) < k * 1000 <==> k > 10
    ensures PingResponseInterval(k) <= k * 1000
  {
  }

  /** It is the tenth the code's own comment speaks of for keep alives of 100 seconds and more, and for
      none but 0 below: at 60 seconds it is ten seconds and not six. */
  lemma ResponseIntervalIsTenthIff(k: u16)
    ensures PingResponseInterval(k) == k * 100 <==> k == 0 || k >= 100
    ensures PingResponseInterval(k) == if k <= 10 then k * 1000 else if k < 100 then 10000 else k * 100
    ensures PingResponseInterval(60) == 10000 != 60 * 100
  {
  }

  lemma NextKeeps(s: Timed, e: Event, k: u16)
    requires Inv(s, k) && Enabled(s, e)
    ensures Inv(Next(s, e), k)
  {
    hide GetType, React, Readable, PingResponseInterval;
    TimerFollowsSends(s.c, e, s.now);
    ResponseTimerChanges(s.c, e, s.now);
    ResponseIntervalShorter(k);
    TickTouchesNothing(s, e);
  }

  lemma TickTouchesNothing(s: Timed, e: Event)
    requires Enabled(s, e)
    ensures e.Tick? ==> React(s.c, e, s.now) == Outcome(s.c, [])
  {
  }

  lemma {:induction false} PathKeeps(ss: seq<Timed>, events: seq<Event>, k: u16, i: nat)
    requires IsPath(ss, events) && Inv(ss[0], k) && i < |ss|
    ensures Inv(ss[i], k)
  {
    hide Inv, Next, Enabled;
    if i > 0 {
      PathKeeps(ss, events, k, i - 1);
      NextKeeps(ss[i - 1], events[i - 1], k);
    }
  }

  /** A new client with a keep alive of k seconds, which has handed nothing to the network yet. */
  ghost predicate IsFreshClient(s: Timed, k: u16) {
    && s.c.timer == Timer(k * 1000, None) && s.c.pingResponseTimer == Timer(PingResponseInterval(k), None)
    && s.sends == []
  }

  ghost predicate IsRun(ss: seq<Timed>, events: seq<Event>, k: u16) {
    IsPath(ss, events) && IsFreshClient(ss[0], k)
  }

  lemma RunKeeps(ss: seq<Timed>, events: seq<Event>, k: u16, i: nat)
    requires IsRun(ss, events, k) && i < |ss|
    ensures Inv(ss[i], k)
  {
    hide IsPath;
    FreshClientStarts(ss[0], k);
    assert |ss| > 0;
    PathKeeps(ss, events, k, i);
  }

  lemma FreshClientStarts(s: Timed, k: u16)
    requires IsFreshClient(s, k)
    ensures Inv(s, k)
  {
  }

  // ---------------------------------------------------------------------------
  // Keep alive

  /** Connected with the keep-alive timer running, as when CONNACK arrived while it ran. */
  predicate Covered(s: Timed) {
    s.c.connection == StateConnected && s.c.timer.due.Some?
  }

  lemma ConnackCovers(s: Timed, f: RawFrame)
    requires Enabled(s, Arrives(f)) && GetType(f.header) == CONNACK && f.data[1] == 0
    ensures Next(s, Arrives(f)).c == s.c.(connection := StateConnected)
  {
    hide GetType;
  }

  lemma CoveredStays(s: Timed, e: Event, k: u16)
    requires Inv(s, k) && Enabled(s, e) && Covered(s)
    requires Next(s, e).c.connection == StateConnected
    ensures Covered(Next(s, e))
    ensures var d := Next(s, e);
            d.sends == s.sends || (d.sends == s.sends + [s.now] && s.now - LastSend(s) <= k * 1000)
  {
    hide GetType, Readable, Arrived, Publishing, Subscribing, Unsubscribing;
    TimerFollowsSends(s.c, e, s.now);
    DownDisconnects(s, e);
  }

  lemma DownDisconnects(s: Timed, e: Event)
    requires Enabled(s, e)
    ensures e == NetworkDown ==> Next(s, e).c.connection == StateDisconnected
  {
    hide Readable, Arrived;
  }

  /** In every run, from a covered moment a on and for as long as the client stays connected: the
      keep-alive timer runs, the time since the last frame is at most k seconds, and so is every gap
      between two consecutive frames from the last one before a. */
  lemma {:induction false} GapsAreBounded(ss: seq<Timed>, events: seq<Event>, k: u16, a: nat, b: nat)
    requires IsPath(ss, events) && Inv(ss[0], k) && a <= b < |ss| && Covered(ss[a])
    requires forall i :: a <= i <= b ==> ss[i].c.connection == StateConnected
    ensures Covered(ss[b]) && ss[b].sends != [] && ss[b].now - LastSend(ss[b]) <= k * 1000
    ensures |ss[a].sends| <= |ss[b].sends| && ss[b].sends[..|ss[a].sends|] == ss[a].sends
    ensures forall i :: 0 < |ss[a].sends| <= i < |ss[b].sends| ==> ss[b].sends[i] - ss[b].sends[i - 1] <= k * 1000
    decreases b
  {
    hide Next, Enabled;
    PathKeeps(ss, events, k, b);
    if a < b {
      GapsAreBounded(ss, events, k, a, b - 1);
      PathKeeps(ss, events, k, b - 1);
      CoveredStays(ss[b - 1], events[b - 1], k);
    }
  }

  /** How long the client has handed over no frame, counted from a given time if it never has. */
  ghost function SilentFor(s: Timed, from: nat): int {
    s.now - if s.sends == [] then from else LastSend(s)
  }

  /** What may follow moment s with the client connected all the time. */
  ghost predicate StaysConnected(s: Timed, ss: seq<Timed>, events: seq<Event>) {
    && IsPath(ss, events) && ss[0] == s
    && forall i :: 0 <= i < |ss| ==> ss[i].c.connection == StateConnected
  }

  /** However the connection goes on, the client is never silent for more than k seconds. */
  ghost predicate KeepsAlive(s: Timed, k: u16) {
    forall ss: seq<Timed>, events: seq<Event>, i :: StaysConnected(s, ss, events) && 0 <= i < |ss| ==>
      SilentFor(ss[i], s.now) <= k * 1000
  }

  /** At a connected moment of a run from a new client, the keep-alive timer runs exactly if the client
      will keep the promise of section 3.1.2.10 of MQTT 3.1.1 for as long as it stays connected. */
  lemma KeepsAliveIff(ss: seq<Timed>, events: seq<Event>, k: u16, a: nat)
    requires IsRun(ss, events, k) && a < |ss| && ss[a].c.connection == StateConnected
    ensures ss[a].c.timer.due.Some? <==> KeepsAlive(ss[a], k)
  {
    hide IsRun, IsPath, Inv, SilentFor;
    RunKeeps(ss, events, k, a);
    if ss[a].c.timer.due.Some? {
      forall rest: seq<Timed>, later: seq<Event>, i | StaysConnected(ss[a], rest, later) && 0 <= i < |rest|
        ensures SilentFor(rest[i], ss[a].now) <= k * 1000
      {
        GapsAreBounded(rest, later, k, 0, i);
        SilenceIsGap(rest[i], ss[a].now);
      }
    } else {
      var rest, later := SilentContinuation(ss[a], k);
      SilenceOutlasts(ss[a], rest[2], k);
    }
  }

  lemma SilenceIsGap(s: Timed, from: nat)
    requires s.sends != []
    ensures SilentFor(s, from) == s.now - LastSend(s)
  {
  }

  lemma SilenceOutlasts(s: Timed, t: Timed, k: u16)
    requires Inv(s, k) && t.sends == s.sends && t.now > s.now + k * 1000
    ensures SilentFor(t, s.now) > k * 1000
  {
    hide PingResponseInterval;
  }

  const PONG := RawFrame(PINGRESP, [])

  /** Without the keep-alive timer: once no ping response is awaited any more, time passes with nothing
      to end the silence. */
  lemma SilentContinuation(s: Timed, k: u16) returns (ss: seq<Timed>, events: seq<Event>)
    requires s.c.connection == StateConnected && s.c.timer.due == None
    ensures StaysConnected(s, ss, events) && |ss| == 3
    ensures ss[2].sends == s.sends && ss[2].now > s.now + k * 1000
  {
    hide GetType;
    PongReads();
    var s1 := Next(s, Arrives(PONG));
    SendsOfFew([Emit(Pingresp)]);
    assert s1.sends == s.sends + [];
    assert s1.c == s.c.(pingResponseTimer := s.c.pingResponseTimer.Stop());
    var s2 := Next(s1, Tick(k * 1000 + 1));
    assert Sends([]) == 0;
    assert s2.sends == s1.sends + [];
    ss, events := [s, s1, s2], [Arrives(PONG), Tick(k * 1000 + 1)];
  }

  lemma PongReads()
    ensures GetType(PONG.header) == PINGRESP && Readable(PONG)
  {
    hide GetType;
    TypeField(PINGRESP);
  }

  /** So it depends on when CONNACK accepts the connection: while the timer started by CONNECT runs, or
      too late. */
  lemma ConnackDecides(ss: seq<Timed>, events: seq<Event>, k: u16, a: nat)
    requires IsRun(ss, events, k) && a < |events| && events[a].Arrives?
    requires GetType(events[a].f.header) == CONNACK && events[a].f.data[1] == 0
    ensures ss[a].c.timer.due.Some? <==> KeepsAlive(ss[a + 1], k)
  {
    hide GetType, KeepsAlive;
    ConnackCovers(ss[a], events[a].f);
    KeepsAliveIff(ss, events, k, a + 1);
  }

  /** Above ten seconds of keep alive, a client connected without the keep-alive timer has no timer
      running at all: it falls silent even if nothing arrives. */
  lemma UncoveredIsSilent(ss: seq<Timed>, events: seq<Event>, k: u16, a: nat, ms: nat)
    requires IsRun(ss, events, k) && k > 10 && a < |ss| && ss[a].c.timer.due == None
    ensures ss[a].c.pingResponseTimer.due == None
    ensures Enabled(ss[a], Tick(ms)) && Next(ss[a], Tick(ms)) == ss[a].(now := ss[a].now + ms)
  {
    hide IsRun, PingResponseInterval;
    RunKeeps(ss, events, k, a);
    assert Sends([]) == 0;
    assert ss[a].sends + [] == ss[a].sends;
  }

  function RunOn(s: Timed, events: seq<Event>): (r: Option<Timed>)
    decreases |events|
  {
    if events == [] then Some(s)
    else if !Enabled(s, events[0]) then None
    else RunOn(Next(s, events[0]), events[1..])
  }

  const ACCEPTED := RawFrame(CONNACK, [0, 0])

  /** A CONNACK later than one keep alive after CONNECT leaves the client in such a state: connected,
      with no timer running and no frame sent for any time we like. */
  lemma LateConnackLosesKeepAlive(c: ClientState, k: u16, config: Config, ms: nat)
    requires IsFreshClient(Timed(c, 0, [], 0), k)
    ensures var r := RunOn(Timed(c, 0, [], 0),
                           [ConnectToHost, NetworkUp(config), Tick(k * 1000), KeepAliveDue, Arrives(ACCEPTED), Tick(ms)]);
            && r.Some?
            && r.value.c.connection == StateConnected
            && r.value.c.timer.due == None && r.value.c.pingResponseTimer.due == None
            && r.value.sends == [0] && r.value.now == k * 1000 + ms
  {
    hide GetType, PingResponseInterval, RunOn, ConnectFrame, KeepAliveOf;
    var s0 := Timed(c, 0, [], 0);
    AcceptedReads();
    var s1 := Next(s0, ConnectToHost);
    assert Sends([OpenSocket]) == 0 by { SendsOfFew([OpenSocket]); }
    assert s1 == s0.(c := c.(connection := StateConnecting)) by { assert s0.sends + [] == []; }
    var s2 := Next(s1, NetworkUp(config));
    SendsOfFew([Send(ConnectFrame(config, KeepAliveOf(s1.c.timer.interval)))]);
    assert s2.sends == [0];
    var s3 := Next(s2, Tick(k * 1000));
    SendsOfFew([]);
    assert s3.sends == [0];
    var s4 := Next(s3, KeepAliveDue);
    assert s4.sends == [0];
    var s5 := Next(s4, Arrives(ACCEPTED));
    SendsOfFew([Emit(Connected)]);
    assert s5.sends == [0] && s5.c.connection == StateConnected;
    var s6 := Next(s5, Tick(ms));
    assert s6.sends == [0];
    RunOnSix(s0, ConnectToHost, NetworkUp(config), Tick(k * 1000), KeepAliveDue, Arrives(ACCEPTED), Tick(ms));
  }

  lemma AcceptedReads()
    ensures GetType(CONNACK) == CONNACK && Readable(ACCEPTED)
  {
    hide GetType;
    TypeField(CONNACK);
  }

  lemma RunOnSix(s: Timed, a: Event, b: Event, c: Event, d: Event, e: Event, f: Event)
    requires Enabled(s, a) && Enabled(Next(s, a), b) && Enabled(Next(Next(s, a), b), c)
    requires Enabled(Next(Next(Next(s, a), b), c), d) && Enabled(Next(Next(Next(Next(s, a), b), c), d), e)
    requires Enabled(Next(Next(Next(Next(Next(s, a), b), c), d), e), f)
    ensures RunOn(s, [a, b, c, d, e, f]) == Some(Next(Next(Next(Next(Next(Next(s, a), b), c), d), e), f))
  {
    hide Next, Enabled;
    var s1 := Next(s, a);
    var s2 := Next(s1, b);
    var s3 := Next(s2, c);
    var s4 := Next(s3, d);
    var s5 := Next(s4, e);
    assert RunOn(s5, [f]) == RunOn(Next(s5, f), []) by { assert [f][1..] == []; }
    assert RunOn(s4, [e, f]) == RunOn(s5, [f]) by { assert [e, f][1..] == [f]; }
    assert RunOn(s3, [d, e, f]) == RunOn(s4, [e, f]) by { assert [d, e, f][1..] == [e, f]; }
    assert RunOn(s2, [c, d, e, f]) == RunOn(s3, [d, e, f]) by { assert [c, d, e, f][1..] == [d, e, f]; }
    assert RunOn(s1, [b, c, d, e, f]) == RunOn(s2, [c, d, e, f]) by { assert [b, c, d, e, f][1..] == [c, d, e, f]; }
    assert [a, b, c, d, e, f][1..] == [b, c, d, e, f];
  }

  /** The CONNECT of a new client with a keep alive of k seconds announces k seconds, to any decoder of
      section 3.1 of MQTT 3.1.1 that accepts it, and starts the timer at k seconds; and it is accepted
      unless the will QoS is none of 0, 1 and 2. So the promise kept is the one made. */
  lemma AnnouncedIsKept(ss: seq<Timed>, events: seq<Event>, k: u16, i: nat)
    requires IsRun(ss, events, k) && i < |events| && events[i].NetworkUp?
    ensures var config, out := events[i].config, React(ss[i].c, events[i], ss[i].now).out;
            && |out| == 1 && out[0].Send? && out[0].frame.header == CONNECT
            && var packet := DecodeConnect(out[0].frame.data);
               && (packet.Some? ==> packet.value.keepAlive == k)
               && (config.willTopic == [] || config.willQos <= 2 ==> packet.Some?)
    ensures ss[i + 1].c.timer == Timer(k * 1000, Some(ss[i].now + k * 1000))
  {
    hide ConnectFrame, KeepAliveOf, DecodeConnect, PingResponseInterval;
    RunKeeps(ss, events, k, i);
    KeepAliveOfInterval(k);
    ConnectDecodesIff(events[i].config, k);
    KeepAliveDecodes(events[i].config, k);
    assert ss[i + 1] == Next(ss[i], events[i]);
    assert ConnectFrame(events[i].config, k).header == CONNECT by { ConnectHeader(events[i].config, k); }
  }

  // ---------------------------------------------------------------------------
  // Ping responses

  /** The ping response timer is never started while it runs. */
  lemma NeverRestarted(ss: seq<Timed>, events: seq<Event>, k: u16, i: nat)
    requires IsRun(ss, events, k) && k > 10 && i < |events| && IsPing(events[i], ss[i].c)
    ensures ss[i].c.pingResponseTimer.due == None
  {
    hide PingResponseInterval;
    RunKeeps(ss, events, k, i);
    ResponseIntervalShorter(k);
  }

  /** The timer fires exactly its interval after the last ping request. */
  lemma TimeoutIsPunctual(ss: seq<Timed>, events: seq<Event>, k: u16, i: nat)
    requires IsRun(ss, events, k) && i < |events| && events[i] == ResponseDue
    ensures ss[i].now == ss[i].lastPing + PingResponseInterval(k)
  {
    hide PingResponseInterval;
    RunKeeps(ss, events, k, i);
  }

  /** The ping request sent at event p still awaits its response, or was given up. */
  lemma {:induction false} PingIsAwaited(ss: seq<Timed>, events: seq<Event>, k: u16, p: nat, m: nat)
    requires IsRun(ss, events, k) && k > 10 && p < m < |ss| && IsPing(events[p], ss[p].c)
    requires forall i :: p < i < m ==> !IsPingresp(events[i]) && events[i] != NetworkDown
    ensures ss[m].c.pingResponseTimer.due == Some(ss[p].now + PingResponseInterval(k))
            || exists j :: p < j < m && events[j] == ResponseDue && ss[j].now == ss[p].now + PingResponseInterval(k)
    decreases m
  {
    hide GetType, React, PingResponseInterval, IsPingresp;
    ResponseTimerChanges(ss[m - 1].c, events[m - 1], ss[m - 1].now);
    RunKeeps(ss, events, k, m - 1);
    if p + 1 == m {
      assert ss[m] == Next(ss[p], events[p]);
    } else {
      PingIsAwaited(ss, events, k, p, m - 1);
      assert ss[m] == Next(ss[m - 1], events[m - 1]);
      if IsPing(events[m - 1], ss[m - 1].c) {
        NeverRestarted(ss, events, k, m - 1);
      }
      if ss[m - 1].c.pingResponseTimer.due == Some(ss[p].now + PingResponseInterval(k)) && events[m - 1] == ResponseDue {
        assert ss[m - 1].now == ss[p].now + PingResponseInterval(k);
      }
    }
  }

  /** In every run with a keep alive above ten seconds: a ping request that is followed, for longer
      than the response interval, neither by PINGRESP nor by the end of the connection is given up
      exactly that interval later, with an error to the application, DISCONNECT, and the socket closed. */
  lemma UnansweredPingTimesOut(ss: seq<Timed>, events: seq<Event>, k: u16, p: nat, m: nat)
    requires IsRun(ss, events, k) && k > 10 && p < m < |ss| && IsPing(events[p], ss[p].c)
    requires forall i :: p < i < m ==> !IsPingresp(events[i]) && events[i] != NetworkDown
    requires ss[m].now > ss[p].now + PingResponseInterval(k)
    ensures exists j :: p < j < m && events[j] == ResponseDue
                        && ss[j].now == ss[p].now + PingResponseInterval(k)
                        && React(ss[j].c, events[j], ss[j].now).out
                           == [Emit(Error(NoPingResponse)), Send(RawFrame(DISCONNECT, [])), CloseSocket]
                        && ss[j + 1].c.connection == StateDisconnected
  {
    hide PingResponseInterval, IsPingresp;
    PingIsAwaited(ss, events, k, p, m);
    RunKeeps(ss, events, k, m);
    var j :| p < j < m && events[j] == ResponseDue && ss[j].now == ss[p].now + PingResponseInterval(k);
    assert ss[j + 1] == Next(ss[j], events[j]);
  }
}
