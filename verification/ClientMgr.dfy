/** The manager above the client: when to connect again, and what to subscribe to again. */
module ClientMgr {
  import opened Bits
  import opened Wrappers
  import opened Client
  import opened ReconnectPolicy

  datatype ConnectionType = Tcp | Ws | Wss

  /** host, clientId and caCertPath are given without surrounding white space. */
  datatype Params = Params(host: string, port: u16, connectionType: ConnectionType, clientId: string, keepAlive: int,
                           willQos: int, caCertPath: string, autoTopic: string, autoQos: int)

  /** What the manager makes its client do, and what it tells its own user. */
  datatype Output = ClientConnect | ClientDisconnect | ClientSubscribe(topic: string, qos: byte)
                  | ClientUnsubscribe(topic: string) | ClientPublish(topic: string, payload: seq<byte>, qos: byte)
                  | TimerStarted(ms: nat) | ReconnectScheduled(seconds: nat) | ReconnectStopped(error: ClientError)
                  | SigConnected | SigDisconnected | SigError(error: ClientError)
                  | SigParamsInvalid | SigCaCertificateLoadFailed

  /** client is the connection state of the client, if there is one. */
  datatype MgrState = MgrState(client: Option<ConnectionState>, timerActive: bool, delayMs: nat,
                               subscriptions: map<string, byte>, manualDisconnect: bool, reconnectAllowed: bool)

  /** The calls of the user, the signals of the client and the timer. Whether the certificate file
      loads and whether the web socket URL is valid is decided outside. */
  datatype Event = ConnectToHost(params: Params, caLoads: bool, urlValid: bool)
                 | DisconnectFromHost
                 | Subscribe(topic: string, qos: byte)
                 | Unsubscribe(topic: string)
                 | Publish(topic: string, payload: seq<byte>, qos: byte)
                 | ClientConnected
                 | ClientDisconnected
                 | ClientFailed(error: ClientError)
                 | TimerDue

  predicate IsPermanent(e: ClientError) {
    e.SocketProxyAuthenticationRequired? || e.UnacceptableProtocolVersion? || e.IdentifierRejected?
    || e.BadUserNameOrPassword? || e.NotAuthorized?
  }

  predicate ParamsValid(p: Params, urlValid: bool) {
    && p.host != "" && p.port > 0 && p.clientId != ""
    && 0 <= p.keepAlive <= 65535 && 0 <= p.willQos <= 2 && 0 <= p.autoQos <= 2
    && (p.connectionType != Tcp ==> urlValid)
  }

  predicate CertificateValid(p: Params, caLoads: bool) {
    p.connectionType == Wss && p.caCertPath != "" ==> caLoads
  }

  predicate IsConnected(s: MgrState) {
    s.client == Some(StateConnected)
  }

  function AutoSubscription(p: Params): map<string, byte>
    requires 0 <= p.autoQos <= 2
  {
    if p.autoTopic == "" then map[] else map[p.autoTopic := p.autoQos]
  }

  /** A client whose ping was not answered disconnects by itself, right after reporting the error. */
  function AfterError(client: Option<ConnectionState>, error: ClientError): Option<ConnectionState> {
    if client.Some? && error == NoPingResponse then Some(StateDisconnected) else client
  }

  function Schedule(s: MgrState): (MgrState, seq<Output>) {
    if s.client == None || s.manualDisconnect || !s.reconnectAllowed || s.timerActive then (s, [])
    else (s.(timerActive := true, delayMs := NextDelay(s.delayMs)), [TimerStarted(s.delayMs), ReconnectScheduled(s.delayMs / 1000)])
  }

  /** The calls and signals of one round, but for the replayed subscriptions of ClientConnected. */
  function React(s: MgrState, e: Event): (MgrState, seq<Output>) {
    match e
    case ConnectToHost(p, caLoads, urlValid) =>
      if !CertificateValid(p, caLoads) then (s, [SigCaCertificateLoadFailed])
      else if !ParamsValid(p, urlValid) then (s, [SigParamsInvalid])
      else
        (MgrState(Some(StateConnecting), false, INITIAL_DELAY_MS, AutoSubscription(p), false, true),
         (if s.client.Some? then [ClientDisconnect] else []) + [ClientConnect])
    case DisconnectFromHost =>
      (s.(manualDisconnect := true, reconnectAllowed := false, timerActive := false,
          client := if s.client.Some? then Some(StateDisconnected) else None),
       if s.client.Some? then [ClientDisconnect] else [])
    case Subscribe(topic, qos) =>
      if IsConnected(s) && topic != "" && qos <= 2 then
        (s.(subscriptions := s.subscriptions[topic := qos]), [ClientSubscribe(topic, qos)])
      else (s, [])
    case Unsubscribe(topic) =>
      if IsConnected(s) && topic != "" then
        (s.(subscriptions := s.subscriptions - {topic}), [ClientUnsubscribe(topic)])
      else (s, [])
    case Publish(topic, payload, qos) =>
      (s, if IsConnected(s) && topic != "" && qos <= 2 then [ClientPublish(topic, payload, qos)] else [])
    case ClientConnected =>
      (s.(client := Some(StateConnected), timerActive := false, delayMs := INITIAL_DELAY_MS), [SigConnected])
    case ClientDisconnected =>
      var (t, out) := Schedule(s.(client := Some(StateDisconnected)));
      (t, [SigDisconnected] + out)
    case ClientFailed(error) =>
      if IsPermanent(error) then
        (s.(reconnectAllowed := false, timerActive := false, client := Some(StateDisconnected)),
         [ReconnectStopped(error), ClientDisconnect, SigError(error)])
      else (s.(client := AfterError(s.client, error)), [SigError(error)])
    case TimerDue =>
      var t := s.(timerActive := false);
      if s.client.Some? && !s.manualDisconnect && s.reconnectAllowed && !IsConnected(s) then
        (t.(client := Some(StateConnecting)), [ClientConnect])
      else (t, [])
  }

  /** out subscribes once to every topic, with its QoS, and does nothing else. */
  ghost predicate IsReplay(subscriptions: map<string, byte>, out: seq<Output>) {
    && |out| == |subscriptions|
    && (forall i :: 0 <= i < |out| ==>
          out[i].ClientSubscribe? && out[i].topic in subscriptions && out[i].qos == subscriptions[out[i].topic])
    && (forall t :: t in subscriptions ==> ClientSubscribe(t, subscriptions[t]) in out)
    && (forall i, j :: 0 <= i < j < |out| ==> out[i] != out[j])
  }

  class MqttClientMgr {
    var client: Option<ConnectionState>
    var timerActive: bool
    const policy: MqttReconnectPolicy
    var subscriptions: map<string, byte>
    var manualDisconnect: bool
    var reconnectAllowed: bool

    ghost function State(): MgrState
      reads this, policy
    {
      MgrState(client, timerActive, policy.currentDelayMs, subscriptions, manualDisconnect, reconnectAllowed)
    }

    constructor ()
      ensures State() == InitialState() && fresh(policy)
    {
      policy := new MqttReconnectPolicy();
      client, timerActive, subscriptions := None, false, map[];
      manualDisconnect, reconnectAllowed := false, false;
    }

    method ConnectToHost(p: Params, caLoads: bool, urlValid: bool) returns (success: bool, out: seq<Output>)
      modifies this, policy
      ensures (State(), out) == React(old(State()), Event.ConnectToHost(p, caLoads, urlValid))
      ensures success <==> Accepted(old(State()), Event.ConnectToHost(p, caLoads, urlValid))
    {
      success := false;
      var paramsValid := ParamsValid(p, urlValid);
      var caCertificateValid := true;
      if p.connectionType == Wss && p.caCertPath != "" {
        caCertificateValid := caLoads;
      }
      if !caCertificateValid {
        out := [SigCaCertificateLoadFailed];
      } else if !paramsValid {
        out := [SigParamsInvalid];
      } else {
        ResetReconnectState();
        out := [];
        if client.Some? {
          out := [ClientDisconnect];
          client := None;
        }
        subscriptions := map[];
        if p.autoTopic != "" {
          subscriptions := subscriptions[p.autoTopic := p.autoQos];
        }
        client := Some(StateInit);
        out := out + [ClientConnect];
        client := Some(StateConnecting);
        success := true;
        assert subscriptions == AutoSubscription(p);
        assert out == (if old(client).Some? then [ClientDisconnect] else []) + [ClientConnect];
      }
    }

    method ResetReconnectState()
      modifies this`timerActive, this`manualDisconnect, this`reconnectAllowed, policy
      ensures !timerActive && !manualDisconnect && reconnectAllowed
      ensures policy.currentDelayMs == INITIAL_DELAY_MS
    {
      timerActive := false;
      policy.Reset();
      manualDisconnect := false;
      reconnectAllowed := true;
    }

    method DisconnectFromHost() returns (out: seq<Output>)
      modifies this
      ensures (State(), out) == React(old(State()), Event.DisconnectFromHost)
    {
      manualDisconnect := true;
      reconnectAllowed := false;
      timerActive := false;
      out := [];
      if client.Some? {
        out := [ClientDisconnect];
        client := Some(StateDisconnected);
      }
    }

    method Subscribe(topic: string, qos: byte) returns (success: bool, out: seq<Output>)
      modifies this`subscriptions
      ensures (State(), out) == React(old(State()), Event.Subscribe(topic, qos))
      ensures success <==> Accepted(old(State()), Event.Subscribe(topic, qos))
    {
      success := client == Some(StateConnected) && topic != "" && qos <= 2;
      out := [];
      if success {
        subscriptions := subscriptions[topic := qos];
        out := [ClientSubscribe(topic, qos)];
      }
    }

    method Unsubscribe(topic: string) returns (success: bool, out: seq<Output>)
      modifies this`subscriptions
      ensures (State(), out) == React(old(State()), Event.Unsubscribe(topic))
      ensures success <==> Accepted(old(State()), Event.Unsubscribe(topic))
    {
      success := client == Some(StateConnected) && topic != "";
      out := [];
      if success {
        subscriptions := subscriptions - {topic};
        out := [ClientUnsubscribe(topic)];
      }
    }

    method Publish(topic: string, payload: seq<byte>, qos: byte) returns (success: bool, out: seq<Output>)
      ensures (State(), out) == React(State(), Event.Publish(topic, payload, qos))
      ensures success <==> Accepted(State(), Event.Publish(topic, payload, qos))
    {
      success := client == Some(StateConnected) && topic != "" && qos <= 2;
      out := if success then [ClientPublish(topic, payload, qos)] else [];
    }

    /** Handler of the client's connected signal, emitted with the client in state connected. */
    method OnConnected() returns (out: seq<Output>)
      requires client.Some?
      modifies this`client, this`timerActive, policy
      ensures State() == React(old(State()), ClientConnected).0
      ensures |out| > 0 && out[|out| - 1] == SigConnected && IsReplay(subscriptions, out[..|out| - 1])
    {
      client := Some(StateConnected);
      timerActive := false;
      policy.Reset();
      var replay := RestoreSubscriptions();
      out := replay + [SigConnected];
    }

    method RestoreSubscriptions() returns (out: seq<Output>)
      ensures if client == Some(StateConnected) then IsReplay(subscriptions, out) else out == []
    {
      hide IsReplay;
      out := [];
      if client == Some(StateConnected) {
        NothingReplayed();
        var rest := subscriptions.Keys;
        assert subscriptions - rest == map[];
        while rest != {}
          invariant rest <= subscriptions.Keys
          invariant IsReplay(subscriptions - rest, out)
        {
          var topic :| topic in rest;
          ghost var before := subscriptions - rest;
          rest := rest - {topic};
          assert subscriptions - rest == before[topic := subscriptions[topic]];
          ReplayOne(before, topic, subscriptions[topic], out);
          out := out + [ClientSubscribe(topic, subscriptions[topic])];
        }
        assert subscriptions - rest == subscriptions;
      }
    }

    method OnDisconnected() returns (out: seq<Output>)
      requires client.Some?
      modifies this`client, this`timerActive, policy
      ensures (State(), out) == React(old(State()), ClientDisconnected)
    {
      client := Some(StateDisconnected);
      var scheduled := ScheduleReconnect();
      out := [SigDisconnected] + scheduled;
    }

    method ScheduleReconnect() returns (out: seq<Output>)
      modifies this`timerActive, policy
      ensures (State(), out) == Schedule(old(State()))
    {
      if client.None? || manualDisconnect || !reconnectAllowed || timerActive {
        return [];
      }
      var delayMs := policy.currentDelayMs;
      timerActive := true;
      out := [TimerStarted(delayMs), ReconnectScheduled(delayMs / 1000)];
      policy.Advance();
    }

    /** Handler of the client's error signal, and what the client does next on its own. */
    method OnError(error: ClientError) returns (out: seq<Output>)
      requires client.Some?
      modifies this
      ensures (State(), out) == React(old(State()), ClientFailed(error))
    {
      out := [];
      if IsPermanent(error) {
        reconnectAllowed := false;
        timerActive := false;
        out := [ReconnectStopped(error), ClientDisconnect];
        client := Some(StateDisconnected);
      }
      out := out + [SigError(error)];
      client := AfterError(client, error);
      assert out == if IsPermanent(error) then [ReconnectStopped(error), ClientDisconnect, SigError(error)] else [SigError(error)];
    }

    /** Slot of the single-shot timer, which is no longer active when it fires. */
    method SlotReconnect() returns (out: seq<Output>)
      modifies this`client, this`timerActive
      ensures (State(), out) == React(old(State()), TimerDue)
    {
      timerActive := false;
      out := [];
      if client.Some? && !manualDisconnect && reconnectAllowed && client != Some(StateConnected) {
        out := [ClientConnect];
        client := Some(StateConnecting);
      }
    }
  }

  lemma NothingReplayed()
    ensures IsReplay(map[], [])
  {
  }

  lemma ReplayOne(done: map<string, byte>, topic: string, qos: byte, out: seq<Output>)
    requires IsReplay(done, out) && topic !in done
    ensures IsReplay(done[topic := qos], out + [ClientSubscribe(topic, qos)])
  {
  }

  // ---------------------------------------------------------------------------
  // Runs

  function InitialState(): MgrState {
    MgrState(None, false, INITIAL_DELAY_MS, map[], false, false)
  }

  /** The call was valid and had its effect. */
  predicate Accepted(s: MgrState, e: Event) {
    match e
    case ConnectToHost(p, caLoads, urlValid) => CertificateValid(p, caLoads) && ParamsValid(p, urlValid)
    case Subscribe(topic, qos) => IsConnected(s) && topic != "" && qos <= 2
    case Unsubscribe(topic) => IsConnected(s) && topic != ""
    case Publish(topic, _, qos) => IsConnected(s) && topic != "" && qos <= 2
    case _ => true
  }

  predicate Enabled(s: MgrState, e: Event) {
    match e
    case ClientConnected => s.client.Some?
    case ClientDisconnected => s.client.Some?
    case ClientFailed(_) => s.client.Some?
    case TimerDue => s.timerActive
    case _ => true
  }

  ghost predicate Step(s: MgrState, e: Event, out: seq<Output>, t: MgrState) {
    && Enabled(s, e)
    && t == React(s, e).0
    && if e == ClientConnected then
         |out| > 0 && out[|out| - 1] == SigConnected && IsReplay(t.subscriptions, out[..|out| - 1])
       else out == React(s, e).1
  }

  ghost predicate IsRun(ss: seq<MgrState>, events: seq<Event>, outs: seq<seq<Output>>) {
    && |ss| == |events| + 1 && |outs| == |events|
    && ss[0] == InitialState()
    && forall i :: 0 <= i < |events| ==> Step(ss[i], events[i], outs[i], ss[i + 1])
  }

  /** A running reconnect timer means there is a client to reconnect, it is not connected, and
      nobody has asked for it to stay disconnected. */
  ghost predicate Inv(s: MgrState) {
    s.timerActive ==> s.client.Some? && s.client != Some(StateConnected) && !s.manualDisconnect && s.reconnectAllowed
  }

  lemma {:induction false} RunKeeps(ss: seq<MgrState>, events: seq<Event>, outs: seq<seq<Output>>, i: nat)
    requires IsRun(ss, events, outs) && i < |ss|
    ensures Inv(ss[i])
  {
    if i > 0 {
      RunKeeps(ss, events, outs, i - 1);
      assert Step(ss[i - 1], events[i - 1], outs[i - 1], ss[i]);
    }
  }

  /** So whenever the timer fires, a connection is attempted: the slot's guard never stops it. */
  lemma DueTimerReconnects(ss: seq<MgrState>, events: seq<Event>, outs: seq<seq<Output>>, i: nat)
    requires IsRun(ss, events, outs) && i < |events| && events[i] == TimerDue
    ensures outs[i] == [ClientConnect] && ss[i + 1].client == Some(StateConnecting)
  {
    RunKeeps(ss, events, outs, i);
    assert Step(ss[i], events[i], outs[i], ss[i + 1]);
  }

  /** The user has disconnected, or an error was permanent. */
  predicate Halts(e: Event) {
    e == DisconnectFromHost
    || (e.ClientFailed? && e.error in {SocketProxyAuthenticationRequired, UnacceptableProtocolVersion, IdentifierRejected,
                                       BadUserNameOrPassword, NotAuthorized})
  }

  /** A connectToHost with valid parameters and, where there is one to load, a valid certificate. */
  predicate Opens(e: Event) {
    && e.ConnectToHost?
    && var p := e.params;
       && p.host != "" && p.port > 0 && p.clientId != ""
       && 0 <= p.keepAlive <= 65535 && 0 <= p.willQos <= 2 && 0 <= p.autoQos <= 2
       && (p.connectionType == Ws || p.connectionType == Wss ==> e.urlValid)
       && (p.connectionType == Wss && p.caCertPath != "" ==> e.caLoads)
  }

  lemma OpensIffAccepted(s: MgrState, e: Event)
    ensures Opens(e) <==> e.ConnectToHost? && Accepted(s, e)
    ensures e.ClientFailed? ==> (Halts(e) <==> IsPermanent(e.error))
  {
  }

  ghost predicate Quiet(out: seq<Output>) {
    forall i :: 0 <= i < |out| ==> out[i] != ClientConnect && !out[i].TimerStarted? && !out[i].ReconnectScheduled?
  }

  /** From such an event on, until a connectToHost is accepted, no reconnection is scheduled and none
      attempted. */
  lemma {:induction false} NoReconnectAfterHalt(ss: seq<MgrState>, events: seq<Event>, outs: seq<seq<Output>>, i: nat, j: nat)
    requires IsRun(ss, events, outs) && i < j <= |events| && Halts(events[i])
    requires forall k :: i < k < j ==> !(events[k].ConnectToHost? && Accepted(ss[k], events[k]))
    ensures !ss[j].reconnectAllowed && !ss[j].timerActive
    ensures forall k :: i < k < j ==> Quiet(outs[k])
    decreases j
  {
    hide Quiet, Accepted, React;
    assert Step(ss[j - 1], events[j - 1], outs[j - 1], ss[j]);
    if i + 1 < j {
      NoReconnectAfterHalt(ss, events, outs, i, j - 1);
      HaltedStep(ss[j - 1], events[j - 1], outs[j - 1], ss[j]);
    } else {
      HaltingStep(ss[i], events[i]);
    }
  }

  lemma HaltingStep(s: MgrState, e: Event)
    requires Halts(e)
    ensures !React(s, e).0.reconnectAllowed && !React(s, e).0.timerActive
  {
  }

  lemma HaltedStep(s: MgrState, e: Event, out: seq<Output>, t: MgrState)
    requires Step(s, e, out, t) && !s.reconnectAllowed && !s.timerActive
    requires !(e.ConnectToHost? && Accepted(s, e))
    ensures !t.reconnectAllowed && !t.timerActive && Quiet(out)
  {
    if e == ClientConnected {
      assert forall k :: 0 <= k < |out| - 1 ==> out[k] == out[..|out| - 1][k];
    }
  }

  // ---------------------------------------------------------------------------
  // When is a reconnection scheduled?

  /** Of the events before j that open or halt, the last one opens. */
  ghost predicate MayReconnect(events: seq<Event>, j: nat)
    requires j <= |events|
  {
    exists i :: 0 <= i < j && Opens(events[i]) && forall m :: i < m < j ==> !Halts(events[m])
  }

  /** The reconnect timer stops by firing, and is stopped by these events. */
  predicate Stops(e: Event) {
    e == TimerDue || e == ClientConnected || Halts(e) || Opens(e)
  }

  /** The timer has been started before j and not stopped since. */
  ghost predicate TimerRuns(events: seq<Event>, outs: seq<seq<Output>>, j: nat)
    requires j <= |events| == |outs|
  {
    exists i :: 0 <= i < j && Schedules(outs[i]) && forall m :: i < m < j ==> !Stops(events[m])
  }

  lemma MayReconnectStep(events: seq<Event>, j: nat)
    requires 0 < j <= |events|
    ensures MayReconnect(events, j) <==> Opens(events[j - 1]) || (!Halts(events[j - 1]) && MayReconnect(events, j - 1))
  {
    hide Opens, Halts;
  }

  lemma TimerRunsStep(events: seq<Event>, outs: seq<seq<Output>>, j: nat)
    requires 0 < j <= |events| == |outs|
    ensures TimerRuns(events, outs, j) <==>
            Schedules(outs[j - 1]) || (!Stops(events[j - 1]) && TimerRuns(events, outs, j - 1))
  {
    hide Stops, Schedules;
  }

  /** The manager's flags and its timer are what the events and outputs so far say. */
  lemma {:induction false} FlagsFollowEvents(ss: seq<MgrState>, events: seq<Event>, outs: seq<seq<Output>>, j: nat)
    requires IsRun(ss, events, outs) && j < |ss|
    ensures ss[j].reconnectAllowed <==> MayReconnect(events, j)
    ensures ss[j].reconnectAllowed ==> ss[j].client.Some? && !ss[j].manualDisconnect
    ensures ss[j].timerActive <==> TimerRuns(events, outs, j)
  {
    hide React, Schedules, Opens, Halts, Stops;
    if j > 0 {
      FlagsFollowEvents(ss, events, outs, j - 1);
      MayReconnectStep(events, j);
      TimerRunsStep(events, outs, j);
      FlagsStep(ss[j - 1], events[j - 1], outs[j - 1], ss[j]);
    }
  }

  lemma FlagsStep(s: MgrState, e: Event, out: seq<Output>, t: MgrState)
    requires Step(s, e, out, t)
    ensures t.reconnectAllowed <==> Opens(e) || (!Halts(e) && s.reconnectAllowed)
    ensures (s.reconnectAllowed ==> s.client.Some? && !s.manualDisconnect) ==>
              (t.reconnectAllowed ==> t.client.Some? && !t.manualDisconnect)
    ensures t.timerActive <==> Schedules(out) || (!Stops(e) && s.timerActive)
    ensures (s.reconnectAllowed ==> s.client.Some? && !s.manualDisconnect) ==>
              (Schedules(out) <==> e == ClientDisconnected && s.reconnectAllowed && !s.timerActive)
  {
    hide Opens, Halts, ParamsValid, CertificateValid;
    OpensIffAccepted(s, e);
    HaltsIs(e);
    OutputsOf(s, e, out, t);
  }

  lemma HaltsIs(e: Event)
    ensures Halts(e) <==> e == DisconnectFromHost || (e.ClientFailed? && IsPermanent(e.error))
    ensures Opens(e) ==> e.ConnectToHost?
  {
  }

  lemma OutputsOf(s: MgrState, e: Event, out: seq<Output>, t: MgrState)
    requires Step(s, e, out, t)
    ensures Schedules(out) <==> e == ClientDisconnected && Schedule(s.(client := Some(StateDisconnected))).1 != []
  {
    if e == ClientDisconnected && Schedule(s.(client := Some(StateDisconnected))).1 != [] {
      assert out[1].TimerStarted?;
    }
    if e == ClientConnected {
      assert forall k :: 0 <= k < |out| - 1 ==> out[k] == out[..|out| - 1][k];
    }
  }

  /** A reconnection is scheduled exactly when the client reports a disconnection, the last event that
      opened or halted opened, and no timer is running already: no such disconnection is left at that. */
  lemma SchedulesIff(ss: seq<MgrState>, events: seq<Event>, outs: seq<seq<Output>>, j: nat)
    requires IsRun(ss, events, outs) && j < |events|
    ensures Schedules(outs[j]) <==>
            events[j] == ClientDisconnected && MayReconnect(events, j) && !TimerRuns(events, outs, j)
  {
    hide Schedules, MayReconnect, TimerRuns, Opens, Halts, Stops;
    FlagsFollowEvents(ss, events, outs, j);
    FlagsStep(ss[j], events[j], outs[j], ss[j + 1]);
  }

  // ---------------------------------------------------------------------------
  // What the client is made to do, and what the user is told

  /** The event ends the connection, or starts a new one that is not there yet. */
  predicate Drops(e: Event) {
    e == ClientDisconnected || e == ClientFailed(NoPingResponse) || e == TimerDue || Halts(e) || Opens(e)
  }

  /** The client has connected before j and not dropped since. */
  ghost predicate Up(events: seq<Event>, j: nat)
    requires j <= |events|
  {
    exists i :: 0 <= i < j && events[i] == ClientConnected && forall m :: i < m < j ==> !Drops(events[m])
  }

  ghost predicate Opened(events: seq<Event>, j: nat)
    requires j <= |events|
  {
    exists i :: 0 <= i < j && Opens(events[i])
  }

  lemma UpStep(events: seq<Event>, j: nat)
    requires 0 < j <= |events|
    ensures Up(events, j) <==> events[j - 1] == ClientConnected || (!Drops(events[j - 1]) && Up(events, j - 1))
    ensures Opened(events, j) <==> Opens(events[j - 1]) || Opened(events, j - 1)
  {
    hide Drops, Opens;
  }

  lemma {:induction false} ClientFollowsEvents(ss: seq<MgrState>, events: seq<Event>, outs: seq<seq<Output>>, j: nat)
    requires IsRun(ss, events, outs) && j < |ss|
    ensures IsConnected(ss[j]) <==> Up(events, j)
    ensures ss[j].client.Some? <==> Opened(events, j)
  {
    hide React, Drops, Opens, Inv;
    if j > 0 {
      ClientFollowsEvents(ss, events, outs, j - 1);
      UpStep(events, j);
      RunKeeps(ss, events, outs, j - 1);
      ClientStep(ss[j - 1], events[j - 1], outs[j - 1], ss[j]);
    }
  }

  lemma ClientStep(s: MgrState, e: Event, out: seq<Output>, t: MgrState)
    requires Step(s, e, out, t) && Inv(s)
    ensures IsConnected(t) <==> e == ClientConnected || (!Drops(e) && IsConnected(s))
    ensures t.client.Some? <==> Opens(e) || s.client.Some?
  {
    hide Opens, Halts, ParamsValid, CertificateValid;
    OpensIffAccepted(s, e);
    HaltsIs(e);
  }

  /** In every run, everything the client is made to do and everything the user is told, by the events
      it comes from; the replayed subscriptions are those of ConnectedReplays. */
  lemma OutputsComeFrom(ss: seq<MgrState>, events: seq<Event>, outs: seq<seq<Output>>, j: nat)
    requires IsRun(ss, events, outs) && j < |events|
    ensures ClientConnect in outs[j] <==> Opens(events[j]) || events[j] == TimerDue
    ensures ClientDisconnect in outs[j] <==> Opened(events, j) && (Opens(events[j]) || Halts(events[j]))
    ensures forall topic, qos :: events[j] != ClientConnected ==>
              (ClientSubscribe(topic, qos) in outs[j] <==>
               events[j] == Subscribe(topic, qos) && Up(events, j) && topic != "" && qos <= 2)
    ensures forall topic :: ClientUnsubscribe(topic) in outs[j] <==>
              events[j] == Unsubscribe(topic) && Up(events, j) && topic != ""
    ensures forall topic, payload, qos :: ClientPublish(topic, payload, qos) in outs[j] <==>
              events[j] == Publish(topic, payload, qos) && Up(events, j) && topic != "" && qos <= 2
    ensures SigConnected in outs[j] <==> events[j] == ClientConnected
    ensures SigDisconnected in outs[j] <==> events[j] == ClientDisconnected
    ensures forall error :: SigError(error) in outs[j] <==> events[j] == ClientFailed(error)
    ensures forall error :: ReconnectStopped(error) in outs[j] <==> events[j] == ClientFailed(error) && Halts(events[j])
    ensures SigCaCertificateLoadFailed in outs[j] <==>
            events[j].ConnectToHost? && events[j].params.connectionType == Wss && events[j].params.caCertPath != "" && !events[j].caLoads
    ensures SigParamsInvalid in outs[j] <==>
            events[j].ConnectToHost? && !Opens(events[j]) && SigCaCertificateLoadFailed !in outs[j]
  {
    hide Opens, Halts, Up, Opened, Inv, React;
    RunKeeps(ss, events, outs, j);
    FlagsFollowEvents(ss, events, outs, j);
    ClientFollowsEvents(ss, events, outs, j);
    assert Step(ss[j], events[j], outs[j], ss[j + 1]);
    if events[j] == ClientConnected {
      ReplayOutputs(outs[j], ss[j + 1]);
      HaltsIs(events[j]);
    } else {
      StepOutputs(ss[j], events[j], outs[j], ss[j + 1]);
    }
  }

  lemma ReplayOutputs(out: seq<Output>, t: MgrState)
    requires |out| > 0 && out[|out| - 1] == SigConnected && IsReplay(t.subscriptions, out[..|out| - 1])
    ensures forall x :: x in out ==> x == SigConnected || x.ClientSubscribe?
  {
    assert forall k :: 0 <= k < |out| - 1 ==> out[k] == out[..|out| - 1][k];
  }

  lemma StepOutputs(s: MgrState, e: Event, out: seq<Output>, t: MgrState)
    requires Step(s, e, out, t) && Inv(s) && e != ClientConnected
    ensures forall x :: x in out <==>
              || (x == ClientConnect && (Opens(e) || e == TimerDue))
              || (x == ClientDisconnect && s.client.Some? && (Opens(e) || Halts(e)))
              || (x.ClientSubscribe? && e == Subscribe(x.topic, x.qos) && IsConnected(s) && x.topic != "" && x.qos <= 2)
              || (x.ClientUnsubscribe? && e == Unsubscribe(x.topic) && IsConnected(s) && x.topic != "")
              || (x.ClientPublish? && e == Publish(x.topic, x.payload, x.qos) && IsConnected(s) && x.topic != "" && x.qos <= 2)
              || (x == SigDisconnected && e == ClientDisconnected)
              || (x.SigError? && e == ClientFailed(x.error))
              || (x.ReconnectStopped? && e == ClientFailed(x.error) && Halts(e))
              || (x == SigCaCertificateLoadFailed && e.ConnectToHost? && !CertificateValid(e.params, e.caLoads))
              || (x == SigParamsInvalid && e.ConnectToHost? && !Opens(e) && CertificateValid(e.params, e.caLoads))
              || ((x.TimerStarted? || x.ReconnectScheduled?) && e == ClientDisconnected
                  && x in Schedule(s.(client := Some(StateDisconnected))).1)
  {
    hide Opens, Halts, ParamsValid;
    OpensIffAccepted(s, e);
    HaltsIs(e);
  }

  // ---------------------------------------------------------------------------
  // Backoff

  predicate Resets(s: MgrState, e: Event) {
    e == ClientConnected || (e.ConnectToHost? && Accepted(s, e))
  }

  predicate Schedules(out: seq<Output>) {
    exists i :: 0 <= i < |out| && out[i].TimerStarted?
  }

  ghost function Scheduled(outs: seq<seq<Output>>): nat {
    if outs == [] then 0
    else Scheduled(outs[..|outs| - 1]) + (if Schedules(outs[|outs| - 1]) then 1 else 0)
  }

  lemma {:induction false} DelayCounts(ss: seq<MgrState>, events: seq<Event>, outs: seq<seq<Output>>, i: nat, j: nat)
    requires IsRun(ss, events, outs) && i < j <= |events| && Resets(ss[i], events[i])
    requires forall k :: i < k < j ==> !Resets(ss[k], events[k])
    ensures ss[j].delayMs == Delay(Scheduled(outs[i + 1..j]))
    decreases j
  {
    hide NextDelay, React, Resets, Schedules;
    assert Step(ss[j - 1], events[j - 1], outs[j - 1], ss[j]);
    if i + 1 < j {
      DelayCounts(ss, events, outs, i, j - 1);
      var some := outs[i + 1..j];
      assert some[..|some| - 1] == outs[i + 1..j - 1];
      OneSchedule(ss[j - 1], events[j - 1], outs[j - 1], ss[j]);
    } else {
      ResetStep(ss[i], events[i]);
      assert outs[i + 1..j] == [];
    }
  }

  lemma ResetStep(s: MgrState, e: Event)
    requires Resets(s, e)
    ensures React(s, e).0.delayMs == INITIAL_DELAY_MS
  {
  }

  lemma OneSchedule(s: MgrState, e: Event, out: seq<Output>, t: MgrState)
    requires Step(s, e, out, t) && !Resets(s, e)
    ensures t.delayMs == if Schedules(out) then NextDelay(s.delayMs) else s.delayMs
    ensures Schedules(out) ==> out == [SigDisconnected, TimerStarted(s.delayMs), ReconnectScheduled(s.delayMs / 1000)]
  {
    hide NextDelay;
    if e == ClientDisconnected && |out| > 1 {
      assert out[1].TimerStarted?;
    }
  }

  /** The n-th reconnection scheduled since the last reset, counted from 0, waits 5 seconds doubled n
      times, at most a minute. */
  lemma BackoffDelays(ss: seq<MgrState>, events: seq<Event>, outs: seq<seq<Output>>, i: nat, j: nat)
    requires IsRun(ss, events, outs) && i < j < |events| && Resets(ss[i], events[i])
    requires forall k :: i < k <= j ==> !Resets(ss[k], events[k])
    requires Schedules(outs[j])
    ensures var n := Scheduled(outs[i + 1..j]);
            var ms := if 5000 * Pow2(n) < 60000 then 5000 * Pow2(n) else 60000;
            outs[j] == [SigDisconnected, TimerStarted(ms), ReconnectScheduled(ms / 1000)]
  {
    DelayCounts(ss, events, outs, i, j);
    DelayIsCappedDoubling(Scheduled(outs[i + 1..j]));
    OneSchedule(ss[j], events[j], outs[j], ss[j + 1]);
  }

  // ---------------------------------------------------------------------------
  // Subscriptions

  /** The event asks for topic at qos, and is heard. */
  predicate Asks(s: MgrState, e: Event, topic: string, qos: byte) {
    Accepted(s, e) && (e == Subscribe(topic, qos)
                       || (e.ConnectToHost? && topic != "" && e.params.autoTopic == topic && e.params.autoQos == qos))
  }

  /** The event decides whether topic is subscribed to: a connection to a host starts from nothing. */
  predicate Decides(s: MgrState, e: Event, topic: string) {
    Accepted(s, e) && (e.ConnectToHost? || (e.Subscribe? && e.topic == topic) || e == Unsubscribe(topic))
  }

  /** The last deciding event before j asked for topic at qos. */
  ghost predicate LastAsked(ss: seq<MgrState>, events: seq<Event>, j: nat, topic: string, qos: byte)
    requires j <= |events| < |ss|
  {
    exists i :: 0 <= i < j && Asks(ss[i], events[i], topic, qos) && forall k :: i < k < j ==> !Decides(ss[k], events[k], topic)
  }

  lemma {:induction false} SubscriptionsAreLastWrites(ss: seq<MgrState>, events: seq<Event>, outs: seq<seq<Output>>,
                                                      j: nat, topic: string, qos: byte)
    requires IsRun(ss, events, outs) && j <= |events|
    ensures (topic in ss[j].subscriptions && ss[j].subscriptions[topic] == qos) <==> LastAsked(ss, events, j, topic, qos)
    decreases j
  {
    if j > 0 {
      SubscriptionsAreLastWrites(ss, events, outs, j - 1, topic, qos);
      var s, e, t := ss[j - 1], events[j - 1], ss[j];
      assert Step(s, e, outs[j - 1], t);
      LastAskedStep(ss, events, j, topic, qos);
      SubscriptionStep(s, e, topic, qos);
    }
  }

  /** One more event: it decides, or what was asked before stands. */
  lemma LastAskedStep(ss: seq<MgrState>, events: seq<Event>, j: nat, topic: string, qos: byte)
    requires 0 < j <= |events| < |ss|
    ensures LastAsked(ss, events, j, topic, qos) <==>
            Asks(ss[j - 1], events[j - 1], topic, qos)
            || (!Decides(ss[j - 1], events[j - 1], topic) && LastAsked(ss, events, j - 1, topic, qos))
  {
  }

  lemma SubscriptionStep(s: MgrState, e: Event, topic: string, qos: byte)
    ensures var t := React(s, e).0;
            (topic in t.subscriptions && t.subscriptions[topic] == qos) <==>
            Asks(s, e, topic, qos)
            || (!Decides(s, e, topic) && topic in s.subscriptions && s.subscriptions[topic] == qos)
  {
  }

  /** Each connected event subscribes again to exactly the topics whose last accepted request, since
      the last accepted connectToHost and its automatic subscription, was to subscribe: once each, at
      the QoS of that request. */
  lemma ConnectedReplays(ss: seq<MgrState>, events: seq<Event>, outs: seq<seq<Output>>, j: nat, topic: string, qos: byte)
    requires IsRun(ss, events, outs) && j < |events| && events[j] == ClientConnected
    ensures ClientSubscribe(topic, qos) in outs[j] <==> LastAsked(ss, events, j, topic, qos)
    ensures forall a, b :: 0 <= a < b < |outs[j]| && outs[j][a].ClientSubscribe? && outs[j][b].ClientSubscribe? ==>
                             outs[j][a].topic != outs[j][b].topic
  {
    SubscriptionsAreLastWrites(ss, events, outs, j, topic, qos);
    assert Step(ss[j], events[j], outs[j], ss[j + 1]);
    var out := outs[j];
    var replay := out[..|out| - 1];
    assert out == replay + [SigConnected];
    if ClientSubscribe(topic, qos) in out {
      assert ClientSubscribe(topic, qos) in replay;
    }
    forall a, b | 0 <= a < b < |out| && out[a].ClientSubscribe? && out[b].ClientSubscribe?
      ensures out[a].topic != out[b].topic
    {
      assert replay[a] != replay[b];
    }
  }
}
