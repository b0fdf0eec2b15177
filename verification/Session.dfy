/** Client and broker over two byte streams, each read a byte at a time: what the parser and the printer
    of frames make of the handshakes. A read of many bytes is many of these steps, so the streams may be
    cut into any pieces. */
module Session {
  import opened Bits
  import opened Frames
  import opened Wrappers
  import opened Parser = Network
  import opened StreamDecoding
  import opened Packets
  import opened Client
  import opened Handshake

  type Reader = s: ParserState | ValidState(s) witness ParserState(Header, 0, 0, 0, [])

  /** One direction of the connection: the bytes written and not read yet, and the parser they go to. */
  datatype Pipe = Pipe(bytes: seq<byte>, reader: Reader)

  /** reports lists the completions reported to the application. */
  datatype Connection = Connection(c: ClientState, up: bool, closing: bool, toBroker: Pipe, toClient: Pipe,
                                   history: seq<Request>, since: nat, reports: seq<Signal>)

  /** Local steps are those of the application, the timers and the socket. */
  datatype ByteStep = Local(s: Step)
                    | BrokerWrites(f: RawFrame)
                    | BrokerReads(code: byte)
                    | ClientReads(now: nat)

  predicate IsLocal(s: Step) {
    !s.BrokerAnswers? && !s.BrokerSends? && !s.ClientReceives?
  }

  ghost predicate ByteEnabled(b: Connection, s: ByteStep) {
    match s
    case Local(Publish(m, _)) => m.qos <= QOS2
    case Local(NetworkUp(f, _)) => !b.up && GetType(f.header) == CONNECT
    case Local(l) => IsLocal(l)
    case BrokerWrites(f) => b.up && BrokerMaySend(f)
    case BrokerReads(_) => b.up && b.toBroker.bytes != []
    case ClientReads(_) => b.up && b.toClient.bytes != []
  }

  /** Frame::write on a connected socket. */
  ghost function Write(b: Connection, toBroker: bool, f: RawFrame): Connection {
    if !b.up || (toBroker && b.closing) then b
    else if toBroker then b.(toBroker := b.toBroker.(bytes := b.toBroker.bytes + Serialize(f)))
    else b.(toClient := b.toClient.(bytes := b.toClient.bytes + Serialize(f)))
  }

  ghost function WriteAll(b: Connection, out: seq<Action>): Connection
    decreases |out|
  {
    if out == [] then b
    else WriteAll(if out[0].Send? then Write(b, true, out[0].frame) else b, out[1..])
  }

  function Reported(out: seq<Action>): seq<Signal> {
    if out == [] then []
    else
      (if IsCompletion(out[0]) then [out[0].signal] else []) + Reported(out[1..])
  }

  /** The client has reacted. */
  function Reacted(b: Connection, o: Outcome): (d: Connection)
    ensures d == b.(c := o.state, reports := d.reports)
  {
    b.(c := o.state, reports := b.reports + Reported(o.out))
  }

  /** The parser takes the next byte off the pipe, and may complete a frame. */
  ghost function Read(p: Pipe): (Pipe, seq<NetSignal>)
    requires p.bytes != []
  {
    StepValid(p.reader, p.bytes[0]);
    var (reader, signals) := Parser.Step(p.reader, p.bytes[0]);
    (Pipe(p.bytes[1..], reader), signals)
  }

  ghost function LocalNext(b: Connection, s: Step): Connection
    requires ByteEnabled(b, Local(s))
  {
    match s
    case Publish(m, now) =>
      var o := Publishing(b.c, m, now);
      WriteAll(Reacted(b, o).(history := b.history + [PublishRequest(PublishMid(b.c, m), m)]), o.out)
    case Subscribe(topic, qos, now) =>
      var o := Subscribing(b.c, topic, qos, now);
      WriteAll(Reacted(b, o).(history := b.history + [SubscribeRequest(b.c.gmid, topic, qos)]), o.out)
    case Unsubscribe(topic, now) =>
      var o := Unsubscribing(b.c, topic, now);
      WriteAll(Reacted(b, o).(history := b.history + [UnsubscribeRequest(b.c.gmid, topic)]), o.out)
    case Connect => b.(c := b.c.(connection := StateConnecting))
    case Disconnect(now) =>
      var o := Disconnecting(b.c, now);
      WriteAll(Reacted(b, o), o.out).(closing := b.up)
    case PingDue(now) =>
      var o := Client.PingDue(b.c, now);
      WriteAll(Reacted(b, o), o.out)
    case PingTimeout(now) =>
      var o := Client.PingTimeout(b.c, now);
      WriteAll(Reacted(b, o), o.out).(closing := b.up)
    case NetworkUp(f, now) =>
      // the broker starts on a new stream; the client's parser is reset, whatever it was left with
      var o := Sending(b.c, f, now);
      var open := Reacted(b, o).(up := true, closing := false, toBroker := Pipe([], ParserState(Header, 0, 0, 0, [])),
                                 toClient := Pipe([], b.toClient.reader.(readState := Header)));
      WriteAll(open, o.out)
    case NetworkDown =>
      Reacted(b, NetworkLost(b.c)).(
         up := false, closing := false, since := |b.history|,
         toBroker := b.toBroker.(bytes := []), toClient := b.toClient.(bytes := []))
    case SocketError => b.(closing := b.up)
  }

  ghost function ByteNext(b: Connection, s: ByteStep): Connection
    requires ByteEnabled(b, s)
  {
    match s
    case Local(l) => LocalNext(b, l)
    case BrokerWrites(f) => Write(b, false, f)
    case BrokerReads(code) =>
      var (p, signals) := Read(b.toBroker);
      var b1 := b.(toBroker := p);
      if signals != [] && signals[0].Received? && BrokerReply(signals[0].frame, code).Some?
      then Write(b1, false, BrokerReply(signals[0].frame, code).value) else b1
    case ClientReads(now) =>
      var (p, signals) := Read(b.toClient);
      var b1 := b.(toClient := p);
      if signals != [] && signals[0].Received? && Readable(signals[0].frame) then
        var o := Arrived(b.c, signals[0].frame, now);
        WriteAll(Reacted(b1, o), o.out)
      else b1
  }

  // ---------------------------------------------------------------------------
  // A pipe carries frames

  /** The parser started in state Header and has taken the bytes of pre, which hold no whole packet; the
      rest of what was printed is in the pipe. */
  ghost predicate Underway(s: ParserState, pre: seq<byte>, p: Pipe, frames: seq<RawFrame>) {
    s.readState == Header && Incomplete(pre) && p.reader == Feed(s, pre).0 && pre + p.bytes == SerializeAll(frames)
  }

  ghost predicate Carries(p: Pipe, frames: seq<RawFrame>) {
    && (forall f :: f in frames ==> |f.data| <= MAX_REMAINING_LENGTH)
    && exists s, pre :: Underway(s, pre, p, frames)
  }

  lemma CarriesNothing(p: Pipe)
    requires p.bytes == [] && p.reader.readState == Header
    ensures Carries(p, [])
  {
    NothingIsIncomplete();
    assert Underway(p.reader, [], p, []);
  }

  lemma {:induction false} SerializeOneMore(frames: seq<RawFrame>, f: RawFrame)
    ensures SerializeAll(frames + [f]) == SerializeAll(frames) + Serialize(f)
  {
    hide Serialize;
    if frames == [] {
      assert SerializeAll([f]) == Serialize(f) + SerializeAll([]);
    } else {
      SerializeOneMore(frames[1..], f);
      assert (frames + [f])[1..] == frames[1..] + [f];
    }
  }

  lemma CarriesWritten(p: Pipe, frames: seq<RawFrame>, f: RawFrame)
    requires Carries(p, frames)
    ensures Carries(p.(bytes := p.bytes + Serialize(f)), if |f.data| <= MAX_REMAINING_LENGTH then frames + [f] else frames)
  {
    hide Incomplete, Feed;
    var s, pre :| Underway(s, pre, p, frames);
    var q := p.(bytes := p.bytes + Serialize(f));
    assert pre + q.bytes == pre + p.bytes + Serialize(f);
    if |f.data| <= MAX_REMAINING_LENGTH {
      SerializeOneMore(frames, f);
      assert Underway(s, pre, q, frames + [f]);
    } else {
      assert Underway(s, pre, q, frames);
    }
  }

  /** A proper beginning of a printed frame is incomplete, and nothing incomplete contains one. */
  lemma PrintedFrame(f: RawFrame, bytes: seq<byte>)
    requires |f.data| <= MAX_REMAINING_LENGTH
    ensures bytes < Serialize(f) ==> Incomplete(bytes)
    ensures Serialize(f) <= bytes ==> !Incomplete(bytes)
  {
    hide WellFormed, Raw, Serialize;
    PrintedItemIs(f);
    if bytes < Serialize(f) {
      forall item | WellFormed(item)
        ensures !(Raw(item) <= bytes)
      {
        if Raw(item) <= bytes {
          ItemsPrefixFree(item, PrintedItem(f), Serialize(f));
        }
      }
    }
  }

  /** Reading a byte brings nothing to light, or exactly the first frame carried. */
  lemma ReadCarried(p: Pipe, frames: seq<RawFrame>)
    requires Carries(p, frames) && p.bytes != []
    ensures var (q, signals) := Read(p);
            if signals == [] then Carries(q, frames)
            else frames != [] && signals == [NetSignal.Received(frames[0])] && Carries(q, frames[1..])
  {
    hide Incomplete, Parser.Step, Serialize, Feed;
    var s, pre :| Underway(s, pre, p, frames);
    var b, f := p.bytes[0], frames[0];
    var (q, signals) := Read(p);
    var pre' := pre + [b];
    assert pre' + q.bytes == SerializeAll(frames);
    StepValid(p.reader, b);
    FeedAppend(s, pre, [b]);
    FeedOne(p.reader, b);
    FeedIncomplete(s, pre);
    assert [] + signals == signals;
    assert Feed(s, pre') == (q.reader, signals);
    PrintedFrame(f, pre);
    PrintedFrame(f, pre');
    assert SerializeAll(frames) == Serialize(f) + SerializeAll(frames[1..]);
    PrefixOfSum(pre', q.bytes, Serialize(f), SerializeAll(frames[1..]));
    if pre' < Serialize(f) {
      FeedIncomplete(s, pre');
      assert Underway(s, pre', q, frames);
    } else {
      ShorterByOne(pre, b, Serialize(f));
      PrintedItemIs(f);
      FeedItem(s, PrintedItem(f));
      NothingIsIncomplete();
      assert Feed(q.reader, []).0 == q.reader by { FeedNothing(q.reader); }
      assert Underway(q.reader, [], q, frames[1..]);
    }
  }

  lemma FeedNothing(s: ParserState)
    requires ValidState(s)
    ensures Feed(s, []) == (s, [])
  {
  }

  lemma PrefixOfSum(a: seq<byte>, b: seq<byte>, c: seq<byte>, d: seq<byte>)
    requires a + b == c + d
    ensures a < c || c <= a
    ensures a == c ==> b == d
  {
    if |a| < |c| {
      assert a == (a + b)[..|a|] == c[..|a|];
    } else {
      assert c == (c + d)[..|c|] == a[..|c|];
    }
    if a == c {
      assert b == (a + b)[|a|..] == (c + d)[|c|..] == d;
    }
  }

  /** What starts pre and one byte more is all of that, or starts pre. */
  lemma ShorterByOne(pre: seq<byte>, b: byte, c: seq<byte>)
    requires c <= pre + [b]
    ensures c == pre + [b] || c <= pre
  {
    if |c| <= |pre| {
      assert c == (pre + [b])[..|c|] == pre[..|c|];
    }
  }

  lemma NothingPrinted(frames: seq<RawFrame>)
    requires forall f :: f in frames ==> |f.data| <= MAX_REMAINING_LENGTH
    requires SerializeAll(frames) == []
    ensures frames == []
  {
  }

  /** With no byte left and the parser between packets, nothing is carried. */
  lemma DrainedIsEmpty(p: Pipe, frames: seq<RawFrame>)
    requires Carries(p, frames) && p.bytes == [] && p.reader.readState == Header
    ensures frames == []
  {
    hide Incomplete, Feed;
    var s, pre :| Underway(s, pre, p, frames);
    FeedIncomplete(s, pre);
    assert pre == [];
    NothingPrinted(frames);
  }

  // ---------------------------------------------------------------------------
  // The frames of one direction, in the order in which they were put on the way

  ghost function Queue(wire: map<nat, Flight>, toBroker: bool, n: nat): seq<RawFrame> {
    if n == 0 then []
    else Queue(wire, toBroker, n - 1) + (if n - 1 in wire && wire[n - 1].toBroker == toBroker then [wire[n - 1].frame] else [])
  }

  ghost predicate SameDirection(v: map<nat, Flight>, w: map<nat, Flight>, toBroker: bool, n: nat) {
    forall i: nat :: i < n ==> (i in v && v[i].toBroker == toBroker <==> i in w && w[i].toBroker == toBroker)
                               && (i in v && i in w && v[i].toBroker == toBroker ==> v[i].frame == w[i].frame)
  }

  lemma {:induction false} QueueSame(v: map<nat, Flight>, w: map<nat, Flight>, toBroker: bool, n: nat)
    requires SameDirection(v, w, toBroker, n)
    ensures Queue(v, toBroker, n) == Queue(w, toBroker, n)
  {
    if n > 0 {
      QueueSame(v, w, toBroker, n - 1);
    }
  }

  lemma QueuePut(wire: map<nat, Flight>, n: nat, flight: Flight, toBroker: bool)
    ensures Queue(wire[n := flight], toBroker, n + 1)
            == Queue(wire, toBroker, n) + (if flight.toBroker == toBroker then [flight.frame] else [])
  {
    QueueSame(wire[n := flight], wire, toBroker, n);
  }

  /** The packet at the head of a direction. */
  lemma {:induction false} QueueHead(wire: map<nat, Flight>, toBroker: bool, n: nat) returns (i: nat)
    requires Queue(wire, toBroker, n) != []
    ensures i < n && i in wire && wire[i].toBroker == toBroker && wire[i].frame == Queue(wire, toBroker, n)[0]
    ensures Queue(wire - {i}, toBroker, n) == Queue(wire, toBroker, n)[1..]
    ensures Queue(wire - {i}, !toBroker, n) == Queue(wire, !toBroker, n)
  {
    if Queue(wire, toBroker, n - 1) != [] {
      i := QueueHead(wire, toBroker, n - 1);
    } else {
      i := n - 1;
      QueueSame(wire - {i}, wire, toBroker, n - 1);
    }
    QueueSame(wire - {i}, wire, !toBroker, n);
  }

  lemma {:induction false} QueueEmpty(wire: map<nat, Flight>, n: nat)
    requires Queue(wire, true, n) == [] && Queue(wire, false, n) == []
    ensures forall i: nat :: i < n ==> i !in wire
  {
    if n > 0 {
      QueueEmpty(wire, n - 1);
    }
  }

  lemma {:induction false} EmptyQueue(toBroker: bool, n: nat)
    ensures Queue(map[], toBroker, n) == []
  {
    if n > 0 {
      EmptyQueue(toBroker, n - 1);
    }
  }

  // ---------------------------------------------------------------------------
  // Steps over bytes are steps over frames, or read on within one

  /** The two descriptions of a moment agree. */
  ghost predicate Matches(b: Connection, w: World) {
    && b.c == w.c && b.up == w.up && b.closing == w.closing && b.history == w.history && b.since == w.since
    && |b.reports| == |w.answers| && (forall k :: 0 <= k < |b.reports| ==> b.reports[k] == w.answers[k].signal)
    && (b.up ==> Carries(b.toBroker, Queue(w.wire, true, w.next)) && Carries(b.toClient, Queue(w.wire, false, w.next)))
  }

  lemma PutMatches(b: Connection, w: World, toBroker: bool, f: RawFrame, tag: Option<nat>)
    requires Matches(b, w)
    ensures Matches(Write(b, toBroker, f), Put(w, toBroker, f, tag))
  {
    hide Carries, Serialize, Queue;
    if b.up && !(toBroker && b.closing) {
      CarriesWritten(if toBroker then b.toBroker else b.toClient, Queue(w.wire, toBroker, w.next), f);
      QueuePut(w.wire, w.next, Flight(toBroker, f, tag), true);
      QueuePut(w.wire, w.next, Flight(toBroker, f, tag), false);
      assert Queue(w.wire, !toBroker, w.next) + [] == Queue(w.wire, !toBroker, w.next);
    }
  }

  lemma WriteFew(b: Connection, out: seq<Action>)
    requires |out| <= 2 && (|out| == 2 ==> !out[1].Send?)
    ensures WriteAll(b, out) == if out != [] && out[0].Send? then Write(b, true, out[0].frame) else b
  {
    hide Write;
    if out != [] {
      var b1 := if out[0].Send? then Write(b, true, out[0].frame) else b;
      assert WriteAll(b, out) == WriteAll(b1, out[1..]);
      if |out| == 2 {
        assert out[1..][1..] == [];
        assert WriteAll(b1, out[1..]) == WriteAll(b1, []);
      }
    }
  }

  lemma PutFirstMatches(b: Connection, w: World, out: seq<Action>, tag: Option<nat>)
    requires Matches(b, w) && |out| <= 2 && (|out| == 2 ==> !out[1].Send?)
    ensures Matches(WriteAll(b, out), PutFirst(w, out, tag))
  {
    hide Matches, Write, Put, WriteAll;
    WriteFew(b, out);
    if out != [] && out[0].Send? {
      PutMatches(b, w, true, out[0].frame, tag);
    }
  }

  /** A reaction is the same in both descriptions. */
  lemma ReactedMatches(b: Connection, w: World, o: Outcome, tag: Option<nat>)
    requires Matches(b, w)
    ensures Matches(Reacted(b, o), After(w, o, tag))
  {
    hide Carries, Queue, Completions, Reported;
    ReportedIs(o.out, tag);
  }

  /** Local steps are the same in both descriptions. */
  lemma LocalMatches(b: Connection, s: Step, w: World)
    requires Matches(b, w) && WireMatches(w) && ByteEnabled(b, Local(s))
    ensures Enabled(w, s) && Matches(LocalNext(b, s), Next(w, s))
  {
    hide Carries, Queue, WriteAll, PutFirst, PublishFrame, SubscribeFrame, UnsubscribeFrame, GetType, WireMatches;
    hide MakeRequest, MakeInstant, Reacted, After;
    match s
    case Publish(m, now) => PublishMatches(b, m, now, w);
    case Subscribe(topic, qos, now) =>
      var r := SubscribeRequest(w.c.gmid, topic, qos);
      RequestMatches(b, w, r, Subscribing(w.c, topic, qos, now));
    case Unsubscribe(topic, now) =>
      var r := UnsubscribeRequest(w.c.gmid, topic);
      RequestMatches(b, w, r, Unsubscribing(w.c, topic, now));
    case Connect =>
    case Disconnect(now) =>
      var o := Disconnecting(w.c, now);
      ReactedMatches(b, w, o, None);
      PutFirstMatches(Reacted(b, o), After(w, o, None), o.out, None);
    case PingDue(now) =>
      var o := Client.PingDue(w.c, now);
      ReactedMatches(b, w, o, None);
      PutFirstMatches(Reacted(b, o), After(w, o, None), o.out, None);
    case PingTimeout(now) =>
      var o := Client.PingTimeout(w.c, now);
      ReactedMatches(b, w, o, None);
      EmittedFirst(Reacted(b, o), o.out);
      PutFirstMatches(Reacted(b, o), After(w, o, None), o.out[1..], None);
    case NetworkUp(f, now) => UpMatches(b, f, now, w);
    case NetworkDown => ReactedMatches(b, w, NetworkLost(w.c), None);
    case SocketError =>
  }

  lemma EmittedFirst(b: Connection, out: seq<Action>)
    requires out != [] && !out[0].Send?
    ensures WriteAll(b, out) == WriteAll(b, out[1..])
  {
  }

  lemma RequestMatches(b: Connection, w: World, r: Request, o: Outcome)
    requires Matches(b, w) && |o.out| == 1
    ensures Matches(WriteAll(Reacted(b, o).(history := b.history + [r]), o.out), MakeRequest(w, r, o))
  {
    hide Carries, Queue, WriteAll, PutFirst, Reacted, After;
    var tag := |w.history|;
    ReactedMatches(b, w, o, Some(tag));
    var w1 := After(w, o, Some(tag)).(
                 history := w.history + [r],
                 messageOwner := if r.PublishRequest? then w.messageOwner[r.mid := tag] else w.messageOwner,
                 topicOwner := if r.PublishRequest? then w.topicOwner else w.topicOwner[r.mid := tag]);
    PutFirstMatches(Reacted(b, o).(history := b.history + [r]), w1, o.out, Some(tag));
  }

  lemma PublishMatches(b: Connection, m: Message, now: nat, w: World)
    requires Matches(b, w) && m.qos <= QOS2
    ensures Matches(LocalNext(b, Publish(m, now)), Next(w, Publish(m, now)))
  {
    hide Carries, Queue, WriteAll, PutFirst, PublishFrame, MakeRequest, Reacted, After;
    var o, r := Publishing(w.c, m, now), PublishRequest(PublishMid(w.c, m), m);
    if m.qos == QOS0 {
      var tag := Some(|w.history|);
      ReactedMatches(b, w, o, tag);
      PutFirstMatches(Reacted(b, o).(history := b.history + [r]), After(w, o, tag).(history := w.history + [r]), o.out, None);
    } else {
      RequestMatches(b, w, r, o);
    }
  }

  /** Nothing is on the way when the socket comes up, and both parsers start between packets. */
  lemma UpMatches(b: Connection, f: RawFrame, now: nat, w: World)
    requires Matches(b, w) && WireMatches(w) && ByteEnabled(b, Local(NetworkUp(f, now)))
    ensures Matches(LocalNext(b, NetworkUp(f, now)), Next(w, NetworkUp(f, now)))
  {
    hide Carries, Queue, WriteAll, PutFirst, GetType, Expected, Unrelated, Reacted, After;
    var o := Sending(b.c, f, now);
    ReactedMatches(b, w, o, None);
    var open := Reacted(b, o).(up := true, closing := false, toBroker := Pipe([], ParserState(Header, 0, 0, 0, [])),
                               toClient := Pipe([], b.toClient.reader.(readState := Header)));
    var w1 := After(w, o, None).(up := true, closing := false);
    EmptyQueue(true, w.next);
    EmptyQueue(false, w.next);
    assert w1.wire == map[];
    CarriesNothing(open.toBroker);
    CarriesNothing(open.toClient);
    PutFirstMatches(open, w1, o.out, None);
  }

  /** Everything on the way to the client is long enough for what the client reads of it. */
  lemma ToClientReadable(w: World, i: nat)
    requires WireMatches(w) && i in w.wire && !w.wire[i].toBroker
    ensures Readable(w.wire[i].frame)
  {
    hide GetType, GetQos, EncodeInt, SetQos;
    HeaderTypes();
  }

  lemma {:induction false} ReportedIs(out: seq<Action>, tag: Option<nat>)
    ensures |Reported(out)| == |Completions(out, tag)|
    ensures forall k :: 0 <= k < |Reported(out)| ==> Reported(out)[k] == Completions(out, tag)[k].signal
  {
    if out != [] {
      ReportedIs(out[1..], tag);
      var reported, completed := Reported(out[1..]), Completions(out[1..], tag);
      if IsCompletion(out[0]) {
        assert Reported(out) == [out[0].signal] + reported && Completions(out, tag) == [Answer(tag, out[0].signal)] + completed;
      } else {
        assert Reported(out) == [] + reported == reported && Completions(out, tag) == [] + completed == completed;
      }
    }
  }

  lemma ArrivedShape(c: ClientState, f: RawFrame, now: nat)
    requires Readable(f)
    ensures var out := Arrived(c, f, now).out;
            |out| <= 2 && (|out| == 2 ==> !out[1].Send?)
  {
    hide GetType, GetQos, Readable, ParsePublish, AckFrame;
  }

  /** The client reads a byte: it receives the packet at the head of its direction, or none yet. */
  lemma ClientReadMatches(b: Connection, now: nat, w: World) returns (v: World, s: Option<Step>)
    requires Matches(b, w) && WireMatches(w) && ByteEnabled(b, ClientReads(now))
    ensures Matches(ByteNext(b, ClientReads(now)), v)
    ensures if s.None? then v == w else s.value.ClientReceives? && Enabled(w, s.value) && v == Next(w, s.value)
    ensures var signals := Read(b.toClient).1;
            signals == [] || (|signals| == 1 && signals[0].Received? && Readable(signals[0].frame))
  {
    hide Carries, Queue, WriteAll, PutFirst, WireMatches, Read, Arrived, Readable, Completions, Reported, Restrict;
    var frames := Queue(w.wire, false, w.next);
    var (p, signals) := Read(b.toClient);
    ReadCarried(b.toClient, frames);
    if signals == [] {
      v, s := w, None;
    } else {
      var i := QueueHead(w.wire, false, w.next);
      ToClientReadable(w, i);
      s := Some(ClientReceives(i, now));
      v := Next(w, s.value);
      var o := Arrived(w.c, frames[0], now);
      ReportedIs(o.out, w.wire[i].tag);
      ArrivedShape(w.c, frames[0], now);
      PutFirstMatches(b.(toClient := p, c := o.state, reports := b.reports + Reported(o.out)),
                      TakenIn(w, i, o), o.out, w.wire[i].tag);
    }
  }

  /** The world with packet i received and its answer not yet sent. */
  ghost function TakenIn(w: World, i: nat, o: Outcome): World
    requires i in w.wire
  {
    w.(c := o.state, wire := w.wire - {i},
       messageOwner := Restrict(w.messageOwner, o.state.midToMessage.Keys),
       topicOwner := Restrict(w.topicOwner, o.state.midToTopic.Keys),
       answers := w.answers + Completions(o.out, w.wire[i].tag))
  }

  lemma BrokerReadMatches(b: Connection, code: byte, w: World) returns (v: World, s: Option<Step>)
    requires Matches(b, w) && WireMatches(w) && ByteEnabled(b, BrokerReads(code))
    ensures Matches(ByteNext(b, BrokerReads(code)), v)
    ensures if s.None? then v == w else s.value.BrokerAnswers? && Enabled(w, s.value) && v == Next(w, s.value)
    ensures var signals := Read(b.toBroker).1;
            signals == [] || (|signals| == 1 && signals[0].Received?)
  {
    hide Carries, Queue, WireMatches, Read, BrokerReply, Write, Put;
    var frames := Queue(w.wire, true, w.next);
    var (p, signals) := Read(b.toBroker);
    ReadCarried(b.toBroker, frames);
    if signals == [] {
      v, s := w, None;
    } else {
      var i := QueueHead(w.wire, true, w.next);
      s := Some(BrokerAnswers(i, code));
      v := Next(w, s.value);
      var reply := BrokerReply(frames[0], code);
      if reply.Some? {
        PutMatches(b.(toBroker := p), w.(wire := w.wire - {i}), false, reply.value, w.wire[i].tag);
      }
    }
  }

  lemma StepMatches(b: Connection, l: ByteStep, w: World) returns (v: World, s: Option<Step>)
    requires Matches(b, w) && WireMatches(w) && ByteEnabled(b, l)
    ensures Matches(ByteNext(b, l), v)
    ensures if s.None? then v == w else Enabled(w, s.value) && v == Next(w, s.value)
    ensures if l.Local? then s == Some(l.s) else s.None? || !IsLocal(s.value)
  {
    hide Matches, LocalNext, ByteNext, Next, Enabled, WireMatches;
    match l
    case Local(step) =>
      LocalMatches(b, step, w);
      v, s := Next(w, step), Some(step);
      assert ByteNext(b, l) == LocalNext(b, step) by { LocalIsLocal(b, step); }
    case BrokerWrites(f) =>
      WriteMatches(b, f, w);
      v, s := Next(w, BrokerSends(f)), Some(BrokerSends(f));
    case BrokerReads(code) => v, s := BrokerReadMatches(b, code, w);
    case ClientReads(now) => v, s := ClientReadMatches(b, now, w);
  }

  lemma LocalIsLocal(b: Connection, s: Step)
    requires ByteEnabled(b, Local(s))
    ensures ByteNext(b, Local(s)) == LocalNext(b, s)
  {
  }

  lemma WriteMatches(b: Connection, f: RawFrame, w: World)
    requires Matches(b, w) && ByteEnabled(b, BrokerWrites(f))
    ensures Enabled(w, BrokerSends(f)) && Matches(ByteNext(b, BrokerWrites(f)), Next(w, BrokerSends(f)))
  {
    hide Carries, Queue, Write, Put, BrokerMaySend;
    PutMatches(b, w, false, f, None);
  }

  // ---------------------------------------------------------------------------
  // Runs

  ghost predicate Starts(b: Connection) {
    && b.c.midToTopic == map[] && b.c.midToMessage == map[] && !b.up && !b.closing
    && b.history == [] && b.since == 0 && b.reports == []
  }

  ghost predicate IsByteRun(bs: seq<Connection>, steps: seq<ByteStep>) {
    && |bs| == |steps| + 1 && Starts(bs[0])
    && forall k :: 0 <= k < |steps| ==> ByteEnabled(bs[k], steps[k]) && bs[k + 1] == ByteNext(bs[k], steps[k])
  }

  /** Identifiers chosen for requests of this kind are never in use. */
  ghost predicate AlwaysFree(bs: seq<Connection>, steps: seq<ByteStep>, kind: Handshake.Kind)
    requires |bs| == |steps| + 1
  {
    forall k :: 0 <= k < |steps| && steps[k].Local? && Makes(steps[k].s, kind) ==> IsFree(bs[k].c, steps[k].s)
  }

  /** The frame run ws goes through the same moments as the byte run up to moment n: at[k] is where it
      stands at moment k. */
  ghost predicate Simulates(bs: seq<Connection>, steps: seq<ByteStep>, n: nat, ws: seq<World>, wsteps: seq<Step>, at: seq<nat>)
    requires n <= |steps| < |bs|
  {
    && |ws| == |wsteps| + 1 && |at| == n + 1 && at[n] == |wsteps|
    && (forall k :: 0 <= k <= n ==> at[k] < |ws| && Matches(bs[k], ws[at[k]]))
    && (forall k :: 0 <= k < n && steps[k].Local? ==>
          at[k] < |wsteps| && wsteps[at[k]] == steps[k].s && at[k + 1] == at[k] + 1)
  }

  /** Every run over bytes is a run over frames, in which no identifier is reused if none is over bytes.
      So all that holds of the runs of client, network and broker over frames holds over bytes. */
  lemma {:induction false} BytesRefineFrames(bs: seq<Connection>, steps: seq<ByteStep>, kind: Handshake.Kind, n: nat)
    returns (ws: seq<World>, wsteps: seq<Step>, at: seq<nat>)
    requires IsByteRun(bs, steps) && AlwaysFree(bs, steps, kind) && n <= |steps|
    ensures IsRun(ws, wsteps) && AlwaysFresh(ws, wsteps, kind)
    ensures Simulates(bs, steps, n, ws, wsteps, at)
  {
    hide Matches, Next, Enabled, ByteEnabled, ByteNext, IsFree, Makes, WireMatches, Inv;
    if n == 0 {
      ws, wsteps, at := [Initial(bs[0].c)], [], [0];
      StartMatches(bs[0]);
    } else {
      ws, wsteps, at := BytesRefineFrames(bs, steps, kind, n - 1);
      var w := ws[|ws| - 1];
      RunKeeps(ws, wsteps, kind, |ws| - 1);
      Parts(w, kind);
      var v, s := StepMatches(bs[n - 1], steps[n - 1], w);
      if s.Some? {
        SameFreedom(bs[n - 1], w, s.value, kind);
        ExtendRun(ws, wsteps, s.value, v, kind);
        ws, wsteps := ws + [v], wsteps + [s.value];
      }
      at := at + [|wsteps|];
    }
  }

  lemma StartMatches(b: Connection)
    requires Starts(b)
    ensures Matches(b, Initial(b.c))
  {
  }

  lemma SameFreedom(b: Connection, w: World, s: Step, kind: Handshake.Kind)
    requires Matches(b, w)
    ensures Fresh(w, s) <==> IsFree(b.c, s)
    ensures !IsLocal(s) ==> !Makes(s, kind)
  {
  }

  lemma ExtendRun(ws: seq<World>, steps: seq<Step>, s: Step, v: World, kind: Handshake.Kind)
    requires IsRun(ws, steps) && AlwaysFresh(ws, steps, kind)
    requires Enabled(ws[|ws| - 1], s) && v == Next(ws[|ws| - 1], s) && (Makes(s, kind) ==> Fresh(ws[|ws| - 1], s))
    ensures IsRun(ws + [v], steps + [s]) && AlwaysFresh(ws + [v], steps + [s], kind)
  {
    hide Next, Enabled, Fresh, Makes, Initial;
  }

  /** In every run over bytes, neither end ever sees a length error, and the client never a packet too
      short for what it reads of it. */
  lemma NothingIsMisread(bs: seq<Connection>, steps: seq<ByteStep>, kind: Handshake.Kind, k: nat)
    requires IsByteRun(bs, steps) && AlwaysFree(bs, steps, kind) && k < |steps|
    ensures steps[k].ClientReads? ==>
              bs[k].toClient.bytes != []
              && forall x :: x in Read(bs[k].toClient).1 ==> x.Received? && Readable(x.frame)
    ensures steps[k].BrokerReads? ==>
              bs[k].toBroker.bytes != [] && forall x :: x in Read(bs[k].toBroker).1 ==> x.Received?
  {
    hide IsRun, AlwaysFresh, Matches, Read, WireMatches, Inv, Readable, ByteNext, AlwaysFree;
    var ws, wsteps, at := BytesRefineFrames(bs, steps, kind, k);
    var w := ws[at[k]];
    RunKeeps(ws, wsteps, kind, at[k]);
    Parts(w, kind);
    if steps[k].ClientReads? {
      var v, s := ClientReadMatches(bs[k], steps[k].now, w);
    } else if steps[k].BrokerReads? {
      var v, s := BrokerReadMatches(bs[k], steps[k].code, w);
    }
  }

  /** tags names, for every report, the request it answers: of this kind no request twice, every one of
      them rightly, and what has not been reported since the connection was last lost is still held. */
  ghost predicate ReportsMatch(b: Connection, kind: Handshake.Kind, tags: seq<nat>) {
    && |tags| == |b.reports|
    && (forall k :: 0 <= k < |tags| ==> tags[k] < |b.history|)
    && (forall k :: 0 <= k < |tags| && Handshake.KindOf(b.history[tags[k]]) == kind ==>
          Answers(b.history[tags[k]], b.reports[k]))
    && (forall j, k :: 0 <= j < k < |tags| && Handshake.KindOf(b.history[tags[j]]) == kind ==> tags[j] != tags[k])
    && (forall t: nat :: b.since <= t < |b.history| && Handshake.KindOf(b.history[t]) == kind && t !in tags ==>
          Holds(b.history[t], b.c))
  }

  /** In every run over bytes, cut into whatever reads: each completion reported to the application is the
      only one of its request and names the right message or topic, and each request since the connection
      was last lost has been reported or is held in its table. */
  lemma ReportedOverBytes(bs: seq<Connection>, steps: seq<ByteStep>, kind: Handshake.Kind, n: nat)
    requires IsByteRun(bs, steps) && AlwaysFree(bs, steps, kind) && n <= |steps|
    ensures exists tags :: ReportsMatch(bs[n], kind, tags)
  {
    hide IsRun, AlwaysFresh, Matches, ByteEnabled, ByteNext, AlwaysFree, Inv, ReportsMatch;
    var ws, wsteps, at := BytesRefineFrames(bs, steps, kind, n);
    RunKeeps(ws, wsteps, kind, at[n]);
    var tags := TagsMatch(bs[n], ws[at[n]], kind);
  }

  lemma TagsMatch(b: Connection, w: World, kind: Handshake.Kind) returns (tags: seq<nat>)
    requires Matches(b, w) && Inv(w, kind)
    ensures ReportsMatch(b, kind, tags)
    ensures forall t: nat :: Answered(w, t) ==> t in tags
  {
    hide Carries, Queue, Expected, Unrelated, Answers, OnePacketEach, Pending, Answered, OwnersMatch, Holds;
    tags := seq(|w.answers|, k requires 0 <= k < |w.answers| => w.answers[k].tag.value);
    forall t: nat | Answered(w, t)
      ensures t in tags
    {
      AnsweredAt(w, t, tags);
    }
    forall t: nat | w.since <= t < |w.history| && Handshake.KindOf(w.history[t]) == kind && t !in tags
      ensures Holds(w.history[t], w.c)
    {
      PendingHolds(w, t);
    }
  }

  lemma AnsweredAt(w: World, t: nat, tags: seq<nat>)
    requires Answered(w, t) && AnswersTagged(w)
    requires |tags| == |w.answers| && forall k :: 0 <= k < |tags| ==> tags[k] == w.answers[k].tag.value
    ensures t in tags
  {
    var k :| 0 <= k < |w.answers| && w.answers[k].tag == Some(t);
    assert tags[k] == t;
  }

  /** Both streams have been read to the end, and neither parser is within a packet. */
  predicate Quiet(b: Connection) {
    && b.toBroker.bytes == [] && b.toBroker.reader.readState == Header
    && b.toClient.bytes == [] && b.toClient.reader.readState == Header
  }

  /** A request made at step j on a socket that was open and not closing, in a packet that fits: once the
      streams are quiet, and if the connection has neither been lost since nor is being closed, it has
      been reported. */
  lemma QuietMeansReported(bs: seq<Connection>, steps: seq<ByteStep>, kind: Handshake.Kind, j: nat, n: nat)
    requires IsByteRun(bs, steps) && AlwaysFree(bs, steps, kind) && j < n <= |steps|
    requires steps[j].Local? && Makes(steps[j].s, kind) && bs[j].up && !bs[j].closing
    ensures var t := |bs[j].history|;
            t < |bs[j + 1].history|
            && (|FirstPacket(bs[j + 1].history[t]).data| <= MAX_REMAINING_LENGTH && bs[n].since <= t
                && Quiet(bs[n]) && bs[n].up && !bs[n].closing ==>
                exists tags :: ReportsMatch(bs[n], kind, tags) && t in tags)
  {
    hide IsRun, AlwaysFresh, ByteEnabled, ByteNext, AlwaysFree, Inv, ReportsMatch, FirstPacket;
    hide Carries, Queue, Makes, Answered, Pending, OnTheWay;
    var ws, wsteps, at := BytesRefineFrames(bs, steps, kind, n);
    NothingStalls(ws, wsteps, kind, at[j], at[n]);
    RunKeeps(ws, wsteps, kind, at[n]);
    var tags := TagsMatch(bs[n], ws[at[n]], kind);
    if Quiet(bs[n]) && bs[n].up {
      Parts(ws[at[n]], kind);
      QuietWire(bs[n], ws[at[n]]);
    }
  }

  lemma QuietWire(b: Connection, w: World)
    requires Matches(b, w) && WireMatches(w) && Quiet(b) && b.up
    ensures w.wire == map[]
  {
    hide Carries, Expected, Unrelated;
    DrainedIsEmpty(b.toBroker, Queue(w.wire, true, w.next));
    DrainedIsEmpty(b.toClient, Queue(w.wire, false, w.next));
    QueueEmpty(w.wire, w.next);
    if i :| i in w.wire {
      assert false;
    }
  }
}
