# qmqtt, verified in Dafny

A Dafny 4.11 model of the parts of qmqtt where something can go wrong: the MQTT 3.1.1 wire codec, the
client session with its packet identifiers, handshakes and timers, the reconnecting manager of the demo
application, and two graph algorithms of the Google Mock copy in the tree. `dafny verify dfyconfig.toml`
checks everything.

| file | what it holds |
|---|---|
| Bits.dfy | bytes, 16-bit words, and the bit operators of C++ on naturals |
| Frames.dfy | header macros, typed fields, remaining length, the `Frame` class |
| Network.dfy | the byte-at-a-time parser as a class, and as a step function |
| StreamDecoding.dfy | what a byte stream means without a parser; round trip, refinement, conservation |
| Packets.dfy, Connect.dfy | the packets of the client; PUBLISH end to end; a CONNECT decoder after section 3.1 |
| Client.dfy | `ClientPrivate` as a class, each method proved against a function of its state |
| Handshake.dfy | client, network and a conforming broker as a state machine, and its invariant |
| Session.dfy | the same client and broker over byte streams; every run of theirs is a run over frames |
| KeepAlive.dfy | the client's two timers against a clock |
| ReconnectPolicy.dfy, ClientMgr.dfy | backoff and the manager, as classes and over whole runs |
| MatchMatrix.dfy, Matching.dfy, BipartiteMatching.dfy, UnorderedElements.dfy | maximum bipartite matching and what `UnorderedElementsAre` makes of it |
| Expectations.dfy | prerequisites, retirement and sequences of mock expectations |

How it is put together:

- Code that changes state step by step is a class whose methods name the whole new state; the theorems
  about runs are about the functions the methods are proved to compute. The handshake and the timers are
  runs of the same client functions.
- In Handshake.dfy any packet on the way may be the next one delivered, in either direction. First-in
  first-out channels, which is what TCP gives, are a special case, and Session.dfy reduces byte streams
  to it. Numbers attached to packets record which request they belong to; no end of the connection looks
  at them.
- Bytes, identifiers and sizes have their C++ widths. Identifiers wrap at 2^16, header and flag bytes are
  truncated to 8 bits, and `Message` keeps its QoS in two bits, so a message has QoS 0 to 3.
- `std::size_t` is 64 bits, and `kUnused` is its largest value.

Where the code does not do what one might expect:

- Identifiers: the session theorems about publishes assume that a new publish's identifier is not in use
  by another, those about (un)subscribe requests the same of theirs; neither depends on the other.
  `Handshake.UnfreshBreaks` shows that the assumption is needed at every step, `Handshake.ReuseMixesUp`
  what goes wrong, `Handshake.TopicTableIsExact` and `Handshake.CarefulRunsAreFresh` when it needs no
  assuming.
- Keep alive: when CONNACK arrives after the keep-alive timer of CONNECT has run out, the client is
  connected with no timer running and may stay silent for any time
  (`KeepAlive.LateConnackLosesKeepAlive`). `KeepAlive.KeepsAliveIff` and `KeepAlive.ConnackDecides` say
  exactly when the keep alive is kept.
- A comment at src/mqtt/qmqtt_client_p.cpp:573-574 gives the ping response interval as 10 % of the keep
  alive. The code does that from 100 s on; below it is 10 s, or the keep alive if that is shorter
  (`KeepAlive.ResponseIntervalIsTenthIff`).
- Closing: between disconnectFromHost, or a socket error, and the end of the connection the client still
  receives packets but its own are dropped, so a handshake may stop half way (`Handshake.ClosingStalls`).
  `Handshake.OnTheWayIff` says exactly when.
- CONNECT: a will QoS above 2 is not rejected and does not arrive (`Connect.ConnectDecodesIff`).
- The quick check before the matching may reject a matrix that has a pairing, exactly when there are more
  elements than matchers (`UnorderedElements.QuickCheckSoundIff`); its caller only asks about square ones.

## Model

| member | source | states |
|---|---|---|
| BipartiteMatching.FindMaxBipartiteMatching | tests/gtest/gtest/googletest/googlemock/src/gmock-matchers.cc:307-310 | for every graph the result is a matching without repetition, in ascending order of elements, and no matching of the graph has more edges |
| BipartiteMatching.MaxBipartiteMatchState.Compute | tests/gtest/gtest/googletest/googlemock/src/gmock-matchers.cc:207-238 | left and right end as mutual references; the pairs are a maximum matching; no element without flow has an augmenting path left |
| BipartiteMatching.MaxBipartiteMatchState.TryAugment | tests/gtest/gtest/googletest/googlemock/src/gmock-matchers.cc:259-285 | on failure nothing but the seen marks changed, every node newly marked is a dead end, and all neighbours of the start have been seen; on success there was an augmenting path, the start is the one element that went from unused to used, no matcher lost its flow, nodes marked before are untouched, left and right agree except for the entry the start left behind, and every closed pair of node sets survives |
| BipartiteMatching.LinkToRerouted | tests/gtest/gtest/googletest/googlemock/src/gmock-matchers.cc:277-282 | linking the start to a matcher whose element has just been re-routed repairs the stale reference the recursion left |
| BipartiteMatching.FailureIsClosed | tests/gtest/gtest/googletest/googlemock/src/gmock-matchers.cc:208-221 | after a failed search the elements gone through and the matchers marked form a closed pair, and there is no augmenting path from the start |
| BipartiteMatching.OnceIsEnough | tests/gtest/gtest/googletest/googlemock/src/gmock-matchers.cc:212-221 | an element that failed once has no augmenting path after any later run of augmentations, and none of them starts from it |
| Matching.ClosedBlocksPaths | tests/gtest/gtest/googletest/googlemock/src/gmock-matchers.cc:208-221 | no alternating path from inside a closed pair reaches a free matcher |
| Matching.ClosedBoundsMatchings | tests/gtest/gtest/googletest/googlemock/src/gmock-matchers.cc:136-197 | if all unused elements lie in a closed pair, no matching has more edges than there are used elements |
| UnorderedElements.FindPairing | tests/gtest/gtest/googletest/googlemock/src/gmock-matchers.cc:328-357 | true exactly when every matcher can be given its own matching element |
| UnorderedElements.VerifyAllElementsAndMatchersAreMatched | tests/gtest/gtest/googletest/googlemock/src/gmock-matchers.cc:443-495 | true exactly when every element matches some matcher and every matcher some element |
| UnorderedElements.QuickCheckIsSound | tests/gtest/gtest/googletest/googlemock/src/gmock-matchers.cc:438-442 | whatever the quick check rejects has no pairing, if there are no more elements than matchers, so in particular on square matrices |
| UnorderedElements.QuickCheckSoundIff | tests/gtest/gtest/googletest/googlemock/src/gmock-matchers.cc:438-495 | the quick check never changes the verdict on the matrices of given sizes exactly when there are no more elements than matchers |
| UnorderedElements.MatchAndExplain | tests/gtest/gtest/googletest/googlemock/include/gmock/gmock-matchers.h:3376-3403 | accepts exactly when the sizes agree and some permutation of the elements satisfies all matchers |
| MatchMatrices.MatchMatrix.NextGraph | tests/gtest/gtest/googletest/googlemock/src/gmock-matchers.cc:359-371 | adds 1 to the matrix read as a binary number over its cells; false exactly on wrapping round to the empty graph |
| MatchMatrices.ForAllGraphs | tests/gtest/gtest/googletest/googlemock/test/gmock-matchers_test.cc:5098-5120 | the do-while over NextGraph on a new matrix makes 2^(rows*cols) passes and goes through an enumeration |
| MatchMatrices.EnumerationIsExhaustive | tests/gtest/gtest/googletest/googlemock/include/gmock/gmock-matchers.h:3253-3277 | and such an enumeration sees each of the 2^(rows*cols) graphs in exactly one pass |
| Expectations.ExpectationBase.RetireAllPreRequisites | tests/gtest/gtest/googletest/googlemock/src/gmock-spec-builders.cc:95-111 | retires exactly the transitive prerequisites, with or without the early return, and no expectation is retired before its prerequisites |
| Expectations.RetiredReach | tests/gtest/gtest/googletest/googlemock/src/gmock-spec-builders.cc:97-101 | everything a retired expectation requires is retired, which is what the short-cut relies on |
| Expectations.ExpectationBase.AllPrerequisitesAreSatisfied | tests/gtest/gtest/googletest/googlemock/src/gmock-spec-builders.cc:115-125 | true exactly when every transitive prerequisite has been called at least its minimum and at most its maximum number of times |
| Expectations.ExpectationBase.FindUnsatisfiedPrerequisites | tests/gtest/gtest/googletest/googlemock/src/gmock-spec-builders.cc:128-146 | adds exactly the unsatisfied expectations reached through satisfied ones that have not been called; all of them are transitive prerequisites, and at least one is in the result if any prerequisite is unsatisfied |
| Expectations.UnmetIff | tests/gtest/gtest/googletest/googlemock/src/gmock-spec-builders.cc:131-136 | between calls, something is unmet in that sense exactly if not every transitive prerequisite is satisfied |
| Expectations.ExpectationBase.GetActionForArguments | tests/gtest/gtest/googletest/googlemock/include/gmock/gmock-spec-builders.h:1188-1218 | counts the call, calls it excessive exactly if the maximum had been reached, retires exactly what it should, and keeps the order of calls intact |
| Expectations.CalledIsSettled | tests/gtest/gtest/googletest/googlemock/src/gmock-spec-builders.cc:134-137 | what an expectation that has been called within its bounds requires has been called within its own and takes no more calls |
| Expectations.Sequence.AddExpectation | tests/gtest/gtest/googletest/googlemock/src/gmock-spec-builders.cc:794-802 | links the expectation behind the last one; the closure invariant survives unless the link leads from a retired expectation to one that is not |
| Expectations.SequenceIsTotal | tests/gtest/gtest/googletest/googlemock/src/gmock-spec-builders.cc:793-802 | every member of a sequence transitively requires all members before it |
| Expectations.SequenceOrder | tests/gtest/gtest/googletest/googlemock/src/gmock-spec-builders.cc:793-802 | once a later member has been called within its bounds every earlier one is retired and has been called within its own |
| Frames.FieldsRoundTrip | src/mqtt/qmqtt_frame.cpp:94-160 | any sequence of field writes followed by the matching reads returns the fields, over-long byte arrays cut to 65535 bytes, and leaves what was behind them |
| StreamDecoding.FeedItem | src/mqtt/qmqtt_network.cpp:227-265 | from state Header a complete packet emits itself, five bytes with an overlong length emit one error, and the parser is back in state Header |
| StreamDecoding.ParserReadsItems | src/mqtt/qmqtt_network.cpp:222-266 | on packets and overlong headers in any order, followed by an incomplete rest, exactly one signal each, in order, and nothing for the rest |
| StreamDecoding.DecodeSplits | src/mqtt/qmqtt_network.cpp:227-265 | every byte stream is such a list of items and an incomplete rest |
| StreamDecoding.SplitIsUnique | src/mqtt/qmqtt_network.cpp:227-265 | and in only one way |
| StreamDecoding.ParserRefinesDecoder | src/mqtt/qmqtt_network.cpp:222-266 | on arbitrary bytes the incremental parser emits what the recursive whole-buffer decoder finds |
| StreamDecoding.BytesAreConserved | src/mqtt/qmqtt_network.cpp:227-265 | bytes fed = bytes of emitted packets + 5 per length error + pending bytes |
| StreamDecoding.ChunkingIsInvisible | src/mqtt/qmqtt_network.cpp:224-227 | how the stream is cut into reads makes no difference |
| StreamDecoding.RoundTrip | src/mqtt/qmqtt_network.cpp:222-273 | any list of frames written one after the other and read back in any pieces arrives complete, in order, but for frames too long to be sent, and the parser ends in state Header |
| StreamDecoding.ResetForgets | src/mqtt/qmqtt_network.cpp:268-273 | after onConnected nothing left by an earlier connection affects what is emitted |
| StreamDecoding.Reencoding | src/mqtt/qmqtt_frame.cpp:193-207 | writing a received packet again never takes more bytes than it took, and gives the same bytes exactly when its length field was minimal |
| Packets.PublishParses | src/mqtt/qmqtt_client_p.cpp:407-416 | the PUBLISH branch reads back topic, payload, QoS, RETAIN, DUP and identifier of what sendPublish wrote |
| Packets.PublishEndToEnd | src/mqtt/qmqtt_client_p.cpp:248-268 | sendPublish, the wire in any pieces, and the PUBLISH branch give the message back, with the identifier when QoS > 0 and 0 otherwise |
| Packets.RequestsReadBack | src/mqtt/qmqtt_client_p.cpp:277-296 | SUBSCRIBE and UNSUBSCRIBE carry the required headers and read back as identifier, topic and QoS |
| Connect.ConnectDecodesIff | src/mqtt/qmqtt_client_p.cpp:195-246 | a decoder after section 3.1 of MQTT 3.1.1 recovers every setting exactly when there is no will or its QoS is 0, 1 or 2 |
| Connect.WillQosArrives | src/mqtt/qmqtt_frame.h:88 | for any will QoS byte the two low bits are what arrives |
| Connect.KeepAliveDecodes | src/mqtt/qmqtt_client_p.cpp:228 | whatever its other settings, a CONNECT that is accepted says the keep alive it was built with |
| Client.DeliveryAnswered | src/mqtt/qmqtt_client_p.cpp:474-487 | a delivered PUBLISH reaches the application as sent and gets exactly the one answer its QoS asks for, under its identifier |
| Client.ReleaseAnswered | src/mqtt/qmqtt_client_p.cpp:498-500 | PUBREL is answered by PUBCOMP under its identifier |
| Client.ConnackArrives | src/mqtt/qmqtt_client_p.cpp:443-472 | CONNACK connects at return code 0 only and reports each refusal of section 3.2.2.3 of MQTT 3.1.1, or an unknown error for reserved codes, without changing anything |
| Client.TopicAckArrives | src/mqtt/qmqtt_client_p.cpp:424-434 | SUBACK reports the topic kept under its identifier and the QoS granted, UNSUBACK the topic |
| Client.DrawnMidIs | src/mqtt/qmqtt_client_p.cpp:339-347 | the k-th identifier is (k mod 65535) + 1 |
| Client.MidsRepeat | src/mqtt/qmqtt_client_p.cpp:339-347 | two draws coincide exactly when a multiple of 65535 draws lies between them |
| Handshake.NextKeeps | src/mqtt/qmqtt_client_p.cpp:349-507 | the session invariant for one kind of requests, publishes or (un)subscribes, survives every step of client, broker and network, provided that a step making a request of that kind chooses an identifier not in use in its table |
| Handshake.UnfreshBreaks | src/mqtt/qmqtt_client_p.cpp:349-378 | and no step that chooses one in use keeps it |
| Handshake.OnePacketPerIdentifier | src/mqtt/qmqtt_client_p.cpp:349-361 | in every run whose publish identifiers are not outstanding when chosen: no two of the PUBLISH, PUBREL, PUBACK, PUBREC and PUBCOMP packets on the way for QoS 1 and 2 publishes carry the same identifier, and while one is on the way the client holds the message of the publish it belongs to |
| Handshake.ReportedExactlyOnce | src/mqtt/qmqtt_client_p.cpp:349-358 | in every run whose identifiers for one kind of requests are not in use when chosen: each such request since the last loss of the connection, QoS 0 included, is pending or has been reported, not both; every report belongs to one request, is right, and is its only one |
| Handshake.ReportsComeFrom | src/mqtt/qmqtt_client_p.cpp:354-358 | in every run a publish at QoS 0 is reported in its own step with its own message and identifier, a publish above QoS 0 is not, and otherwise only receiving a packet reports a completion, at most one |
| Handshake.InstantArrives | src/mqtt/qmqtt_client_p.cpp:248-268 | what a publish at QoS 0 puts on an open socket reads back as the message published |
| Handshake.TablesHoldThePending | src/mqtt/qmqtt_client_p.cpp:368-389 | each hash holds exactly the pending requests of its kind under their identifiers |
| Handshake.FinalAckReports | src/mqtt/qmqtt_client_p.cpp:417-434 | PUBACK, PUBCOMP, SUBACK or UNSUBACK makes the client report exactly the request it ends, once, SUBACK with the QoS granted |
| Handshake.OnTheWayIff | src/mqtt/qmqtt_network.cpp:182-189 | for every request in every run: while it is pending, exactly one packet of its handshake is on the way if and only if the socket took the first one and the client received none of the following while closing |
| Handshake.NothingStalls | src/mqtt/qmqtt_network.cpp:182-194 | a request whose first packet the socket took (open, not closing, fits): whatever is on the way belongs to a pending request; while it is pending its packet is on the way unless the socket is closing; once nothing is on the way, and the socket is neither closing nor has been lost since, it has been reported |
| Handshake.ClosingStalls | src/mqtt/qmqtt_client_p.cpp:314-319 | the run in which that condition fails: PUBREC received between disconnectFromHost and the end of the connection; PUBREL is dropped, the message stays in its table, and nothing is on the way |
| Handshake.BrokerFollowsUp | src/mqtt/qmqtt_client_p.cpp:489-507 | a broker following sections 4.3.2 and 4.3.3 of MQTT 3.1.1 answers every packet of a handshake, with the packet the client expects next |
| Handshake.DrawnIsFreshIff | src/mqtt/qmqtt_client_p.cpp:339-347 | a drawn identifier is in use exactly when a request of the same kind is pending that drew its own a multiple of 65535 draws ago, or brought the same one along |
| Handshake.TopicTableIsExact | src/mqtt/qmqtt_client_p.cpp:368-389 | whatever is published under whatever identifiers: if fewer than 65535 are drawn while a (un)subscribe request is pending, the topic table holds exactly the unacknowledged requests since the last loss of the connection, and each SUBACK and UNSUBACK reports the topic of its own request |
| Handshake.CarefulRunsAreFresh | src/mqtt/qmqtt_client_p.cpp:339-378 | if fewer than 65535 identifiers are drawn while a request of one kind is pending, and identifiers the application brings along for that kind do not collide, none is ever reused for it |
| Handshake.ReuseMixesUp | src/mqtt/qmqtt_client_p.cpp:357-358 | two QoS 1 publishes under one identifier: the first acknowledgement reports the second message, the second an empty one |
| Session.BytesRefineFrames | src/mqtt/qmqtt_network.cpp:182-273 | client and broker over two byte streams read a byte at a time: every run is a run over frames that goes through the same moments, with the same client, requests and reports, and reuses no identifier if the byte run does not |
| Session.ReadCarried | src/mqtt/qmqtt_network.cpp:224-265 | a byte read from a stream of printed frames brings nothing to light, or exactly the first frame not yet received |
| Session.NothingIsMisread | src/mqtt/qmqtt_client_p.cpp:391-441 | in such a run neither end sees a length error, and the client never a packet too short for what it reads of it |
| Session.ReportedOverBytes | src/mqtt/qmqtt_client_p.cpp:417-434 | in such a run every completion reported is the only one of its request and names the right message or topic, and every request since the last loss of the connection has been reported or is held in its table |
| Session.QuietMeansReported | src/mqtt/qmqtt_client_p.cpp:489-507 | a request made on an open socket in a packet that fits has been reported once both streams are read to the end, unless the socket is closing or has been lost since |
| KeepAlive.GapsAreBounded | src/mqtt/qmqtt_client_p.cpp:327-331 | while connected with the keep-alive timer running, no gap between frames exceeds the keep alive (section 3.1.2.10 of MQTT 3.1.1) |
| KeepAlive.KeepsAliveIff | src/mqtt/qmqtt_client_p.cpp:298-305 | at a connected moment of a run from a new client, the keep-alive timer runs exactly if in every continuation that stays connected the client is never silent for more than the keep alive |
| KeepAlive.ConnackDecides | src/mqtt/qmqtt_client_p.cpp:443-452 | so after an accepting CONNACK the keep alive is kept exactly if it arrived while the timer ran |
| KeepAlive.AnnouncedIsKept | src/mqtt/qmqtt_client_p.cpp:228 | the CONNECT of a new client with a keep alive of k seconds announces k to any decoder that accepts it, and starts the timer at k seconds |
| KeepAlive.UncoveredIsSilent | src/mqtt/qmqtt_client_p.cpp:298-305 | above 10 s, in every run a stopped keep-alive timer means that no timer runs, and any time may pass without a frame |
| KeepAlive.LateConnackLosesKeepAlive | src/mqtt/qmqtt_client_p.cpp:298-302 | a run in which CONNACK comes one keep alive after CONNECT ends connected with no timer running |
| KeepAlive.PingOnlyWhenConnected | src/mqtt/qmqtt_client_p.cpp:298-305 | PINGREQ is sent by the keep-alive timer only, and only while connected |
| KeepAlive.StateIsLastDecided | src/mqtt/qmqtt_client_p.cpp:380-389 | at every moment of every run the connection state is the one the last deciding event was for: connected exactly if CONNACK with code 0 has arrived, and no connectToHost, disconnectFromHost, missing ping response or loss of the network since |
| KeepAlive.SignalsComeFrom | src/mqtt/qmqtt_client_p.cpp:298-507 | each signal to the application and each request to the socket, by exactly the events it comes from, at most one signal an event |
| KeepAlive.FramesComeFrom | src/mqtt/qmqtt_client_p.cpp:195-305 | each frame handed to the network, by exactly the event it comes from |
| KeepAlive.ResponseIntervalShorter | src/mqtt/qmqtt_client_p.cpp:569-576 | the response interval is below the keep alive exactly above 10 s |
| KeepAlive.ResponseIntervalIsTenthIff | src/mqtt/qmqtt_client_p.cpp:573-575 | it is a tenth of the keep alive, as the comment there has it, exactly for 0 and from 100 s on; below it is 10 s, or the keep alive if that is shorter |
| KeepAlive.NeverRestarted | src/mqtt/qmqtt_client_p.cpp:304 | above 10 s the response timer is never started while it runs |
| KeepAlive.TimeoutIsPunctual | src/mqtt/qmqtt_client_p.cpp:307-312 | it fires exactly its interval after the last PINGREQ |
| KeepAlive.UnansweredPingTimesOut | src/mqtt/qmqtt_client_p.cpp:307-319 | above 10 s a PINGREQ followed by neither PINGRESP nor the end of the connection is given up exactly the interval later: error, DISCONNECT, socket closed |
| ReconnectPolicy.DelayIsCappedDoubling | qt-demo/mqttreconnectpolicy.cpp:18-33 | n advances after a reset: min(5000 * 2^n, 60000) ms |
| ClientMgr.RunKeeps | qt-demo/mqttclientmgr.cpp:321-342 | in every run a running reconnect timer implies a client that is not connected, no manual disconnect, and reconnection allowed |
| ClientMgr.DueTimerReconnects | qt-demo/mqttclientmgr.cpp:335-342 | so a due timer always attempts a connection |
| ClientMgr.SchedulesIff | qt-demo/mqttclientmgr.cpp:321-333 | in every run a reconnection is scheduled exactly when the client reports a disconnection, the last event that opened a connection or halted opened one, and no timer started before is still running |
| ClientMgr.FlagsFollowEvents | qt-demo/mqttclientmgr.cpp:251-270 | whether reconnection is allowed and whether the timer runs, by the events and outputs so far |
| ClientMgr.ClientFollowsEvents | qt-demo/mqttclientmgr.cpp:128-131 | there is a client exactly after an accepted connectToHost, and it is connected exactly if it has said so and nothing has ended or replaced the connection since |
| ClientMgr.OutputsComeFrom | qt-demo/mqttclientmgr.cpp:32-126 | in every run, exactly which events make the client connect, disconnect, subscribe, unsubscribe and publish, and which emit each of the signals of the manager |
| ClientMgr.NoReconnectAfterHalt | qt-demo/mqttclientmgr.cpp:84-93 | after a manual disconnect or a permanent error nothing is scheduled or attempted until an accepted connectToHost |
| ClientMgr.BackoffDelays | qt-demo/mqttclientmgr.cpp:329-332 | the n-th reconnection scheduled since the last reset waits min(5000 * 2^n, 60000) ms |
| ClientMgr.SubscriptionsAreLastWrites | qt-demo/mqttclientmgr.cpp:67-72 | a topic is registered at a QoS exactly when the last accepted request about it, the automatic one of connectToHost included, asked for that |
| ClientMgr.ConnectedReplays | qt-demo/mqttclientmgr.cpp:242-249 | each connected event subscribes again to exactly those topics, once each |
| BipartiteMatching.MaxBipartiteMatchState.constructor | tests/gtest/gtest/googletest/googlemock/src/gmock-matchers.cc:200-204 | every entry of left and right starts unused |
| BipartiteMatching.PairsOfFirst | tests/gtest/gtest/googletest/googlemock/src/gmock-matchers.cc:231-236 | the collected pairs are exactly the used entries of left, once each |
| MatchMatrices.MatchMatrix.SetEdge | tests/gtest/gtest/googletest/googlemock/include/gmock/gmock-matchers.h:3270-3272 | adds or removes exactly the edge of that cell |
| Expectations.ExpectationBase.ShouldHandleArguments | tests/gtest/gtest/googletest/googlemock/include/gmock/gmock-spec-builders.h:1092-1102 | true exactly when the expectation is not retired and all it requires has been called within its bounds |
| Frames.HeaderFields | src/mqtt/qmqtt_frame.h:66-78 | the getters cut a header byte into type, DUP, QoS and RETAIN |
| Frames.PacketTypes | src/mqtt/qmqtt_frame.h:48-61 | the packet types are those of table 2.1 of MQTT 3.1.1 |
| Frames.PublishHeaderValue | src/mqtt/qmqtt_frame.h:72-78 | the setters put the fields of a PUBLISH header side by side |
| Frames.IntRoundTrip | src/mqtt/qmqtt_frame.cpp:101-107 | the two bytes of an integer, most significant first, read back as the integer |
| Frames.Frame.ReadChar | src/mqtt/qmqtt_frame.cpp:94-99 | takes the first byte off |
| Frames.Frame.ReadInt | src/mqtt/qmqtt_frame.cpp:101-107 | takes a big-endian integer off |
| Frames.Frame.ReadByteArray | src/mqtt/qmqtt_frame.cpp:109-123 | takes a length and as many of that many bytes as there are off |
| Frames.Frame.WriteInt | src/mqtt/qmqtt_frame.cpp:125-129 | appends the integer |
| Frames.Frame.WriteByteArray | src/mqtt/qmqtt_frame.cpp:131-155 | appends the length and the bytes, cut to 65535 |
| Frames.Frame.Write | src/mqtt/qmqtt_frame.cpp:167-191 | appends header, remaining length and data, or nothing when the length does not fit four bytes |
| Frames.EncodeLength | src/mqtt/qmqtt_frame.cpp:193-207 | produces the base-128 digits and reports whether there are at most four |
| Frames.VarintLength | src/mqtt/qmqtt_frame.cpp:206 | at most four bytes exactly up to 268 435 455 |
| Network.Network.OnSocketReadReady | src/mqtt/qmqtt_network.cpp:222-266 | the byte loop computes the fold of the parser step over the bytes, signals in order |
| Network.Network.OnByte | src/mqtt/qmqtt_network.cpp:228-264 | one round of the switch over the read state |
| Network.Network.OnConnected | src/mqtt/qmqtt_network.cpp:268-273 | puts the parser in state Header |
| Network.LengthByte | src/mqtt/qmqtt_network.cpp:237-239 | or-ing a length byte in is adding its digit, and the value stays below 2^28 |
| Connect.ConnectFlagsValue | src/mqtt/qmqtt_frame.h:86-91 | the flag byte is the sum of its fields |
| Client.ClientPrivate.constructor | src/mqtt/qmqtt_client_p.cpp:52-68 | first identifier 1, empty tables, keep alive of 300 s |
| Client.ClientPrivate.SetKeepAlive | src/mqtt/qmqtt_client_p.cpp:569-581 | the two timer intervals, a running timer starting over; keepAlive reads the value back |
| Client.ClientPrivate.NextMid | src/mqtt/qmqtt_client_p.cpp:339-347 | returns the counter and advances it, skipping 0 |
| Client.ClientPrivate.SendConnect | src/mqtt/qmqtt_client_p.cpp:195-246 | hands over the CONNECT of the configuration and restarts the keep-alive timer |
| Client.ClientPrivate.OnNetworkConnected | src/mqtt/qmqtt_client_p.cpp:190-193 | hands over CONNECT; what it announces is what the timer is set to |
| Client.ClientPrivate.SendPublish | src/mqtt/qmqtt_client_p.cpp:248-268 | hands over the PUBLISH under the message's identifier, or a drawn one if that is 0 and QoS > 0 |
| Client.ClientPrivate.Publish | src/mqtt/qmqtt_client_p.cpp:349-361 | reports at QoS 0, keeps the message under its identifier above |
| Client.ClientPrivate.Subscribe | src/mqtt/qmqtt_client_p.cpp:368-372 | hands over SUBSCRIBE and keeps the topic under a drawn identifier |
| Client.ClientPrivate.Unsubscribe | src/mqtt/qmqtt_client_p.cpp:374-378 | the same for UNSUBSCRIBE |
| Client.ClientPrivate.OnNetworkReceived | src/mqtt/qmqtt_client_p.cpp:391-441 | the reaction to every packet type |
| Client.ClientPrivate.HandlePuback | src/mqtt/qmqtt_client_p.cpp:489-507 | PUBREC is answered by PUBREL, PUBREL by PUBCOMP; PUBACK and PUBCOMP take the message out and report it |
| Client.ClientPrivate.HandlePublish | src/mqtt/qmqtt_client_p.cpp:474-487 | PUBACK at QoS 1, PUBREC at QoS 2, then the message is reported |
| Client.ClientPrivate.HandleConnack | src/mqtt/qmqtt_client_p.cpp:443-472 | code 0 connects, every other code is an error |
| Client.ClientPrivate.OnTimerPingReq | src/mqtt/qmqtt_client_p.cpp:298-305 | pings and starts the response timer only while connected |
| Client.ClientPrivate.OnPingTimeout | src/mqtt/qmqtt_client_p.cpp:307-312 | reports the missing response and disconnects |
| Client.ClientPrivate.DisconnectFromHost | src/mqtt/qmqtt_client_p.cpp:314-325 | disconnected, DISCONNECT handed over, socket closed |
| Client.ClientPrivate.OnNetworkDisconnected | src/mqtt/qmqtt_client_p.cpp:380-389 | stops both timers and empties both tables |
| ReconnectPolicy.MqttReconnectPolicy.Advance | qt-demo/mqttreconnectpolicy.cpp:18-28 | doubles up to the maximum |
| ClientMgr.MqttClientMgr.ConnectToHost | qt-demo/mqttclientmgr.cpp:32-82 | rejects without effect, or resets everything and connects a new client |
| ClientMgr.MqttClientMgr.DisconnectFromHost | qt-demo/mqttclientmgr.cpp:84-93 | manual, no reconnection allowed, timer stopped |
| ClientMgr.MqttClientMgr.Subscribe | qt-demo/mqttclientmgr.cpp:95-104 | accepted only while connected, with a topic and QoS at most 2 |
| ClientMgr.MqttClientMgr.Unsubscribe | qt-demo/mqttclientmgr.cpp:106-115 | accepted only while connected, with a topic |
| ClientMgr.MqttClientMgr.Publish | qt-demo/mqttclientmgr.cpp:117-126 | accepted only while connected, with a topic and QoS at most 2 |
| ClientMgr.MqttClientMgr.RestoreSubscriptions | qt-demo/mqttclientmgr.cpp:300-311 | subscribes once to every registered topic at its QoS, if connected |
| ClientMgr.MqttClientMgr.OnConnected | qt-demo/mqttclientmgr.cpp:242-249 | stops the timer, resets the backoff, restores the subscriptions |
| ClientMgr.MqttClientMgr.OnDisconnected | qt-demo/mqttclientmgr.cpp:251-256 | reports and schedules |
| ClientMgr.MqttClientMgr.OnError | qt-demo/mqttclientmgr.cpp:258-270 | a permanent error stops reconnection and disconnects; after a missing ping response the client is disconnected too |
| ClientMgr.MqttClientMgr.ScheduleReconnect | qt-demo/mqttclientmgr.cpp:321-333 | starts the timer with the current delay and advances it, unless one of four reasons forbids |
| ClientMgr.MqttClientMgr.SlotReconnect | qt-demo/mqttclientmgr.cpp:335-342 | connects again if nothing forbids it |

## Left out

- Packets.PublishEndToEnd: topics above 65535 bytes are cut on writing, so it covers topics up to that length; Packets.PublishParses says what arrives otherwise.
- Handshake.NextKeeps: publishes above QoS 2 are outside the steps; the client sends them, but no broker may answer them.
- KeepAlive.UnansweredPingTimesOut: for a keep alive of 10 s or less both timers are due at once and their order is open; a keep alive of 0 makes the keep-alive timer fire without end.
- Sockets, SSL, web sockets, QDataStream: the wire is a byte sequence cut into arbitrary pieces, connection and loss are events, and a socket is down, up, or up and closing; stream write errors are not modelled.
- The reconnect timer inside Network (off in the manager), setters of the configuration, and changing the keep alive during a connection.
- UTF-8: texts are their bytes, so a text cut at 65535 bytes may end within a character.
- Reading fields off a packet that is too short for them: the source asserts there, the model requires the bytes.
- Receiving side: a repeated PUBLISH is reported again, as in the source; no exactly-once delivery to the application is claimed.
- Negative lengths given to encodeLength, and a matrix with more than 2^64 - 1 cells: no caller produces them.
- Signal handlers of the application that call back into the client, the parser or the manager while a signal is being emitted.
- The order in which RestoreSubscriptions goes through the topics (ascending in the source), and the iteration order over prerequisites (any order here).
- trimmed(), QUrl and certificate loading: the manager's parameters come in trimmed, the other two as booleans.
- Cardinalities other than Between, the actions, matchers and messages of mock calls, and the After clause, which adds prerequisites as Sequence does.
- Expectations.Sequence.AddExpectation: linking an older expectation behind a newer one could close a cycle, on which the recursions would not end; the requirement that links lead from newer to older excludes it.
- RouteSubscription and Router rest on QRegularExpression, which is not part of this model.
- Liveness of reconnection: which socket signals follow a failed attempt is decided by Qt.
