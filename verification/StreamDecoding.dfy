/** A byte stream as a list of packets, and the theorems that the parser and the printer of frames
    agree with it. */
module StreamDecoding {
  import opened Bits
  import opened Frames
  import opened Wrappers
  import opened Network

  // ---------------------------------------------------------------------------
  // What a stream means, without a parser

  /** The value of a length field. */
  function LengthOf(field: seq<byte>): nat {
    if field == [] then 0 else field[0] % 128 + 128 * LengthOf(field[1..])
  }

  predicate IsLengthField(field: seq<byte>) {
    && 1 <= |field| <= 4
    && field[|field| - 1] < 128
    && forall i :: 0 <= i < |field| - 1 ==> field[i] >= 128
  }

  predicate AllContinue(field: seq<byte>) {
    forall i :: 0 <= i < |field| ==> field[i] >= 128
  }

  /** A stretch of the stream: a packet, or a header whose length field does not end in time. */
  datatype Item = Packet(header: byte, field: seq<byte>, payload: seq<byte>)
                | Overlong(header: byte, field: seq<byte>)

  predicate WellFormed(item: Item) {
    match item
    case Packet(_, field, payload) => IsLengthField(field) && |payload| == LengthOf(field)
    case Overlong(_, field) => |field| == 4 && AllContinue(field)
  }

  function Raw(item: Item): seq<byte> {
    match item
    case Packet(header, field, payload) => [header] + field + payload
    case Overlong(header, field) => [header] + field
  }

  function SignalOf(item: Item): NetSignal {
    match item
    case Packet(header, _, payload) => Received(RawFrame(header, payload))
    case Overlong(_, _) => LengthError
  }

  function RawAll(items: seq<Item>): seq<byte> {
    if items == [] then [] else Raw(items[0]) + RawAll(items[1..])
  }

  function Signals(items: seq<Item>): seq<NetSignal> {
    if items == [] then [] else [SignalOf(items[0])] + Signals(items[1..])
  }

  /** Not even one item is complete yet. */
  ghost predicate Incomplete(bytes: seq<byte>) {
    forall item :: WellFormed(item) ==> !(Raw(item) <= bytes)
  }

  // ---------------------------------------------------------------------------
  // The parser on one item

  lemma {:induction false} ShlSum(a: nat, b: nat, s: nat)
    ensures Shl(a + 128 * b, s) == Shl(a, s) + Shl(b, s + 7)
  {
    if s > 0 {
      ShlSum(a, b, s - 1);
    } else {
      ShlIsMul(b, 7);
      Constants();
    }
  }

  /** Continuation bytes only move the parser on within state Length. */
  lemma {:induction false} FeedContinuation(s: ParserState, field: seq<byte>)
    requires ValidState(s) && s.readState == Length
    requires AllContinue(field) && s.shift + 7 * |field| <= 21
    ensures var t := Feed(s, field);
            t.1 == [] && t.0 == s.(shift := s.shift + 7 * |field|, length := s.length + Shl(LengthOf(field), s.shift))
    decreases |field|
  {
    hide Or, And, Shl, Shr, Pow2;
    if field == [] {
      ShlIsMul(0, s.shift);
    } else {
      LengthByte(s, field[0]);
      StepValid(s, field[0]);
      ShlSum(field[0] % 128, LengthOf(field[1..]), s.shift);
      FeedContinuation(Step(s, field[0]).0, field[1..]);
    }
  }

  lemma {:induction false} SplitLast(first: seq<byte>, last: byte)
    ensures LengthOf(first + [last]) == LengthOf(first) + Shl(last % 128, 7 * |first|)
    decreases |first|
  {
    hide Shl;
    if first == [] {
      assert LengthOf([last]) == last % 128 + 128 * LengthOf([]);
      ShlIsMul(last % 128, 0);
    } else {
      SplitLast(first[1..], last);
      assert (first + [last])[1..] == first[1..] + [last];
      ShlSeven(last % 128, 7 * |first| - 7);
    }
  }

  lemma ShlSeven(a: nat, s: nat)
    ensures Shl(a, s + 7) == 128 * Shl(a, s)
  {
    hide Shl;
    ShlAdd(a, s, 7);
    ShlIsMul(Shl(a, s), 7);
    Constants();
  }

  /** A complete length field. */
  lemma FeedField(h: byte, field: seq<byte>)
    requires IsLengthField(field)
    ensures var s := ParserState(Length, h, 0, 0, []);
            var t := Feed(s, field);
            if LengthOf(field) == 0 then t.0.readState == Header && t.1 == [Received(RawFrame(h, []))]
            else t.1 == [] && t.0.readState == PayLoad && t.0.header == h && t.0.data == [] && t.0.length == LengthOf(field)
  {
    hide Or, And, Shl, Shr;
    var s := ParserState(Length, h, 0, 0, []);
    Constants();
    var n := |field| - 1;
    var first, last := field[..n], field[n];
    assert field == first + [last];
    FeedContinuation(s, first);
    ShlIsMul(LengthOf(first), 0);
    FeedAppend(s, first, [last]);
    var t := Feed(s, first).0;
    LengthByte(t, last);
    SplitLast(first, last);
    StepValid(t, last);
    FeedOne(t, last);
  }

  /** Payload bytes, up to the last but one or including the last. */
  lemma {:induction false} FeedPayload(s: ParserState, payload: seq<byte>)
    requires ValidState(s) && s.readState == PayLoad && |payload| <= s.length
    ensures var t := Feed(s, payload);
            if |payload| < s.length then t.1 == [] && t.0.readState == PayLoad
            else t.1 == [Received(RawFrame(s.header, s.data + payload))] && t.0.readState == Header
    decreases |payload|
  {
    if payload != [] {
      var b := payload[0];
      StepValid(s, b);
      var t := Step(s, b).0;
      if s.length == 1 {
        assert payload == [b] && payload[1..] == [];
      } else {
        FeedPayload(t, payload[1..]);
        assert s.data + [b] + payload[1..] == s.data + payload;
      }
    }
  }

  /** From state Header, whatever else the fields hold, an item yields its one signal and the
      parser is back in state Header. */
  lemma FeedItem(s: ParserState, item: Item)
    requires s.readState == Header && WellFormed(item)
    ensures Feed(s, Raw(item)).0.readState == Header
    ensures Feed(s, Raw(item)).1 == [SignalOf(item)]
  {
    hide Feed, IsLengthField, LengthOf, AllContinue;
    match item
    case Packet(h, field, payload) =>
      assert Raw(item) == [h] + (field + payload);
      FeedAfterHeader(s, h, field + payload);
      FeedPacket(h, field, payload);
    case Overlong(h, field) =>
      FeedAfterHeader(s, h, field);
      FeedOverlong(h, field);
  }

  lemma FeedAfterHeader(s: ParserState, h: byte, tail: seq<byte>)
    requires s.readState == Header
    ensures ValidState(ParserState(Length, h, 0, 0, []))
    ensures Feed(s, [h] + tail) == Feed(ParserState(Length, h, 0, 0, []), tail)
  {
    hide Feed;
    Constants();
    FeedHeader(s, h);
    FeedAppend(s, [h], tail);
    var t := Feed(ParserState(Length, h, 0, 0, []), tail);
    assert [] + t.1 == t.1;
  }

  lemma FeedHeader(s: ParserState, h: byte)
    requires s.readState == Header
    ensures Feed(s, [h]) == (ParserState(Length, h, 0, 0, []), [])
  {
    Constants();
    FeedOne(s, h);
  }

  lemma FeedPacket(h: byte, field: seq<byte>, payload: seq<byte>)
    requires IsLengthField(field) && |payload| == LengthOf(field)
    ensures ValidState(ParserState(Length, h, 0, 0, []))
    ensures var t := Feed(ParserState(Length, h, 0, 0, []), field + payload);
            t.0.readState == Header && t.1 == [Received(RawFrame(h, payload))]
  {
    hide LengthOf, Step;
    Constants();
    var s := ParserState(Length, h, 0, 0, []);
    FeedField(h, field);
    FeedAppend(s, field, payload);
    if LengthOf(field) > 0 {
      FeedPayload(Feed(s, field).0, payload);
      assert [] + payload == payload;
    } else {
      assert payload == [] && Feed(s, field).1 + [] == Feed(s, field).1;
    }
  }

  /** Four continuation bytes make the parser drop the header and start over. */
  lemma FeedOverlong(h: byte, field: seq<byte>)
    requires |field| == 4 && AllContinue(field)
    ensures ValidState(ParserState(Length, h, 0, 0, []))
    ensures var t := Feed(ParserState(Length, h, 0, 0, []), field);
            t.0.readState == Header && t.1 == [LengthError]
  {
    hide Or, And, Shl, Shr, LengthOf;
    Constants();
    var s := ParserState(Length, h, 0, 0, []);
    assert field == field[..3] + [field[3]];
    FeedContinuation(s, field[..3]);
    FeedAppend(s, field[..3], [field[3]]);
    var t := Feed(s, field[..3]).0;
    LengthByte(t, field[3]);
    StepValid(t, field[3]);
    FeedOne(t, field[3]);
  }

  // ---------------------------------------------------------------------------
  // Splitting a stream into items

  datatype Scan = More | Bad | Ends(n: nat)

  /** Where the length field at the front of bytes, k bytes of which have been passed, ends. */
  function ScanLength(bytes: seq<byte>, k: nat): (scan: Scan)
    requires k <= 3
    decreases 4 - k
  {
    if k >= |bytes| then More
    else if bytes[k] < 128 then Ends(k + 1)
    else if k == 3 then Bad
    else ScanLength(bytes, k + 1)
  }

  /** The item at the front of a stream, if it is complete. */
  function FirstItem(bytes: seq<byte>): (r: Option<Item>)
    ensures r.Some? ==> WellFormed(r.value) && Raw(r.value) <= bytes
  {
    if bytes == [] then None
    else
      var rest := bytes[1..];
      ScanLengthIs(rest, 0);
      match ScanLength(rest, 0)
      case More => None
      case Bad =>
        assert bytes[..5] == [bytes[0]] + rest[..4];
        Some(Overlong(bytes[0], rest[..4]))
      case Ends(n) =>
        var field := rest[..n];
        var end := n + LengthOf(field);
        if end > |rest| then None
        else
          FirstBytes(bytes, n, end);
          Some(Packet(bytes[0], field, rest[n..end]))
  }

  lemma FirstBytes(bytes: seq<byte>, n: nat, end: nat)
    requires n <= end < |bytes|
    ensures [bytes[0]] + bytes[1..][..n] + bytes[1..][n..end] == bytes[..1 + end]
  {
    var rest := bytes[1..];
    assert rest[..n] + rest[n..end] == rest[..end];
    assert [bytes[0]] + rest[..end] == bytes[..1 + end];
    assert [bytes[0]] + rest[..n] + rest[n..end] == [bytes[0]] + (rest[..n] + rest[n..end]);
  }

  lemma ScanLengthIs(bytes: seq<byte>, k: nat)
    requires k <= 3 && k <= |bytes| && AllContinue(bytes[..k])
    ensures var scan := ScanLength(bytes, k);
            match scan
            case More => |bytes| <= 3 && AllContinue(bytes)
            case Bad => |bytes| >= 4 && AllContinue(bytes[..4])
            case Ends(n) => k < n <= 4 && n <= |bytes| && IsLengthField(bytes[..n])
    decreases 4 - k
  {
  }

  datatype Split = Split(items: seq<Item>, pending: seq<byte>)

  /** The items of a stream and what is left of it. */
  function Decode(bytes: seq<byte>): Split
    decreases |bytes|
  {
    match FirstItem(bytes)
    case None => Split([], bytes)
    case Some(item) =>
      assert |Raw(item)| > 0;
      var tail := Decode(bytes[|Raw(item)|..]);
      Split([item] + tail.items, tail.pending)
  }

  /** Length fields are prefix-free. */
  lemma FieldsPrefixFree(a: seq<byte>, b: seq<byte>)
    requires a <= b || b <= a
    requires IsLengthField(a) || (|a| == 4 && AllContinue(a))
    requires IsLengthField(b) || (|b| == 4 && AllContinue(b))
    ensures a == b
  {
  }

  /** No item is a proper prefix of another, so at most one item starts a given stream. */
  lemma ItemsPrefixFree(x: Item, y: Item, bytes: seq<byte>)
    requires WellFormed(x) && WellFormed(y)
    requires Raw(x) <= bytes && Raw(y) <= bytes
    ensures x == y
  {
    var rest := bytes[1..];
    assert bytes[0] == Raw(x)[0] == Raw(y)[0];
    FieldIsPrefix(x, bytes);
    FieldIsPrefix(y, bytes);
    FieldsPrefixFree(x.field, y.field);
    if x.Packet? {
      var n := |x.field|;
      PayloadIsSlice(x, bytes);
      if y.Packet? {
        PayloadIsSlice(y, bytes);
      } else {
        assert false;
      }
    }
  }

  lemma FieldIsPrefix(x: Item, bytes: seq<byte>)
    requires WellFormed(x) && Raw(x) <= bytes
    ensures x.field <= bytes[1..]
  {
  }

  lemma PayloadIsSlice(x: Item, bytes: seq<byte>)
    requires x.Packet? && WellFormed(x) && Raw(x) <= bytes
    ensures x.payload == bytes[1 + |x.field|..|Raw(x)|]
  {
  }

  lemma NoFirstItem(bytes: seq<byte>)
    ensures FirstItem(bytes) == None <==> Incomplete(bytes)
  {
    if FirstItem(bytes) == None {
      forall item | WellFormed(item)
        ensures !(Raw(item) <= bytes)
      {
        if Raw(item) <= bytes {
          var rest := bytes[1..];
          FieldIsPrefix(item, bytes);
          ScanLengthIs(rest, 0);
          var k := |item.field|;
          assert item.field[k - 1] == rest[k - 1];
          if ScanLength(rest, 0).Ends? {
            FieldsPrefixFree(item.field, rest[..ScanLength(rest, 0).n]);
          }
        }
      }
    }
  }

  // ---------------------------------------------------------------------------
  // The theorems

  /** Bytes that do not complete an item emit nothing, and leave the parser in state Header only if
      there are none. */
  lemma FeedIncomplete(s: ParserState, bytes: seq<byte>)
    requires s.readState == Header && Incomplete(bytes)
    ensures Feed(s, bytes).1 == []
    ensures Feed(s, bytes).0.readState == Header <==> bytes == []
  {
    hide Incomplete, Step;
    if bytes != [] {
      assert bytes == [bytes[0]] + bytes[1..];
      FeedAfterHeader(s, bytes[0], bytes[1..]);
      FeedIncompleteRest(bytes[0], bytes[1..]);
    }
  }

  lemma FeedIncompleteRest(h: byte, rest: seq<byte>)
    requires Incomplete([h] + rest)
    ensures ValidState(ParserState(Length, h, 0, 0, []))
    ensures var t := Feed(ParserState(Length, h, 0, 0, []), rest);
            t.1 == [] && t.0.readState != Header
  {
    hide Or, And, Shl, Shr, Step, LengthOf, Incomplete;
    Constants();
    NoFirstItem([h] + rest);
    assert ([h] + rest)[1..] == rest;
    ScanLengthIs(rest, 0);
    var s := ParserState(Length, h, 0, 0, []);
    match ScanLength(rest, 0)
    case More => FeedContinuation(s, rest);
    case Bad => assert false;
    case Ends(n) =>
      var field, payload := rest[..n], rest[n..];
      assert rest == field + payload;
      FeedField(h, field);
      FeedAppend(s, field, payload);
      FeedPayload(Feed(s, field).0, payload);
  }

  lemma {:induction false} FeedItems(s: ParserState, items: seq<Item>)
    requires s.readState == Header
    requires forall i :: 0 <= i < |items| ==> WellFormed(items[i])
    ensures Feed(s, RawAll(items)).0.readState == Header
    ensures Feed(s, RawAll(items)).1 == Signals(items)
    decreases |items|
  {
    if items != [] {
      FeedItem(s, items[0]);
      FeedAppend(s, Raw(items[0]), RawAll(items[1..]));
      FeedItems(Feed(s, Raw(items[0])).0, items[1..]);
    }
  }

  /** On a stream made of items and an incomplete rest the parser emits one signal per item, in
      order, and nothing for the rest. */
  lemma ParserReadsItems(s: ParserState, items: seq<Item>, pending: seq<byte>)
    requires s.readState == Header
    requires forall i :: 0 <= i < |items| ==> WellFormed(items[i])
    requires Incomplete(pending)
    ensures Feed(s, RawAll(items) + pending).1 == Signals(items)
    ensures Feed(s, RawAll(items) + pending).0.readState == Header <==> pending == []
  {
    FeedItems(s, items);
    FeedAppend(s, RawAll(items), pending);
    FeedIncomplete(Feed(s, RawAll(items)).0, pending);
  }

  /** Every stream is made of items and an incomplete rest in exactly one way: no byte is lost or
      read twice. */
  lemma {:induction false} DecodeSplits(bytes: seq<byte>)
    ensures var d := Decode(bytes);
            && bytes == RawAll(d.items) + d.pending
            && Incomplete(d.pending)
            && forall i :: 0 <= i < |d.items| ==> WellFormed(d.items[i])
    decreases |bytes|
  {
    hide Decode, FirstItem, WellFormed, Incomplete, Raw;
    NoFirstItem(bytes);
    match FirstItem(bytes)
    case None =>
      DecodeIncomplete(bytes);
      assert bytes == RawAll([]) + bytes;
    case Some(item) =>
      var rest := bytes[|Raw(item)|..];
      RawNotEmpty(item);
      DecodeSplits(rest);
      var tail := Decode(rest);
      assert bytes == Raw(item) + rest;
      DecodeItem(item, rest);
      assert ([item] + tail.items)[1..] == tail.items;
      assert Raw(item) + (RawAll(tail.items) + tail.pending) == Raw(item) + RawAll(tail.items) + tail.pending;
  }

  lemma RawNotEmpty(item: Item)
    ensures |Raw(item)| > 0
  {
  }

  lemma {:induction false} SplitIsUnique(items: seq<Item>, pending: seq<byte>)
    requires forall i :: 0 <= i < |items| ==> WellFormed(items[i])
    requires Incomplete(pending)
    ensures Decode(RawAll(items) + pending) == Split(items, pending)
    decreases |items|
  {
    hide FirstItem, WellFormed, Incomplete, Decode, Raw;
    if items == [] {
      DecodeIncomplete(pending);
      assert RawAll(items) + pending == pending;
    } else {
      var rest := RawAll(items[1..]) + pending;
      assert RawAll(items) + pending == Raw(items[0]) + rest;
      DecodeItem(items[0], rest);
      SplitIsUnique(items[1..], pending);
    }
  }

  lemma DecodeIncomplete(bytes: seq<byte>)
    requires Incomplete(bytes)
    ensures Decode(bytes) == Split([], bytes)
  {
    NoFirstItem(bytes);
  }

  lemma DecodeItem(item: Item, rest: seq<byte>)
    requires WellFormed(item)
    ensures Decode(Raw(item) + rest) == Split([item] + Decode(rest).items, Decode(rest).pending)
  {
    hide FirstItem, WellFormed;
    FirstItemIs(item, rest);
    assert (Raw(item) + rest)[|Raw(item)|..] == rest;
  }

  lemma FirstItemIs(item: Item, rest: seq<byte>)
    requires WellFormed(item)
    ensures FirstItem(Raw(item) + rest) == Some(item)
  {
    hide FirstItem, WellFormed;
    var bytes := Raw(item) + rest;
    assert Raw(item) <= bytes;
    NoFirstItem(bytes);
    ItemsPrefixFree(FirstItem(bytes).value, item, bytes);
  }

  /** The parser, fed any bytes at all, emits what the whole-buffer decoder finds in them. */
  lemma ParserRefinesDecoder(s: ParserState, bytes: seq<byte>)
    requires s.readState == Header
    ensures Feed(s, bytes).1 == Signals(Decode(bytes).items)
    ensures Feed(s, bytes).0.readState == Header <==> Decode(bytes).pending == []
  {
    DecodeSplits(bytes);
    var d := Decode(bytes);
    ParserReadsItems(s, d.items, d.pending);
  }

  // ---------------------------------------------------------------------------
  // Counting bytes

  /** The bytes of the items that became packets. */
  ghost function PacketBytes(items: seq<Item>): nat {
    if items == [] then 0
    else (if items[0].Packet? then |Raw(items[0])| else 0) + PacketBytes(items[1..])
  }

  ghost function Errors(signals: seq<NetSignal>): nat {
    if signals == [] then 0 else (if signals[0] == LengthError then 1 else 0) + Errors(signals[1..])
  }

  lemma {:induction false} RawAllLength(items: seq<Item>)
    requires forall i :: 0 <= i < |items| ==> WellFormed(items[i])
    ensures |RawAll(items)| == PacketBytes(items) + 5 * Errors(Signals(items))
  {
    if items != [] {
      RawAllLength(items[1..]);
      assert Signals(items)[1..] == Signals(items[1..]);
    }
  }

  /** Every byte fed is in an emitted packet, one of the five of a length error, or pending. */
  lemma BytesAreConserved(s: ParserState, bytes: seq<byte>)
    requires s.readState == Header
    ensures var d := Decode(bytes);
            |bytes| == PacketBytes(d.items) + 5 * Errors(Feed(s, bytes).1) + |d.pending|
  {
    ParserRefinesDecoder(s, bytes);
    DecodeSplits(bytes);
    RawAllLength(Decode(bytes).items);
  }

  // ---------------------------------------------------------------------------
  // Chunks

  ghost function Flatten(chunks: seq<seq<byte>>): seq<byte> {
    if chunks == [] then [] else chunks[0] + Flatten(chunks[1..])
  }

  /** One OnSocketReadReady per chunk. */
  ghost function FeedChunks(s: ParserState, chunks: seq<seq<byte>>): (ParserState, seq<NetSignal>)
    requires ValidState(s)
    decreases |chunks|
  {
    if chunks == [] then (s, [])
    else
      var (s1, out1) := Feed(s, chunks[0]);
      var (s2, out2) := FeedChunks(s1, chunks[1..]);
      (s2, out1 + out2)
  }

  /** How the stream is cut into reads makes no difference. */
  lemma {:induction false} ChunkingIsInvisible(s: ParserState, chunks: seq<seq<byte>>)
    requires ValidState(s)
    ensures FeedChunks(s, chunks) == Feed(s, Flatten(chunks))
    decreases |chunks|
  {
    hide Step;
    if chunks != [] {
      FeedAppend(s, chunks[0], Flatten(chunks[1..]));
      ChunkingIsInvisible(Feed(s, chunks[0]).0, chunks[1..]);
    }
  }

  // ---------------------------------------------------------------------------
  // Printed frames

  ghost function SerializeAll(frames: seq<RawFrame>): seq<byte> {
    if frames == [] then [] else Serialize(frames[0]) + SerializeAll(frames[1..])
  }

  /** The frames short enough to be sent at all. */
  ghost function Sendable(frames: seq<RawFrame>): seq<RawFrame> {
    if frames == [] then []
    else (if |frames[0].data| <= MAX_REMAINING_LENGTH then [frames[0]] else []) + Sendable(frames[1..])
  }

  ghost function ReceivedAll(frames: seq<RawFrame>): seq<NetSignal> {
    if frames == [] then [] else [Received(frames[0])] + ReceivedAll(frames[1..])
  }

  ghost function PrintedItem(f: RawFrame): Item {
    Packet(f.header, Varint(|f.data|), f.data)
  }

  lemma {:induction false} VarintIsField(n: nat)
    ensures LengthOf(Varint(n)) == n
    ensures Varint(n)[|Varint(n)| - 1] < 128
    ensures forall i :: 0 <= i < |Varint(n)| - 1 ==> Varint(n)[i] >= 128
  {
    if n >= 128 {
      VarintIsField(n / 128);
      assert Varint(n)[1..] == Varint(n / 128);
    }
  }

  ghost function PrintedItems(frames: seq<RawFrame>): seq<Item> {
    if frames == [] then []
    else (if |frames[0].data| <= MAX_REMAINING_LENGTH then [PrintedItem(frames[0])] else []) + PrintedItems(frames[1..])
  }

  lemma PrintedItemIs(f: RawFrame)
    requires |f.data| <= MAX_REMAINING_LENGTH
    ensures WellFormed(PrintedItem(f)) && Raw(PrintedItem(f)) == Serialize(f)
    ensures SignalOf(PrintedItem(f)) == Received(f)
  {
    hide Varint, LengthOf;
    VarintIsField(|f.data|);
    VarintLength(|f.data|);
  }

  lemma {:induction false} PrintedItemsAre(frames: seq<RawFrame>)
    ensures RawAll(PrintedItems(frames)) == SerializeAll(frames)
    ensures Signals(PrintedItems(frames)) == ReceivedAll(Sendable(frames))
    ensures forall i :: 0 <= i < |PrintedItems(frames)| ==> WellFormed(PrintedItems(frames)[i])
  {
    hide Varint, LengthOf, Raw, WellFormed, PrintedItem, SignalOf;
    if frames != [] {
      PrintedItemsAre(frames[1..]);
      var f, tail := frames[0], PrintedItems(frames[1..]);
      if |f.data| <= MAX_REMAINING_LENGTH {
        PrintedItemIs(f);
        assert PrintedItems(frames)[1..] == tail;
        assert Sendable(frames)[1..] == Sendable(frames[1..]);
      } else {
        assert PrintedItems(frames) == tail && Sendable(frames) == Sendable(frames[1..]);
      }
    }
  }

  lemma NothingIsIncomplete()
    ensures Incomplete([])
  {
  }

  /** Any list of frames, written one after the other and read back in whatever pieces, from state
      Header with any leftovers in the other fields: exactly the sendable frames arrive, in order,
      and the parser ends in state Header. */
  lemma RoundTrip(s: ParserState, frames: seq<RawFrame>, chunks: seq<seq<byte>>)
    requires s.readState == Header
    requires Flatten(chunks) == SerializeAll(frames)
    ensures FeedChunks(s, chunks).1 == ReceivedAll(Sendable(frames))
    ensures FeedChunks(s, chunks).0.readState == Header
  {
    ChunkingIsInvisible(s, chunks);
    PrintedItemsAre(frames);
    NothingIsIncomplete();
    assert SerializeAll(frames) + [] == SerializeAll(frames);
    ParserReadsItems(s, PrintedItems(frames), []);
  }

  /** Whatever a broken connection left in the parser, once OnConnected has put it in state Header
      the new stream is read as by a fresh parser. */
  lemma ResetForgets(s: ParserState, clean: ParserState, bytes: seq<byte>)
    requires clean.readState == Header
    ensures Feed(s.(readState := Header), bytes).1 == Feed(clean, bytes).1
  {
  }

  // ---------------------------------------------------------------------------
  // Re-encoding

  /** A length field without needless trailing zero digits. */
  predicate Minimal(field: seq<byte>)
    requires |field| > 0
  {
    |field| == 1 || field[|field| - 1] != 0
  }

  lemma {:induction false} ShortestField(field: seq<byte>)
    requires |field| >= 1 && field[|field| - 1] < 128
    requires forall i :: 0 <= i < |field| - 1 ==> field[i] >= 128
    ensures |Varint(LengthOf(field))| <= |field|
    ensures |Varint(LengthOf(field))| == |field| <==> Minimal(field)
    ensures Minimal(field) ==> Varint(LengthOf(field)) == field
    decreases |field|
  {
    if |field| == 1 {
      assert LengthOf(field) == field[0] + 128 * LengthOf([]);
    } else {
      var tail := field[1..];
      ShortestField(tail);
      assert LengthOf(field) / 128 == LengthOf(tail) && LengthOf(field) % 128 == field[0] % 128;
      if LengthOf(tail) > 0 {
        assert field == [field[0]] + tail;
      } else {
        assert |Varint(LengthOf(field))| == 1;
        assert Minimal(tail) ==> tail == Varint(0) == [0];
      }
    }
  }

  /** Writing a received packet again never takes more bytes than it took to receive it, and gives
      the same bytes exactly when its length field was minimal. */
  lemma Reencoding(item: Item)
    requires WellFormed(item) && item.Packet?
    ensures var out := Serialize(RawFrame(item.header, item.payload));
            && |out| <= |Raw(item)|
            && (|out| == |Raw(item)| <==> Minimal(item.field))
            && (out == Raw(item) <==> Minimal(item.field))
  {
    hide Varint, LengthOf;
    ShortestField(item.field);
    VarintLength(LengthOf(item.field));
  }
}
