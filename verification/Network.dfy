/** The incremental packet parser. */
module Network {
  import opened Bits
  import opened Frames

  datatype ReadState = Header | Length | PayLoad

  datatype NetSignal = Received(frame: RawFrame) | LengthError

  /** The parser's fields between two bytes. In state Header the others hold whatever was left. */
  datatype ParserState = ParserState(readState: ReadState, header: byte, length: nat, shift: nat, data: seq<byte>)

  ghost predicate ValidState(s: ParserState) {
    && (s.readState == Length ==> s.shift % 7 == 0 && s.shift <= 21 && s.length < Pow2(s.shift))
    && (s.readState == PayLoad ==> 0 < s.length)
  }

  /** The body of the byte loop. */
  function Step(s: ParserState, b: byte): (r: (ParserState, seq<NetSignal>))
    requires s.readState == PayLoad ==> 0 < s.length
  {
    match s.readState
    case Header =>
      (ParserState(Length, b, 0, 0, []), [])
    case Length =>
      var t := s.(length := Or(s.length, Shl(And(b, 0x7F), s.shift)), shift := s.shift + 7);
      if And(b, 0x80) != 0 then
        if t.shift > 21 then (t.(readState := Header), [LengthError]) else (t, [])
      else if t.length == 0 then
        (t.(readState := Header), [Received(RawFrame(t.header, t.data))])
      else
        (t.(readState := PayLoad), [])
    case PayLoad =>
      var t := s.(data := s.data + [b], length := s.length - 1);
      if t.length > 0 then (t, []) else (t.(readState := Header), [Received(RawFrame(t.header, t.data))])
  }

  /** A length byte in arithmetic terms; the value stays below 2^28, so it fits a C++ int. */
  lemma LengthByte(s: ParserState, b: byte)
    requires ValidState(s) && s.readState == Length
    ensures And(b, 0x7F) == b % 128 && (And(b, 0x80) != 0 <==> b >= 128)
    ensures Or(s.length, Shl(And(b, 0x7F), s.shift)) == s.length + Shl(b % 128, s.shift) < Pow2(s.shift + 7)
  {
    hide Or, And, Shl, Shr, Pow2;
    Constants();
    MaskField(b, 0x7F, 7, 0);
    MaskField(b, 0x80, 1, 7);
    ShlIsMul(b % 128, 0);
    ShlIsMul(b / 128 % 2, 7);
    OrDisjoint(s.length, b % 128, s.shift);
    ShlBound(b % 128, s.shift);
  }

  lemma {:induction false} ShlBound(a: nat, s: nat)
    requires a < 128
    ensures Shl(a, s) + Pow2(s) <= Pow2(s + 7)
  {
    if s > 0 {
      ShlBound(a, s - 1);
    } else {
      Constants();
    }
  }

  lemma StepValid(s: ParserState, b: byte)
    requires ValidState(s)
    ensures ValidState(Step(s, b).0)
  {
    hide Or, And, Shl;
    if s.readState == Length {
      LengthByte(s, b);
    }
    Constants();
  }

  ghost function Feed(s: ParserState, bytes: seq<byte>): (r: (ParserState, seq<NetSignal>))
    requires ValidState(s)
    ensures ValidState(r.0)
    decreases |bytes|
  {
    if bytes == [] then (s, [])
    else
      StepValid(s, bytes[0]);
      var (s1, out1) := Step(s, bytes[0]);
      var (s2, out2) := Feed(s1, bytes[1..]);
      (s2, out1 + out2)
  }

  lemma {:induction false} FeedAppend(s: ParserState, a: seq<byte>, b: seq<byte>)
    requires ValidState(s)
    ensures Feed(s, a + b) == (Feed(Feed(s, a).0, b).0, Feed(s, a).1 + Feed(Feed(s, a).0, b).1)
    decreases |a|
  {
    hide Step;
    if a == [] {
      assert a + b == b;
      assert [] + Feed(s, b).1 == Feed(s, b).1;
    } else {
      assert (a + b)[1..] == a[1..] + b;
      StepValid(s, a[0]);
      var s1 := Step(s, a[0]).0;
      FeedAppend(s1, a[1..], b);
      var x, y, z := Step(s, a[0]).1, Feed(s1, a[1..]).1, Feed(Feed(s1, a[1..]).0, b).1;
      assert x + (y + z) == (x + y) + z;
    }
  }

  lemma FeedOne(s: ParserState, b: byte)
    requires ValidState(s)
    ensures Feed(s, [b]) == Step(s, b)
  {
    hide Step;
    StepValid(s, b);
    assert [b][1..] == [];
    assert Step(s, b).1 + [] == Step(s, b).1;
  }

  /** The connection's reader. */
  class Network {
    var readState: ReadState
    var header: byte
    var length: nat
    var shift: nat
    var data: seq<byte>

    ghost function State(): ParserState
      reads this
    {
      ParserState(readState, header, length, shift, data)
    }

    ghost predicate Valid()
      reads this
    {
      ValidState(State())
    }

    constructor ()
      ensures Valid() && readState == Header
    {
      readState := Header;
      header, length, shift, data := *, *, *, [];
    }

    /** Consumes the bytes available on the socket; signals lists what was emitted, in order. */
    method OnSocketReadReady(bytes: seq<byte>) returns (signals: seq<NetSignal>)
      requires Valid()
      modifies this
      ensures Valid()
      ensures (State(), signals) == Feed(old(State()), bytes)
    {
      hide Or, And, Shl, Step;
      signals := [];
      for i := 0 to |bytes|
        invariant Valid()
        invariant (State(), signals) == Feed(old(State()), bytes[..i])
      {
        var b := bytes[i];
        FeedAppend(old(State()), bytes[..i], [b]);
        FeedOne(State(), b);
        assert bytes[..i + 1] == bytes[..i] + [b];
        var emitted := OnByte(b);
        signals := signals + emitted;
      }
      assert bytes[..|bytes|] == bytes;
    }

    /** One round of the switch. */
    method OnByte(b: byte) returns (emitted: seq<NetSignal>)
      requires Valid()
      modifies this
      ensures Valid()
      ensures (State(), emitted) == Step(old(State()), b)
    {
      StepValid(State(), b);
      emitted := [];
      match readState
      case Header =>
        header := b;
        readState := Length;
        length := 0;
        shift := 0;
        data := [];
      case Length =>
        length := Or(length, Shl(And(b, 0x7F), shift));
        shift := shift + 7;
        if And(b, 0x80) != 0 {
          if shift > 21 {
            readState := Header;
            emitted := [LengthError];
          }
        } else if length == 0 {
          readState := Header;
          emitted := [Received(RawFrame(header, data))];
        } else {
          readState := PayLoad;
        }
      case PayLoad =>
        data := data + [b];
        length := length - 1;
        if length > 0 {
          return;
        }
        readState := Header;
        emitted := [Received(RawFrame(header, data))];
    }

    method OnConnected()
      modifies this`readState
      ensures Valid() && readState == Header
    {
      readState := Header;
    }
  }
}
