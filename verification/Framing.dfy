/**
  How a message becomes bytes on a connection, and how a reader takes it back.

  A frame is a four-byte big-endian length in the clear, followed by the sealed payload. A
  message is one frame for its header and, for a synchronisation, a second one for its data.
 */
module Framing {
  import opened Wrappers
  import opened Bytes
  import opened BigEndian

  type Data = seq<Byte>

  const MSG_TYPE_SYNC: int := 3

  /** The marshalled part of a message; synchronisation data is not in it. */
  datatype Header = Header(version: int, kind: int, to: Data, data: Data)

  datatype Msg = Msg(header: Header, syncData: Data)

  predicate IsSync(m: Msg) {
    m.header.kind == MSG_TYPE_SYNC
  }

  /**
    The parts that come from other libraries: authenticated encryption under the nonce of one
    direction of a session, and the binary form of headers, which can fail.
   */
  datatype Codec = Codec(
    maxMessageSize: nat,
    seal: Data -> Data,
    open: Data -> Option<Data>,
    marshal: Header -> Option<Data>,
    unmarshal: Data -> Option<Header>)

  const SEAL_OVERHEAD: nat := 16

  /** Opening undoes sealing, which adds 16 bytes; unmarshalling undoes marshalling. */
  ghost predicate Lawful(c: Codec) {
    && (forall p :: |c.seal(p)| == |p| + SEAL_OVERHEAD && c.open(c.seal(p)) == Some(p))
    && (forall b :: c.open(b).Some? ==> |c.open(b).value| + SEAL_OVERHEAD == |b|)
    && (forall h :: c.marshal(h).Some? ==> c.unmarshal(c.marshal(h).value) == Some(h))
  }

  const UINT32: nat := 0x1_0000_0000

  lemma Uint32IsFourBytes()
    ensures Pow256(4) == UINT32
  {
    assert Pow256(1) == 256 && Pow256(2) == 65536 && Pow256(3) == 16777216;
  }

  // ----- writing

  function Frame(c: Codec, payload: Data): Data {
    Digits(|payload| % UINT32, 4) + c.seal(payload)
  }

  predicate CanMarshal(c: Codec, m: Msg) {
    c.marshal(m.header).Some?
  }

  function MsgBytes(c: Codec, m: Msg): Data
    requires CanMarshal(c, m)
  {
    Frame(c, c.marshal(m.header).value) + if IsSync(m) then Frame(c, m.syncData) else []
  }

  predicate AllMarshal(c: Codec, msgs: seq<Msg>) {
    forall i :: 0 <= i < |msgs| ==> CanMarshal(c, msgs[i])
  }

  /** What a connection carries when exactly `msgs` are written to it. */
  function Stream(c: Codec, msgs: seq<Msg>): Data
    requires AllMarshal(c, msgs)
  {
    if msgs == [] then [] else MsgBytes(c, msgs[0]) + Stream(c, msgs[1..])
  }

  // ----- reading

  datatype Read = Got(payload: Data, rest: Data) | Failed

  /** One frame from the bytes that will ever arrive, into a buffer of the maximum size. */
  function ReadFrame(c: Codec, s: Data): (r: Read)
    ensures r.Got? ==> |r.rest| < |s|
  {
    if |s| < 4 then Failed
    else
      var prefix := Value(s[..4]);
      if c.maxMessageSize % UINT32 < prefix || c.maxMessageSize < prefix + SEAL_OVERHEAD then Failed
      else if |s| - 4 < prefix + SEAL_OVERHEAD then Failed
      else
        var end := 4 + prefix + SEAL_OVERHEAD;
        match c.open(s[4..end])
        case None => Failed
        case Some(payload) => Got(payload, s[end..])
  }

  datatype Turn = Took(msg: Msg, left: Data) | Skipped(left: Data) | Ended

  /** One turn of the read loop: a header that cannot be read back is skipped. */
  function TakeTurn(c: Codec, s: Data): (t: Turn)
    ensures !t.Ended? ==> |t.left| < |s|
  {
    match ReadFrame(c, s)
    case Failed => Ended
    case Got(payload, rest) =>
      match c.unmarshal(payload)
      case None => Skipped(rest)
      case Some(header) =>
        if header.kind != MSG_TYPE_SYNC then Took(Msg(header, []), rest)
        else
          match ReadFrame(c, rest)
          case Failed => Ended
          case Got(data, rest') => Took(Msg(header, data), rest')
  }

  /** What the rate limit and the context have to say in one turn of the read loop. */
  datatype Gate = Gate(within: bool, done: bool)

  type Gates = nat -> Gate

  predicate Open(g: Gate) {
    g.within && !g.done
  }

  /**
    What the read loop delivers from turn number `turn` on. It ends with the first frame that
    cannot be read, with a message over the rate limit, or with the end of its context.
   */
  function Deliver(c: Codec, s: Data, gates: Gates, turn: nat): seq<Msg>
    decreases |s|
  {
    match TakeTurn(c, s)
    case Ended => []
    case Skipped(left) => if gates(turn).within then Deliver(c, left, gates, turn + 1) else []
    case Took(m, left) => if Open(gates(turn)) then [m] + Deliver(c, left, gates, turn + 1) else []
  }

  // ----- frames through the wire

  /** The length of `payload` is one that the prefix can hold. */
  predicate FitsPrefix(payload: Data) {
    |payload| < UINT32
  }

  /** The reading side has room for `payload` and its seal. */
  predicate Readable(c: Codec, payload: Data) {
    |payload| <= c.maxMessageSize % UINT32 && |payload| + SEAL_OVERHEAD <= c.maxMessageSize
  }

  lemma RemainderReadsBack(x: nat, k: nat, m: nat)
    requires x < m == Pow256(k)
    ensures Value(Digits(x % m, k)) == x
  {
    assert x % m == x by {
      RemainderIs(x, m, 0, x);
    }
    DigitsReadBack(x, k);
  }

  lemma PrefixReadsBack(payload: Data)
    requires FitsPrefix(payload)
    ensures Value(Digits(|payload| % UINT32, 4)) == |payload|
  {
    Uint32IsFourBytes();
    RemainderReadsBack(|payload|, 4, UINT32);
  }

  /**
    Whatever part of a stream arrives, its first frame is read back exactly when it is there in
    full and fits the reader's buffer; a cut or oversized frame yields nothing.
   */
  lemma FrameReadsBack(c: Codec, payload: Data, tail: Data, s: Data)
    requires Lawful(c) && FitsPrefix(payload) && s <= Frame(c, payload) + tail
    ensures ReadFrame(c, s) ==
            if Readable(c, payload) && |Frame(c, payload)| <= |s|
            then Got(payload, s[|Frame(c, payload)|..])
            else Failed
  {
    var frame := Frame(c, payload);
    if 4 <= |s| {
      assert s[..4] == frame[..4] == Digits(|payload| % UINT32, 4);
      PrefixReadsBack(payload);
      if |frame| <= |s| {
        assert s[4..|frame|] == c.seal(payload);
      }
    }
  }

  predicate MsgFits(c: Codec, m: Msg)
    requires CanMarshal(c, m)
  {
    FitsPrefix(c.marshal(m.header).value) && (IsSync(m) ==> FitsPrefix(m.syncData))
  }

  predicate MsgReadable(c: Codec, m: Msg)
    requires CanMarshal(c, m)
  {
    Readable(c, c.marshal(m.header).value) && (IsSync(m) ==> Readable(c, m.syncData))
  }

  /** A message as the other side sees it: only a synchronisation carries its data. */
  function Received(m: Msg): Msg {
    if IsSync(m) then m else m.(syncData := [])
  }

  /** How many of `msgs` are there in full in `n` bytes, one after the other, readable and let through. */
  function Arrived(c: Codec, msgs: seq<Msg>, n: nat, gates: Gates, turn: nat): (k: nat)
    requires AllMarshal(c, msgs)
    ensures k <= |msgs|
  {
    if msgs == [] || !MsgReadable(c, msgs[0]) || n < |MsgBytes(c, msgs[0])| || !Open(gates(turn)) then 0
    else 1 + Arrived(c, msgs[1..], n - |MsgBytes(c, msgs[0])|, gates, turn + 1)
  }

  function ReceivedAll(msgs: seq<Msg>): seq<Msg> {
    seq(|msgs|, i requires 0 <= i < |msgs| => Received(msgs[i]))
  }

  lemma MsgReadsBack(c: Codec, m: Msg, tail: Data, s: Data)
    requires Lawful(c) && CanMarshal(c, m) && MsgFits(c, m) && s <= MsgBytes(c, m) + tail
    ensures TakeTurn(c, s) ==
            if MsgReadable(c, m) && |MsgBytes(c, m)| <= |s|
            then Took(Received(m), s[|MsgBytes(c, m)|..])
            else Ended
  {
    var head := c.marshal(m.header).value;
    var second := if IsSync(m) then Frame(c, m.syncData) else [];
    assert MsgBytes(c, m) + tail == Frame(c, head) + (second + tail);
    FrameReadsBack(c, head, second + tail, s);
    if Readable(c, head) && |Frame(c, head)| <= |s| {
      var rest := s[|Frame(c, head)|..];
      assert c.unmarshal(head) == Some(m.header);
      if IsSync(m) {
        assert rest <= Frame(c, m.syncData) + tail;
        FrameReadsBack(c, m.syncData, tail, rest);
        if |MsgBytes(c, m)| <= |s| {
          assert rest[|second|..] == s[|MsgBytes(c, m)|..];
        }
      }
    }
  }

  lemma PrefixWithout(s: Data, first: Data, tail: Data)
    requires s <= first + tail && |first| <= |s|
    ensures s[|first|..] <= tail
  {
    assert tail == (first + tail)[|first|..];
  }

  lemma ReceivedAllCons(m: Msg, rest: seq<Msg>, k: nat)
    requires k <= |rest|
    ensures ReceivedAll(([m] + rest)[..k + 1]) == [Received(m)] + ReceivedAll(rest[..k])
  {
  }

  predicate FirstArrives(c: Codec, msgs: seq<Msg>, s: Data)
    requires AllMarshal(c, msgs)
  {
    msgs != [] && MsgReadable(c, msgs[0]) && |MsgBytes(c, msgs[0])| <= |s|
  }

  lemma FirstTurn(c: Codec, msgs: seq<Msg>, s: Data)
    requires Lawful(c) && AllMarshal(c, msgs) && s <= Stream(c, msgs)
    requires forall i :: 0 <= i < |msgs| ==> MsgFits(c, msgs[i])
    ensures FirstArrives(c, msgs, s) ==>
              && TakeTurn(c, s) == Took(Received(msgs[0]), s[|MsgBytes(c, msgs[0])|..])
              && s[|MsgBytes(c, msgs[0])|..] <= Stream(c, msgs[1..])
    ensures !FirstArrives(c, msgs, s) ==> TakeTurn(c, s) == Ended
  {
    if msgs != [] {
      MsgReadsBack(c, msgs[0], Stream(c, msgs[1..]), s);
      if |MsgBytes(c, msgs[0])| <= |s| {
        PrefixWithout(s, MsgBytes(c, msgs[0]), Stream(c, msgs[1..]));
      }
    }
  }

  lemma FirstThenRest(c: Codec, msgs: seq<Msg>, s: Data, gates: Gates, turn: nat, left: Data, k: nat)
    requires msgs != [] && k < |msgs| && Open(gates(turn)) && TakeTurn(c, s) == Took(Received(msgs[0]), left)
    requires Deliver(c, left, gates, turn + 1) == ReceivedAll(msgs[1..][..k])
    ensures Deliver(c, s, gates, turn) == ReceivedAll(msgs[..k + 1])
  {
    assert msgs == [msgs[0]] + msgs[1..];
    ReceivedAllCons(msgs[0], msgs[1..], k);
  }

  /** A turn that ends, or whose message is not let through, delivers nothing more. */
  lemma NothingMore(c: Codec, s: Data, gates: Gates, turn: nat)
    requires TakeTurn(c, s).Ended? || (TakeTurn(c, s).Took? && !Open(gates(turn)))
    ensures Deliver(c, s, gates, turn) == []
  {
  }

  /**
    Whatever byte prefix `s` of the stream of `msgs` arrives, the reader delivers exactly the
    leading messages that are in it in full, each synchronisation with its own data, and stops
    at the first that is cut short, does not fit or is not let through.
   */
  lemma {:induction false} ReaderDeliversPrefix(c: Codec, msgs: seq<Msg>, s: Data, gates: Gates, turn: nat)
    requires Lawful(c) && AllMarshal(c, msgs) && s <= Stream(c, msgs)
    requires forall i :: 0 <= i < |msgs| ==> MsgFits(c, msgs[i])
    ensures Deliver(c, s, gates, turn) == ReceivedAll(msgs[..Arrived(c, msgs, |s|, gates, turn)])
    decreases |msgs|
  {
    FirstTurn(c, msgs, s);
    if FirstArrives(c, msgs, s) && Open(gates(turn)) {
      var left := s[|MsgBytes(c, msgs[0])|..];
      ReaderDeliversPrefix(c, msgs[1..], left, gates, turn + 1);
      FirstThenRest(c, msgs, s, gates, turn, left, Arrived(c, msgs[1..], |left|, gates, turn + 1));
    } else {
      NothingMore(c, s, gates, turn);
    }
  }

  /** A frame is twenty bytes longer than its payload. */
  lemma FrameLength(c: Codec, payload: Data)
    requires Lawful(c)
    ensures |Frame(c, payload)| == |payload| + 20
  {
  }

  /** Only messages of kind 3 are followed by a second frame. */
  lemma OnlySyncsHaveTwoFrames(c: Codec, m: Msg)
    requires Lawful(c) && CanMarshal(c, m)
    ensures |MsgBytes(c, m)| ==
            |c.marshal(m.header).value| + 20 + if m.header.kind == 3 then |m.syncData| + 20 else 0
  {
  }

  /**
    A readable frame that is no header is skipped: what follows it is delivered as if it had not
    been there, one turn later.
   */
  lemma ForeignFrameIsSkipped(c: Codec, payload: Data, rest: Data, gates: Gates, turn: nat)
    requires Lawful(c) && FitsPrefix(payload) && Readable(c, payload) && c.unmarshal(payload).None?
    ensures Deliver(c, Frame(c, payload) + rest, gates, turn) ==
            if gates(turn).within then Deliver(c, rest, gates, turn + 1) else []
  {
    var s := Frame(c, payload) + rest;
    FrameReadsBack(c, payload, rest, s);
    assert s[|Frame(c, payload)|..] == rest;
  }

  /** Neither the rate limit nor the context interferes with `n` turns. */
  predicate Unhindered(gates: Gates, turn: nat, n: nat) {
    forall t :: turn <= t < turn + n ==> Open(gates(t))
  }

  lemma {:induction false} AllArrivedIffReadable(c: Codec, msgs: seq<Msg>, gates: Gates, turn: nat)
    requires AllMarshal(c, msgs) && Unhindered(gates, turn, |msgs|)
    ensures Arrived(c, msgs, |Stream(c, msgs)|, gates, turn) == |msgs| <==>
            forall i :: 0 <= i < |msgs| ==> MsgReadable(c, msgs[i])
    decreases |msgs|
  {
    if msgs != [] {
      AllArrivedIffReadable(c, msgs[1..], gates, turn + 1);
      assert |Stream(c, msgs)| - |MsgBytes(c, msgs[0])| == |Stream(c, msgs[1..])|;
      assert forall i :: 1 <= i < |msgs| ==> msgs[i] == msgs[1..][i - 1];
    }
  }

  /**
    An intact stream delivers every message if and only if every header and every piece of
    synchronisation data leaves 16 bytes of the reader's buffer free. A writer may fill its
    own buffer to the last byte, so it can send messages that no reader accepts.
   */
  lemma IntactStreamDeliversAllIffReadable(c: Codec, msgs: seq<Msg>, gates: Gates, turn: nat)
    requires Lawful(c) && AllMarshal(c, msgs) && Unhindered(gates, turn, |msgs|)
    requires forall i :: 0 <= i < |msgs| ==> MsgFits(c, msgs[i])
    ensures Deliver(c, Stream(c, msgs), gates, turn) == ReceivedAll(msgs) <==>
            forall i :: 0 <= i < |msgs| ==> MsgReadable(c, msgs[i])
  {
    ReaderDeliversPrefix(c, msgs, Stream(c, msgs), gates, turn);
    AllArrivedIffReadable(c, msgs, gates, turn);
    var k := Arrived(c, msgs, |Stream(c, msgs)|, gates, turn);
    assert k == |msgs| ==> msgs[..k] == msgs;
    assert |ReceivedAll(msgs[..k])| == k;
  }

  // ----- a codec that obeys the laws, and a message that no reader of it accepts

  const Tag: Data := [0, 0, 0, 0, 0, 0, 0, 0, 0, 0, 0, 0, 0, 0, 0, 0]

  function SealWithTag(p: Data): Data {
    p + Tag
  }

  function OpenWithTag(b: Data): Option<Data> {
    if |b| >= SEAL_OVERHEAD && b[|b| - SEAL_OVERHEAD..] == Tag then Some(b[..|b| - SEAL_OVERHEAD]) else None
  }

  /** Version and kind as one byte each, then the data; a recipient is not supported. */
  function MarshalShort(h: Header): Option<Data> {
    if 0 <= h.version < 256 && 0 <= h.kind < 256 && h.to == [] then Some([h.version as Byte, h.kind as Byte] + h.data)
    else None
  }

  function UnmarshalShort(b: Data): Option<Header> {
    if |b| >= 2 then Some(Header(b[0] as int, b[1] as int, [], b[2..])) else None
  }

  function Short(maxMessageSize: nat): Codec {
    Codec(maxMessageSize, SealWithTag, OpenWithTag, MarshalShort, UnmarshalShort)
  }

  lemma ShortIsLawful(maxMessageSize: nat)
    ensures Lawful(Short(maxMessageSize))
  {
    var c := Short(maxMessageSize);
    assert forall p :: c.seal(p) == p + Tag;
    forall p
      ensures c.open(c.seal(p)) == Some(p)
    {
      assert (p + Tag)[|p|..] == Tag && (p + Tag)[..|p|] == p;
    }
    forall h | c.marshal(h).Some?
      ensures c.unmarshal(c.marshal(h).value) == Some(h)
    {
      var b := c.marshal(h).value;
      assert b[2..] == h.data;
    }
  }

  /** A header of five bytes goes into a buffer of twenty and is sent, and is never delivered. */
  lemma LargeMessageIsUnreadable(gates: Gates) returns (c: Codec, m: Msg)
    ensures Lawful(c) && CanMarshal(c, m) && MsgFits(c, m) && AllMarshal(c, [m])
    ensures |c.marshal(m.header).value| <= c.maxMessageSize && !MsgReadable(c, m)
    ensures Deliver(c, Stream(c, [m]), gates, 0) == []
  {
    c, m := Short(20), Msg(Header(1, 1, [], [1, 2, 3]), []);
    ShortIsLawful(20);
    assert |c.marshal(m.header).value| == 5;
    assert !MsgReadable(c, m);
    ReaderDeliversPrefix(c, [m], Stream(c, [m]), gates, 0);
  }
}
