/** The encoders, the decoders and the read loop as code over a byte stream. */
module Connection {
  import opened Wrappers
  import opened Bytes
  import opened Identity
  import opened BigEndian
  import opened Framing
  import K = ReadControl

  // ----- the nonces of a session

  datatype Nonce = Nonce(top: nat, bottom: nat)

  datatype Session = Session(readNonce: Nonce, writeNonce: Nonce)

  const FIRST: Nonce := Nonce(0, 0)
  const LAST: Nonce := Nonce(0xFFFF_FFFF, 0xFFFF_FFFF_FFFF_FFFF)

  function NewSession(self: Signatory, remote: Signatory): Session {
    if Compare(self, remote) == Less then Session(FIRST, LAST) else Session(LAST, FIRST)
  }

  /** Two ends write under the nonce that the other reads under exactly when they differ. */
  lemma NoncesMatchIffDistinct(self: Signatory, remote: Signatory)
    ensures NewSession(self, remote).writeNonce == NewSession(remote, self).readNonce <==> self != remote
    ensures NewSession(self, remote).readNonce == NewSession(remote, self).writeNonce <==> self != remote
  {
    CompareIsAntisymmetric(self, remote);
  }

  /** The peer with the smaller number writes under the all-ones nonce, the other under zero. */
  lemma LesserWritesUnderLast(self: Signatory, remote: Signatory)
    ensures NewSession(self, remote).writeNonce ==
            if Value(self) < Value(remote) then Nonce(0xFFFF_FFFF, 0xFFFF_FFFF_FFFF_FFFF) else Nonce(0, 0)
    ensures NewSession(self, remote).readNonce ==
            if Value(self) < Value(remote) then Nonce(0, 0) else Nonce(0xFFFF_FFFF, 0xFFFF_FFFF_FFFF_FFFF)
  {
    CompareIsNumeric(self, remote);
  }

  // ----- encoders and decoders

  /** Data on a connection: those written so far, or those still to be read. */
  class Pipe {
    var bytes: Data

    constructor (bytes: Data)
      ensures this.bytes == bytes
    {
      this.bytes := bytes;
    }
  }

  method PlainEncode(w: Pipe, buf: Data)
    modifies w
    ensures w.bytes == old(w.bytes) + buf
  {
    w.bytes := w.bytes + buf;
  }

  method GCMEncode(w: Pipe, c: Codec, buf: Data)
    modifies w
    ensures w.bytes == old(w.bytes) + c.seal(buf)
  {
    PlainEncode(w, c.seal(buf));
  }

  method LengthPrefixEncode(w: Pipe, c: Codec, buf: Data)
    modifies w
    ensures w.bytes == old(w.bytes) + Frame(c, buf)
  {
    PlainEncode(w, Digits(|buf| % UINT32, 4));
    GCMEncode(w, c, buf);
  }

  /** Fills the first `n` bytes of `buf`, or takes all there is and fails. */
  method PlainDecode(r: Pipe, buf: array<Byte>, n: nat) returns (ok: bool)
    requires n <= buf.Length
    modifies r, buf
    ensures ok == (n <= |old(r.bytes)|)
    ensures ok ==> buf[..n] == old(r.bytes)[..n] && r.bytes == old(r.bytes)[n..]
    ensures !ok ==> r.bytes == []
  {
    var have := |r.bytes|;
    var i := 0;
    while i < n && i < have
      invariant i <= n && i <= have && r.bytes == old(r.bytes) && |r.bytes| == have
      invariant buf[..i] == r.bytes[..i]
    {
      buf[i] := r.bytes[i];
      i := i + 1;
    }
    ok := n <= have;
    r.bytes := r.bytes[i..];
  }

  /** Reads `n` sealed bytes of payload into `buf`, whose length is its capacity. */
  method GCMDecode(r: Pipe, c: Codec, buf: array<Byte>, n: nat) returns (got: Option<nat>)
    requires Lawful(c)
    modifies r, buf
    ensures var s := old(r.bytes);
            var end := n + SEAL_OVERHEAD;
            if end <= buf.Length && end <= |s| && c.open(s[..end]).Some?
            then got == Some(n) && buf[..n] == c.open(s[..end]).value && r.bytes == s[end..]
            else got == None
  {
    var extended := n + SEAL_OVERHEAD;
    if buf.Length < extended {
      return None;
    }
    var ok := PlainDecode(r, buf, extended);
    if !ok {
      return None;
    }
    var plain := c.open(buf[..extended]);
    if plain.None? {
      return None;
    }
    CopyInto(buf, plain.value);
    return Some(|plain.value|);
  }

  method CopyInto(buf: array<Byte>, src: Data)
    requires |src| <= buf.Length
    modifies buf
    ensures buf[..|src|] == src
  {
    for i := 0 to |src|
      invariant buf[..i] == src[..i]
    {
      buf[i] := src[i];
    }
  }

  /** One frame into `buf`, just as `ReadFrame` says. */
  method LengthPrefixDecode(r: Pipe, c: Codec, buf: array<Byte>) returns (got: Option<nat>)
    requires Lawful(c) && buf.Length == c.maxMessageSize
    modifies r, buf
    ensures match ReadFrame(c, old(r.bytes))
            case Failed => got == None
            case Got(payload, rest) =>
              got == Some(|payload|) && |payload| <= buf.Length && buf[..|payload|] == payload && r.bytes == rest
  {
    var s := r.bytes;
    var prefixBytes := new Byte[4];
    var ok := PlainDecode(r, prefixBytes, 4);
    if !ok {
      return None;
    }
    assert prefixBytes[..] == s[..4];
    var prefix := Value(prefixBytes[..]);
    if buf.Length % UINT32 < prefix {
      return None;
    }
    ghost var end := prefix + SEAL_OVERHEAD;
    if end <= |s[4..]| {
      assert s[4..][..end] == s[4..4 + end];
      assert s[4..][end..] == s[4 + end..];
    }
    got := GCMDecode(r, c, buf, prefix);
  }

  datatype Outcome = Delivered(msg: Msg) | Dropped | Stopped

  /** What a turn of the read loop comes to, given what the rate limit and the context say. */
  ghost predicate TurnIs(c: Codec, s: Data, gate: Gate, o: Outcome, left: Data) {
    match TakeTurn(c, s)
    case Ended => o == Stopped
    case Skipped(rest) => if gate.within then o == Dropped && left == rest else o == Stopped
    case Took(m, rest) => if Open(gate) then o == Delivered(m) && left == rest else o == Stopped
  }

  /**
    One turn of the read loop. Each of the four exits closes the quit channel for itself;
    `way` is the way taken through the turn.
   */
  method ReadTurn(r: Pipe, c: Codec, gate: Gate, buf: array<Byte>, bufSyncData: array<Byte>)
    returns (o: Outcome, quits: nat, ghost way: K.Way)
    requires Lawful(c) && buf.Length == bufSyncData.Length == c.maxMessageSize
    modifies r, buf, bufSyncData
    ensures TurnIs(c, old(r.bytes), gate, o, r.bytes)
    ensures (o.Stopped? <==> K.Leaves(way)) && (o.Delivered? <==> way.Delivery?)
    ensures quits == K.One(K.Leaves(way))
  {
    quits := 0;
    var n := LengthPrefixDecode(r, c, buf);
    if n.None? {
      quits, o, way := quits + 1, Stopped, K.NoFrame;
      return;
    }
    if !gate.within {
      quits, o, way := quits + 1, Stopped, K.TooFast;
      return;
    }
    var header := c.unmarshal(buf[..n.value]);
    if header.None? {
      o, way := Dropped, K.Unreadable;
      return;
    }
    var m := Msg(header.value, []);
    var sync := header.value.kind == MSG_TYPE_SYNC;
    if sync {
      n := LengthPrefixDecode(r, c, bufSyncData);
      if n.None? {
        quits, o, way := quits + 1, Stopped, K.NoSyncData;
        return;
      }
      m := m.(syncData := bufSyncData[..n.value]);
    }
    if gate.done {
      quits, o, way := quits + 1, Stopped, K.Cancelled(sync);
      return;
    }
    o, way := Delivered(m), K.Delivery(sync);
  }

  /**
    The read loop on one connection: it delivers what the stream, the rate limit and the
    context allow, and returns with its quit channel closed as often as its way says.
   */
  method ReadLoop(r: Pipe, c: Codec, gates: Gates) returns (delivered: seq<Msg>, quits: nat, ghost moves: seq<K.Move>)
    requires Lawful(c)
    modifies r
    ensures delivered == Deliver(c, old(r.bytes), gates, 0)
    ensures K.Follow(moves) == Some(K.Returned) && |delivered| == K.Deliveries(moves)
    ensures quits == K.CloseCount(moves) == 1
  {
    delivered, quits, moves := [], 0, [];
    var buf := new Byte[c.maxMessageSize];
    var bufSyncData := new Byte[c.maxMessageSize];
    var turn := 0;
    ghost var all := Deliver(c, r.bytes, gates, 0);
    while true
      invariant delivered + Deliver(c, r.bytes, gates, turn) == all
      invariant Underway(moves, |delivered|, quits, false)
      decreases |r.bytes|
    {
      ghost var s := r.bytes;
      var o, closed, way := ReadTurn(r, c, gates(turn), buf, bufSyncData);
      TurnDelivers(c, s, gates, turn, delivered, o, r.bytes);
      moves := Onward(moves, |delivered|, quits, way);
      quits := quits + closed;
      if o.Stopped? {
        K.ClosedOnceReturned(moves);
        return;
      }
      if o.Delivered? {
        delivered := delivered + [o.msg];
      }
      turn := turn + 1;
    }
  }

  /** The way so far, with what was delivered and closed along it. */
  ghost predicate Underway(moves: seq<K.Move>, delivered: nat, quits: nat, returned: bool) {
    && K.Follow(moves) == Some(if returned then K.Returned else K.AtDecode)
    && K.Deliveries(moves) == delivered && K.CloseCount(moves) == quits
  }

  lemma Onward(moves: seq<K.Move>, delivered: nat, quits: nat, way: K.Way) returns (moves': seq<K.Move>)
    requires Underway(moves, delivered, quits, false)
    ensures Underway(moves', delivered + K.One(way.Delivery?), quits + K.One(K.Leaves(way)), K.Leaves(way))
  {
    K.WayLeads(way);
    K.FollowConcat(moves, K.MovesOf(way));
    moves' := moves + K.MovesOf(way);
  }

  /** What one turn adds to what has been delivered. */
  lemma TurnDelivers(c: Codec, s: Data, gates: Gates, turn: nat, done: seq<Msg>, o: Outcome, left: Data)
    requires TurnIs(c, s, gates(turn), o, left)
    ensures done + Deliver(c, s, gates, turn) ==
            match o
            case Stopped => done
            case Dropped => done + Deliver(c, left, gates, turn + 1)
            case Delivered(m) => done + [m] + Deliver(c, left, gates, turn + 1)
    ensures !o.Stopped? ==> |left| < |s|
  {
    match o
    case Delivered(m) =>
      assert done + ([m] + Deliver(c, left, gates, turn + 1)) == done + [m] + Deliver(c, left, gates, turn + 1);
    case _ =>
  }
}
