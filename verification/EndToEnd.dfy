/**
  One channel from end to end, over all the connections that it went through: what the readers
  at the other end deliver, one connection after the other, is what the writer was given.
 */
module EndToEnd {
  import opened Wrappers
  import opened Framing
  import opened WriteLoop
  import I = Inbound

  /** The connections in the order in which they were attached. */
  function Attached(s: State): seq<Conn> {
    s.quits + OneOf(s.writer)
  }

  /** The messages flushed to the connections `ws`, one connection after the other. */
  function Sequence(flushed: seq<(Conn, Msg)>, ws: seq<Conn>): seq<Msg> {
    if ws == [] then [] else Sequence(flushed, ws[..|ws| - 1]) + On(flushed, ws[|ws| - 1])
  }

  lemma SequenceSnoc(flushed: seq<(Conn, Msg)>, ws: seq<Conn>, w: Conn)
    ensures Sequence(flushed, ws + [w]) == Sequence(flushed, ws) + On(flushed, w)
  {
    assert (ws + [w])[..|ws|] == ws;
  }

  lemma {:induction false} SequenceCons(flushed: seq<(Conn, Msg)>, ws: seq<Conn>)
    requires ws != []
    ensures Sequence(flushed, ws) == On(flushed, ws[0]) + Sequence(flushed, ws[1..])
  {
    var init, last := ws[..|ws| - 1], ws[|ws| - 1];
    if init == [] {
      assert Sequence(flushed, init) == [];
      assert On(flushed, last) + [] == [] + On(flushed, last);
    } else {
      SequenceCons(flushed, init);
      assert ws[1..][..|ws| - 2] == init[1..];
    }
  }

  /** A message flushed to a connection that is not among `ws`. */
  lemma {:induction false} SequenceElsewhere(flushed: seq<(Conn, Msg)>, ws: seq<Conn>, w: Conn, m: Msg)
    requires w !in ws
    ensures Sequence(flushed + [(w, m)], ws) == Sequence(flushed, ws)
  {
    if ws != [] {
      SequenceElsewhere(flushed, ws[..|ws| - 1], w, m);
      OnSnoc(flushed, w, m, ws[|ws| - 1]);
    }
  }

  /** A message flushed to the last of `ws` comes last. */
  lemma SequenceFlush(flushed: seq<(Conn, Msg)>, ws: seq<Conn>, w: Conn, m: Msg)
    requires ws != [] && ws[|ws| - 1] == w && w !in ws[..|ws| - 1]
    ensures Sequence(flushed + [(w, m)], ws) == Sequence(flushed, ws) + [m]
  {
    SequenceElsewhere(flushed, ws[..|ws| - 1], w, m);
    OnSnoc(flushed, w, m, w);
  }

  // ----- the order of connections is the order of messages

  /** What comes after connection number `i`: the messages flushed later, and the pending one. */
  function Later(s: State, ws: seq<Conn>, i: nat): seq<Msg>
    requires i < |ws|
  {
    Sequence(s.flushed, ws[i + 1..]) + OneOf(s.pending)
  }

  /** The message that failed on a connection is the next one after it. */
  ghost predicate Retried(s: State, ws: seq<Conn>) {
    forall i :: 0 <= i < |ws| && ws[i] in s.cut ==> Later(s, ws, i) != [] && Later(s, ws, i)[0] == s.cut[ws[i]]
  }

  /** Connections in the order of attachment hold the messages in the order of flushing. */
  ghost predicate Aligned(s: State) {
    Sequence(s.flushed, Attached(s)) == Messages(s.flushed) && Retried(s, Attached(s))
  }

  ghost predicate InTurn(c: Codec, s: State) {
    Ordered(c, s) && QuitsOnce(s) && WiresOk(c, s) && Aligned(s)
  }

  lemma AttachInTurn(s: State, s': State, w: Conn)
    requires Aligned(s)
    requires w !in s.cut && On(s.flushed, w) == []
    requires s'.flushed == s.flushed && s'.pending == s.pending && s'.cut == s.cut
    requires Attached(s') == Attached(s) + [w]
    ensures Aligned(s')
  {
    var ws, ws' := Attached(s), Attached(s');
    SequenceSnoc(s.flushed, ws, w);
    forall i | 0 <= i < |ws'| && ws'[i] in s.cut
      ensures Later(s', ws', i) != [] && Later(s', ws', i)[0] == s.cut[ws'[i]]
    {
      assert i < |ws| && ws'[i] == ws[i];
      LaterAfterAttach(s, s', ws, w, i);
    }
  }

  lemma LaterAfterAttach(s: State, s': State, ws: seq<Conn>, w: Conn, i: nat)
    requires s'.flushed == s.flushed && s'.pending == s.pending && On(s.flushed, w) == [] && i < |ws|
    ensures Later(s', ws + [w], i) == Later(s, ws, i)
  {
    assert (ws + [w])[i + 1..] == ws[i + 1..] + [w];
    SequenceSnoc(s.flushed, ws[i + 1..], w);
    assert Sequence(s.flushed, ws[i + 1..]) + [] == Sequence(s.flushed, ws[i + 1..]);
  }

  lemma WriterIsLast(s: State, w: Conn)
    requires QuitsOnce(s) && s.writer == Some(w)
    ensures var ws := Attached(s); ws != [] && ws[|ws| - 1] == w && w !in ws[..|ws| - 1]
  {
    assert Attached(s)[..|s.quits|] == s.quits;
  }

  /** A later suffix of the connections, when a message is flushed to the last of them. */
  lemma SuffixFlush(flushed: seq<(Conn, Msg)>, ws: seq<Conn>, i: nat, w: Conn, m: Msg)
    requires i + 1 < |ws| && ws[|ws| - 1] == w && w !in ws[..|ws| - 1]
    ensures Sequence(flushed + [(w, m)], ws[i + 1..]) == Sequence(flushed, ws[i + 1..]) + [m]
  {
    var later := ws[i + 1..];
    assert later[..|later| - 1] == ws[..|ws| - 1][i + 1..];
    SequenceFlush(flushed, later, w, m);
  }

  /** The pending message, if there is one, is `m`; with `m` behind them, the later messages begin the same. */
  lemma SameNext(before: seq<Msg>, pending: Option<Msg>, m: Msg)
    requires before + OneOf(pending) != [] && (pending.Some? ==> pending.value == m)
    ensures (before + [m])[0] == (before + OneOf(pending))[0]
  {
  }

  lemma FlushInTurn(s: State, s': State, w: Conn, m: Msg)
    requires QuitsOnce(s) && s.writer == Some(w) && w !in s.cut && (s.pending.Some? ==> s.pending.value == m)
    requires Aligned(s)
    requires s'.flushed == s.flushed + [(w, m)] && s'.pending == None && s'.cut == s.cut
    requires s'.quits == s.quits && s'.writer == s.writer
    ensures Aligned(s')
  {
    var ws := Attached(s);
    WriterIsLast(s, w);
    SequenceFlush(s.flushed, ws, w, m);
    assert Messages(s'.flushed) == Messages(s.flushed) + [m];
    forall i | 0 <= i < |ws| && ws[i] in s.cut
      ensures Later(s', ws, i) != [] && Later(s', ws, i)[0] == s.cut[ws[i]]
    {
      SuffixFlush(s.flushed, ws, i, w, m);
      SameNext(Sequence(s.flushed, ws[i + 1..]), s.pending, m);
      assert Later(s', ws, i) == Sequence(s.flushed, ws[i + 1..]) + [m];
    }
  }

  lemma FaultInTurn(s: State, s': State, w: Conn, m: Msg)
    requires QuitsOnce(s) && s.writer == Some(w) && w !in s.cut && (s.pending.Some? ==> s.pending.value == m)
    requires Aligned(s)
    requires s'.flushed == s.flushed && s'.pending == Some(m) && s'.cut == s.cut[w := m]
    requires s'.quits == s.quits + [w] && s'.writer == None
    ensures Aligned(s')
  {
    var ws := Attached(s);
    WriterIsLast(s, w);
    assert Attached(s') == ws;
    forall i | 0 <= i < |ws| && ws[i] in s'.cut
      ensures Later(s', ws, i) != [] && Later(s', ws, i)[0] == s'.cut[ws[i]]
    {
      if i == |ws| - 1 {
        assert ws[i + 1..] == [] && Sequence(s.flushed, ws[i + 1..]) == [];
      } else {
        assert ws[i] in ws[..|ws| - 1];
        SameNext(Sequence(s.flushed, ws[i + 1..]), s.pending, m);
      }
    }
  }

  lemma AttemptInTurn(c: Codec, s: State, w: Conn, m: Msg, fault: Fault)
    requires QuitsOnce(s) && s.writer == Some(w) && w in s.wires && w !in s.cut
    requires (s.pending.Some? ==> s.pending.value == m) && (!CanMarshal(c, m) ==> s.pending.None?)
    requires Aligned(s)
    ensures Aligned(Attempt(c, s, w, m, fault))
  {
    var s' := Attempt(c, s, w, m, fault);
    if CanMarshal(c, m) {
      if Fails(m, fault) {
        FaultInTurn(s, s', w, m);
      } else {
        FlushInTurn(s, s', w, m);
      }
    } else {
      SameTurn(s, s');
    }
  }

  /** Nothing that the order depends on has changed. */
  lemma SameTurn(s: State, s': State)
    requires Aligned(s)
    requires s'.flushed == s.flushed && s'.pending == s.pending && s'.cut == s.cut && Attached(s') == Attached(s)
    ensures Aligned(s')
  {
    forall i | 0 <= i < |Attached(s)| && Attached(s)[i] in s.cut
      ensures Later(s', Attached(s), i) == Later(s, Attached(s), i)
    {
    }
  }

  lemma PendingInTurn(c: Codec, s: State, w: Conn, fault: Fault)
    requires InTurn(c, s) && s.running && s.writer == Some(w) && s.pending.Some?
    ensures Aligned(Step(c, s, Turn(fault)))
  {
    AttemptInTurn(c, s, w, s.pending.value, fault);
    PendingStep(c, s, w, fault);
  }

  lemma PendingStep(c: Codec, s: State, w: Conn, fault: Fault)
    requires s.running && s.writer == Some(w) && w in s.wires && s.pending.Some?
    ensures Step(c, s, Turn(fault)) == Attempt(c, s, w, s.pending.value, fault)
  {
  }

  lemma TakenInTurn(c: Codec, s: State, w: Conn, fault: Fault)
    requires InTurn(c, s) && s.running && s.writer == Some(w) && s.pending.None? && s.taken < |s.outbound|
    ensures Aligned(Step(c, s, Turn(fault)))
  {
    var s1 := s.(taken := s.taken + 1);
    SameTurn(s, s1);
    QuitsStay(s, s1);
    AttemptInTurn(c, s1, w, s.outbound[s.taken], fault);
    TakenStep(c, s, s1, w, fault);
  }

  lemma QuitsStay(s: State, s1: State)
    requires QuitsOnce(s) && s1 == s.(taken := s1.taken)
    ensures QuitsOnce(s1)
  {
  }

  /** A turn that takes a message is an attempt to write it. */
  lemma TakenStep(c: Codec, s: State, s1: State, w: Conn, fault: Fault)
    requires s.running && s.writer == Some(w) && w in s.wires && s.pending.None? && s.taken < |s.outbound|
    requires s1 == s.(taken := s.taken + 1)
    ensures Step(c, s, Turn(fault)) == Attempt(c, s1, w, s.outbound[s.taken], fault)
  {
  }

  lemma TurnInTurn(c: Codec, s: State, fault: Fault)
    requires InTurn(c, s) && s.running
    ensures Aligned(Step(c, s, Turn(fault)))
  {
    if s.writer.Some? && s.pending.Some? {
      PendingInTurn(c, s, s.writer.value, fault);
    } else if s.writer.Some? && s.taken < |s.outbound| {
      TakenInTurn(c, s, s.writer.value, fault);
    } else {
      assert Step(c, s, Turn(fault)) == s;
    }
  }

  lemma StepInTurn(c: Codec, s: State, e: Event)
    requires InTurn(c, s)
    ensures InTurn(c, Step(c, s, e))
  {
    StepOrdered(c, s, e);
    StepQuitsOnce(c, s, e);
    StepWires(c, s, e);
    var s' := Step(c, s, e);
    if s.running && e.Turn? {
      TurnInTurn(c, s, e.fault);
    } else if s.running && e.Attach? && e.w !in s.wires {
      NothingOnFresh(s.flushed, e.w);
      AttachInTurn(s, s', e.w);
    } else {
      SameTurn(s, s');
    }
  }

  lemma {:induction false} InTurnAlongRun(c: Codec, outbound: seq<Msg>, events: seq<Event>)
    ensures InTurn(c, Run(c, outbound, events)) && Run(c, outbound, events).outbound == outbound
  {
    EveryMessageOnceInOrder(c, outbound, events);
    if events != [] {
      InTurnAlongRun(c, outbound, events[..|events| - 1]);
      StepInTurn(c, Run(c, outbound, events[..|events| - 1]), events[|events| - 1]);
    }
  }

  // ----- what arrives

  /** What has reached the other end: the bytes of each connection. */
  type Arrivals = map<Conn, Data>

  /** What the readers of the connections `ws` deliver, one part for each. */
  function Parts(c: Codec, arrived: Arrivals, ws: seq<Conn>, gates: Gates): seq<seq<Msg>>
    requires forall w :: w in ws ==> w in arrived
  {
    if ws == [] then [] else [Deliver(c, arrived[ws[0]], gates, 0)] + Parts(c, arrived, ws[1..], gates)
  }

  /** The same, one connection after the other. */
  function DeliveredOver(c: Codec, arrived: Arrivals, ws: seq<Conn>, gates: Gates): seq<Msg>
    requires forall w :: w in ws ==> w in arrived
  {
    if ws == [] then [] else Deliver(c, arrived[ws[0]], gates, 0) + DeliveredOver(c, arrived, ws[1..], gates)
  }

  /**
    Some prefix of the bytes of connection `w` has arrived, with at least those of the messages
    that were flushed in full.
   */
  ghost predicate FlushedArrived(c: Codec, s: State, arrived: Arrivals, w: Conn) {
    && w in arrived && w in s.wires && AllMarshal(c, On(s.flushed, w))
    && Stream(c, On(s.flushed, w)) <= arrived[w] <= s.wires[w]
  }

  /**
    `d` is `m` with at most `n` repetitions: every message of `m` in order, none left out, and
    a repeated one directly after itself.
   */
  predicate Repeats(d: seq<Msg>, m: seq<Msg>, n: nat) {
    if d == [] || m == [] then d == m
    else
      && d[0] == m[0]
      && (Repeats(d[1..], m[1..], n) || (n > 0 && Repeats(d[1..], m, n - 1)))
  }

  function Cuts(s: State, ws: seq<Conn>): nat {
    if ws == [] then 0 else (if ws[0] in s.cut then 1 else 0) + Cuts(s, ws[1..])
  }

  lemma {:induction false} RepeatsSelf(m: seq<Msg>)
    ensures Repeats(m, m, 0)
  {
    if m != [] {
      RepeatsSelf(m[1..]);
    }
  }

  lemma {:induction false} RepeatsMore(d: seq<Msg>, m: seq<Msg>, n: nat)
    requires Repeats(d, m, n)
    ensures Repeats(d, m, n + 1)
  {
    if d != [] && m != [] {
      if Repeats(d[1..], m[1..], n) {
        RepeatsMore(d[1..], m[1..], n);
      } else {
        RepeatsMore(d[1..], m, n - 1);
      }
    }
  }

  lemma {:induction false} RepeatsAfter(prefix: seq<Msg>, d: seq<Msg>, m: seq<Msg>, n: nat)
    requires Repeats(d, m, n)
    ensures Repeats(prefix + d, prefix + m, n)
  {
    if prefix == [] {
      assert prefix + d == d && prefix + m == m;
    } else {
      RepeatsAfter(prefix[1..], d, m, n);
      assert (prefix + d)[1..] == prefix[1..] + d && (prefix + m)[1..] == prefix[1..] + m;
    }
  }

  lemma RepeatsOnce(x: Msg, d: seq<Msg>, m: seq<Msg>, n: nat)
    requires Repeats(d, m, n) && m != [] && m[0] == x
    ensures Repeats([x] + d, m, n + 1)
  {
    assert ([x] + d)[1..] == d;
  }

  lemma ReceivedAllConcat(a: seq<Msg>, b: seq<Msg>)
    ensures ReceivedAll(a + b) == ReceivedAll(a) + ReceivedAll(b)
  {
  }

  /** All that was written in full before is counted as arrived. */
  lemma {:induction false} ArrivedAtLeast(c: Codec, a: seq<Msg>, b: seq<Msg>, n: nat, gates: Gates, turn: nat)
    requires AllMarshal(c, a) && AllMarshal(c, a + b) && |Stream(c, a)| <= n
    requires forall i :: 0 <= i < |a| ==> MsgReadable(c, a[i])
    requires Unhindered(gates, turn, |a|)
    ensures Arrived(c, a + b, n, gates, turn) >= |a|
    decreases |a|
  {
    if a != [] {
      assert (a + b)[0] == a[0] && (a + b)[1..] == a[1..] + b;
      ArrivedAtLeast(c, a[1..], b, n - |MsgBytes(c, a[0])|, gates, turn + 1);
    }
  }

  /** Every message that is written and can be marshalled fits, and can be read at the other end. */
  ghost predicate AllReadable(c: Codec, s: State, w: Conn) {
    forall m :: m in WrittenTo(s, w) && CanMarshal(c, m) ==> MsgFits(c, m) && MsgReadable(c, m)
  }

  ghost predicate AllOpen(gates: Gates) {
    forall t :: Open(gates(t))
  }

  /** One connection delivers all that was flushed to it, and perhaps the message that failed on it. */
  lemma ConnectionDelivers(c: Codec, s: State, w: Conn, b: Data, gates: Gates)
    requires Lawful(c) && WireOk(c, s, w) && AllReadable(c, s, w) && AllOpen(gates)
    requires Stream(c, On(s.flushed, w)) <= b <= s.wires[w]
    ensures var on := On(s.flushed, w);
            || Deliver(c, b, gates, 0) == ReceivedAll(on)
            || (w in s.cut && Deliver(c, b, gates, 0) == ReceivedAll(on) + [Received(s.cut[w])])
  {
    var on, all := On(s.flushed, w), WrittenTo(s, w);
    var rest := all[|on|..];
    var k := Arrived(c, all, |b|, gates, 0);
    WireDelivers(c, s, w, b, gates);
    assert all == on + rest;
    forall i | 0 <= i < |on|
      ensures MsgReadable(c, on[i])
    {
      assert on[i] == all[i] && CanMarshal(c, all[i]);
    }
    ArrivedAtLeast(c, on, rest, |b|, gates, 0);
    if k == |on| {
      assert all[..k] == on;
    } else {
      assert k == |all| == |on| + 1 && all[..k] == on + [s.cut[w]];
      ReceivedAllConcat(on, [s.cut[w]]);
    }
  }

  /** The messages to come, with or without the pending one. */
  function Target(s: State, ws: seq<Conn>, withPending: bool): seq<Msg> {
    ReceivedAll(Sequence(s.flushed, ws) + if withPending then OneOf(s.pending) else [])
  }

  /** One connection more in front. */
  lemma OneMoreDelivers(c: Codec, s: State, arrived: Arrivals, ws: seq<Conn>, gates: Gates, withPending: bool)
    returns (p: bool)
    requires ws != [] && forall w :: w in ws ==> w in arrived
    requires Lawful(c) && WireOk(c, s, ws[0]) && AllReadable(c, s, ws[0]) && AllOpen(gates)
    requires FlushedArrived(c, s, arrived, ws[0])
    requires ws[0] in s.cut ==> Later(s, ws, 0) != [] && Later(s, ws, 0)[0] == s.cut[ws[0]]
    requires Repeats(DeliveredOver(c, arrived, ws[1..], gates), Target(s, ws[1..], withPending), Cuts(s, ws[1..]))
    ensures Repeats(DeliveredOver(c, arrived, ws, gates), Target(s, ws, p), Cuts(s, ws))
  {
    var w, on, n := ws[0], ReceivedAll(On(s.flushed, ws[0])), Cuts(s, ws[1..]);
    var d, first := DeliveredOver(c, arrived, ws[1..], gates), Deliver(c, arrived[ws[0]], gates, 0);
    ConnectionDelivers(c, s, w, arrived[w], gates);
    assert DeliveredOver(c, arrived, ws, gates) == first + d;
    if first == on {
      p := withPending;
      PlainRepeats(s, ws, d, p, n);
    } else {
      p := withPending || Target(s, ws[1..], withPending) == [];
      RetryRepeats(s, ws, d, withPending, p, n);
      BehindRetry(s, ws, d, p, n);
    }
  }

  /** A connection that delivers just what was flushed to it. */
  lemma PlainRepeats(s: State, ws: seq<Conn>, d: seq<Msg>, p: bool, n: nat)
    requires ws != [] && n == Cuts(s, ws[1..]) && Repeats(d, Target(s, ws[1..], p), n)
    ensures Repeats(ReceivedAll(On(s.flushed, ws[0])) + d, Target(s, ws, p), Cuts(s, ws))
  {
    var on := ReceivedAll(On(s.flushed, ws[0]));
    TargetCons(s, ws, p);
    RepeatsAfter(on, d, Target(s, ws[1..], p), n);
    if ws[0] in s.cut {
      RepeatsMore(on + d, Target(s, ws, p), n);
    }
  }

  /** A connection that also delivers the message that failed on it. */
  lemma BehindRetry(s: State, ws: seq<Conn>, d: seq<Msg>, p: bool, n: nat)
    requires ws != [] && ws[0] in s.cut && n == Cuts(s, ws[1..])
    requires Repeats([Received(s.cut[ws[0]])] + d, Target(s, ws[1..], p), n + 1)
    ensures Repeats(ReceivedAll(On(s.flushed, ws[0])) + [Received(s.cut[ws[0]])] + d, Target(s, ws, p), Cuts(s, ws))
  {
    var on, x := ReceivedAll(On(s.flushed, ws[0])), Received(s.cut[ws[0]]);
    TargetCons(s, ws, p);
    RepeatsAfter(on, [x] + d, Target(s, ws[1..], p), n + 1);
    assert on + [x] + d == on + ([x] + d);
  }

  lemma TargetCons(s: State, ws: seq<Conn>, p: bool)
    requires ws != []
    ensures Target(s, ws, p) == ReceivedAll(On(s.flushed, ws[0])) + Target(s, ws[1..], p)
  {
    var tail := if p then OneOf(s.pending) else [];
    SequenceCons(s.flushed, ws);
    var on, later := On(s.flushed, ws[0]), Sequence(s.flushed, ws[1..]);
    assert on + later + tail == on + (later + tail);
    ReceivedAllConcat(on, later + tail);
  }

  /** A message that arrived although it failed comes before its own retry. */
  lemma RetryRepeats(s: State, ws: seq<Conn>, d: seq<Msg>, before: bool, p: bool, n: nat)
    requires ws != [] && ws[0] in s.cut && Later(s, ws, 0) != [] && Later(s, ws, 0)[0] == s.cut[ws[0]]
    requires Repeats(d, Target(s, ws[1..], before), n)
    requires p == (before || Target(s, ws[1..], before) == [])
    ensures Repeats([Received(s.cut[ws[0]])] + d, Target(s, ws[1..], p), n + 1)
  {
    var x, later := Received(s.cut[ws[0]]), Sequence(s.flushed, ws[1..]);
    assert later + [] == later;
    if p == before {
      assert Target(s, ws[1..], p)[0] == x;
      RepeatsOnce(x, d, Target(s, ws[1..], p), n);
    } else {
      assert later == [] && later + OneOf(s.pending) == [s.cut[ws[0]]];
      assert [x] + d == [x] && Target(s, ws[1..], p) == [x];
      RepeatsSelf([x]);
      RepeatsUpTo([x], [x], n + 1);
    }
  }

  lemma {:induction false} RepeatsUpTo(d: seq<Msg>, m: seq<Msg>, n: nat)
    requires Repeats(d, m, 0)
    ensures Repeats(d, m, n)
  {
    if n > 0 {
      RepeatsUpTo(d, m, n - 1);
      RepeatsMore(d, m, n - 1);
    }
  }

  lemma {:induction false} SuffixDelivers(c: Codec, s: State, arrived: Arrivals, ws: seq<Conn>, gates: Gates)
    returns (p: bool)
    requires Lawful(c) && AllOpen(gates) && Retried(s, ws)
    requires forall w :: w in ws ==> w in arrived
    requires forall w :: w in ws ==> FlushedArrived(c, s, arrived, w) && WireOk(c, s, w) && AllReadable(c, s, w)
    ensures Repeats(DeliveredOver(c, arrived, ws, gates), Target(s, ws, p), Cuts(s, ws))
    decreases |ws|
  {
    p := false;
    if ws == [] {
      assert Target(s, ws, false) == [];
    } else {
      RetriedTail(s, ws);
      p := SuffixDelivers(c, s, arrived, ws[1..], gates);
      p := OneMoreDelivers(c, s, arrived, ws, gates, p);
    }
  }

  lemma RetriedTail(s: State, ws: seq<Conn>)
    requires ws != [] && Retried(s, ws)
    ensures Retried(s, ws[1..])
  {
    var tail := ws[1..];
    forall i | 0 <= i < |tail| && tail[i] in s.cut
      ensures Later(s, tail, i) != [] && Later(s, tail, i)[0] == s.cut[tail[i]]
    {
      assert tail[i] == ws[i + 1] && tail[i + 1..] == ws[i + 1 + 1..];
      assert Later(s, ws, i + 1) == Later(s, tail, i);
    }
  }

  // ----- what is written was given to the channel

  lemma {:induction false} OnIsFlushed(flushed: seq<(Conn, Msg)>, w: Conn, m: Msg)
    requires m in On(flushed, w)
    ensures m in Messages(flushed)
  {
    var last := |flushed| - 1;
    var init := flushed[..last];
    if m in On(init, w) {
      OnIsFlushed(init, w, m);
      var i :| 0 <= i < |Messages(init)| && Messages(init)[i] == m;
      assert Messages(flushed)[i] == m;
    } else {
      assert Messages(flushed)[last] == m;
    }
  }

  lemma {:induction false} MarshalableIsGiven(c: Codec, msgs: seq<Msg>, m: Msg)
    requires m in Marshalable(c, msgs)
    ensures m in msgs
  {
    if m in Marshalable(c, msgs[..|msgs| - 1]) {
      MarshalableIsGiven(c, msgs[..|msgs| - 1], m);
    }
  }

  lemma {:induction false} SequenceIsFlushed(flushed: seq<(Conn, Msg)>, ws: seq<Conn>, m: Msg)
    requires m in Sequence(flushed, ws)
    ensures m in Messages(flushed)
  {
    if m in Sequence(flushed, ws[..|ws| - 1]) {
      SequenceIsFlushed(flushed, ws[..|ws| - 1], m);
    } else {
      OnIsFlushed(flushed, ws[|ws| - 1], m);
    }
  }

  lemma FlushedOrPendingIsGiven(c: Codec, s: State, m: Msg)
    requires Ordered(c, s) && (m in Messages(s.flushed) || m in OneOf(s.pending))
    ensures m in s.outbound
  {
    if m in Messages(s.flushed) {
      MarshalableIsGiven(c, s.finished, m);
    }
    assert m in s.finished + OneOf(s.pending);
    assert m in s.outbound[..s.taken];
  }

  lemma WrittenIsGiven(c: Codec, s: State, w: Conn, m: Msg)
    requires InTurn(c, s) && w in Attached(s) && m in WrittenTo(s, w)
    ensures m in s.outbound
  {
    if m in On(s.flushed, w) {
      OnIsFlushed(s.flushed, w, m);
    } else {
      var ws := Attached(s);
      var i :| 0 <= i < |ws| && ws[i] == w;
      assert m == s.cut[w] == Later(s, ws, i)[0];
      if m !in OneOf(s.pending) {
        assert m in Sequence(s.flushed, ws[i + 1..]);
        SequenceIsFlushed(s.flushed, ws[i + 1..], m);
      }
    }
    FlushedOrPendingIsGiven(c, s, m);
  }

  /** Every message that is written to a connection of the channel is readable. */
  lemma AllWrittenIsReadable(c: Codec, s: State, w: Conn)
    requires InTurn(c, s) && w in Attached(s)
    requires forall m :: m in s.outbound && CanMarshal(c, m) ==> MsgFits(c, m) && MsgReadable(c, m)
    ensures WireOk(c, s, w) && AllReadable(c, s, w)
  {
    forall m | m in WrittenTo(s, w) && CanMarshal(c, m)
      ensures MsgFits(c, m) && MsgReadable(c, m)
    {
      WrittenIsGiven(c, s, w, m);
    }
  }

  /**
    For every schedule of faults and replacements, and whatever part of a failed message gets
    through: if the bytes of all flushed messages arrive, nothing hinders the readers and every
    message given to the channel is readable, then what the readers deliver, connection by
    connection in the order of attachment, is the marshalable messages that are finished, in
    order and none left out, with at most one repetition for every connection that failed; the
    pending message may have arrived as well.
   */
  lemma ConnectionsDeliverAll(c: Codec, outbound: seq<Msg>, events: seq<Event>, arrived: Arrivals, gates: Gates)
    returns (pending: bool)
    requires Lawful(c) && AllOpen(gates)
    requires forall m :: m in outbound && CanMarshal(c, m) ==> MsgFits(c, m) && MsgReadable(c, m)
    requires forall w :: w in Run(c, outbound, events).wires ==> w in arrived
    requires forall w :: w in Run(c, outbound, events).wires ==>
               FlushedArrived(c, Run(c, outbound, events), arrived, w)
    ensures var s := Run(c, outbound, events);
            var ws := Attached(s);
            && (forall w :: w in ws <==> w in s.wires)
            && Repeats(DeliveredOver(c, arrived, ws, gates),
                       ReceivedAll(Marshalable(c, s.finished) + if pending then OneOf(s.pending) else []),
                       Cuts(s, ws))
  {
    var s := Run(c, outbound, events);
    var ws := Attached(s);
    InTurnAlongRun(c, outbound, events);
    forall w | w in ws
      ensures WireOk(c, s, w) && AllReadable(c, s, w)
    {
      AllWrittenIsReadable(c, s, w);
    }
    pending := SuffixDelivers(c, s, arrived, ws, gates);
  }

  // ----- readers beside each other

  function Unmark(m: seq<(nat, Msg)>): seq<Msg> {
    seq(|m|, i requires 0 <= i < |m| => m[i].1)
  }

  lemma {:induction false} MarkedIsDelivered(c: Codec, arrived: Arrivals, ws: seq<Conn>, gates: Gates, from: nat)
    requires forall w :: w in ws ==> w in arrived
    ensures Unmark(I.Marked(Parts(c, arrived, ws, gates), from)) == DeliveredOver(c, arrived, ws, gates)
    decreases |ws|
  {
    if ws != [] {
      var first, parts := Deliver(c, arrived[ws[0]], gates, 0), Parts(c, arrived, ws, gates);
      MarkedIsDelivered(c, arrived, ws[1..], gates, from + 1);
      assert parts[0] == first && parts[1..] == Parts(c, arrived, ws[1..], gates);
      var marked, rest := I.Mark(first, from), I.Marked(parts[1..], from + 1);
      assert Unmark(marked + rest) == Unmark(marked) + Unmark(rest);
      assert Unmark(marked) == first;
    }
  }

  /**
    A reader that has been replaced goes on beside its successors, so that the channel receives
    some merge of what they deliver. It receives the messages in the order of the connections if
    and only if every reader has stopped before a later one delivers, and then what it receives
    is what they deliver one after the other.
   */
  lemma ReceivedInOrderIff(
    c: Codec, arrived: Arrivals, ws: seq<Conn>, gates: Gates, schedule: seq<nat>, m: seq<(nat, Msg)>)
    requires forall w :: w in ws ==> w in arrived
    requires I.Merge(Parts(c, arrived, ws, gates), schedule) == Some(m)
    ensures m == I.Marked(Parts(c, arrived, ws, gates), 0) <==> I.OneAfterTheOther(schedule)
    ensures I.OneAfterTheOther(schedule) ==> Unmark(m) == DeliveredOver(c, arrived, ws, gates)
  {
    I.InOrderIffOneAfterTheOther(Parts(c, arrived, ws, gates), schedule, m);
    MarkedIsDelivered(c, arrived, ws, gates, 0);
  }
}
