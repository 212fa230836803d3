/**
  The write loop of a channel: messages go out over whichever connection is attached, and a
  message that fails is tried again on the next one.

  `State` holds what the loop works on and, for each connection, the bytes that reached it. A
  schedule is any sequence of events: which case of the select runs, and which writes fail.
 */
module WriteLoop {
  import opened Wrappers
  import opened Framing

  type Conn = nat

  /** Where an attempt to write a message fails, and how many bytes of that frame get out. */
  datatype Fault = NoFault | AtHeader(n: nat) | AtSyncData(n: nat)

  datatype Event = Done | Attach(w: Conn) | Turn(fault: Fault)

  /**
    `quits` lists the quit channels in the order of closing, `finished` the messages that the
    loop is done with, `flushed` those written in full with their connection, and `cut` the
    message that failed on a connection.
   */
  datatype State = State(
    outbound: seq<Msg>,
    taken: nat,
    writer: Option<Conn>,
    pending: Option<Msg>,
    wires: map<Conn, Data>,
    quits: seq<Conn>,
    finished: seq<Msg>,
    flushed: seq<(Conn, Msg)>,
    cut: map<Conn, Msg>,
    running: bool)

  function Start(outbound: seq<Msg>): State {
    State(outbound, 0, None, None, map[], [], [], [], map[], true)
  }

  function OneOf<T>(o: Option<T>): seq<T> {
    if o.Some? then [o.value] else []
  }

  function Clip(b: Data, n: nat): Data {
    if n < |b| then b[..n] else b
  }

  predicate Fails(m: Msg, fault: Fault) {
    fault.AtHeader? || (fault.AtSyncData? && IsSync(m))
  }

  /** The bytes that reach the connection when `m` is written under `fault`. */
  function Written(c: Codec, m: Msg, fault: Fault): Data
    requires CanMarshal(c, m)
  {
    var head := Frame(c, c.marshal(m.header).value);
    if fault.AtHeader? then Clip(head, fault.n)
    else if fault.AtSyncData? && IsSync(m) then head + Clip(Frame(c, m.syncData), fault.n)
    else MsgBytes(c, m)
  }

  /** An attempt to write `m` to connection `w`. */
  function Attempt(c: Codec, s: State, w: Conn, m: Msg, fault: Fault): State
    requires w in s.wires
  {
    if !CanMarshal(c, m) then s.(pending := None, finished := s.finished + [m])
    else
      var wires := s.wires[w := s.wires[w] + Written(c, m, fault)];
      if Fails(m, fault) then
        s.(wires := wires, quits := s.quits + [w], writer := None, pending := Some(m), cut := s.cut[w := m])
      else
        s.(wires := wires, pending := None, finished := s.finished + [m], flushed := s.flushed + [(w, m)])
  }

  /** One event; an event that the select cannot choose changes nothing. */
  function Step(c: Codec, s: State, e: Event): State {
    if !s.running then s
    else
      match e
      case Done => s.(quits := s.quits + OneOf(s.writer), writer := None, running := false)
      case Attach(w) =>
        if w in s.wires then s
        else s.(quits := s.quits + OneOf(s.writer), writer := Some(w), wires := s.wires[w := []])
      case Turn(fault) =>
        if s.writer.None? || s.writer.value !in s.wires then s
        else if s.pending.Some? then Attempt(c, s, s.writer.value, s.pending.value, fault)
        else if s.taken < |s.outbound| then
          Attempt(c, s.(taken := s.taken + 1), s.writer.value, s.outbound[s.taken], fault)
        else s
  }

  function Run(c: Codec, outbound: seq<Msg>, events: seq<Event>): State {
    if events == [] then Start(outbound)
    else Step(c, Run(c, outbound, events[..|events| - 1]), events[|events| - 1])
  }

  // ----- the loop as code

  method Loop(c: Codec, outbound: seq<Msg>, events: seq<Event>) returns (s: State)
    ensures s == Run(c, outbound, events)
  {
    var w: Option<Conn>, m: Option<Msg>, taken: nat := None, None, 0;
    var wires: map<Conn, Data>, quits: seq<Conn>, finished: seq<Msg> := map[], [], [];
    var flushed: seq<(Conn, Msg)>, cut: map<Conn, Msg>, running := [], map[], true;
    s := Start(outbound);
    var i := 0;
    while i < |events| && running
      invariant i <= |events| && taken <= |outbound|
      invariant w.Some? ==> w.value in wires
      invariant s == Run(c, outbound, events[..i])
      invariant s == State(outbound, taken, w, m, wires, quits, finished, flushed, cut, running)
    {
      RunNext(c, outbound, events, i);
      match events[i] {
        case Done =>
          if w.Some? {
            quits := quits + [w.value];
          }
          w, running := None, false;
        case Attach(v) =>
          if v !in wires {
            if w.Some? {
              quits := quits + [w.value];
            }
            w, wires := Some(v), wires[v := []];
          }
        case Turn(fault) =>
          if w.Some? && (m.Some? || taken < |outbound|) {
            if m.None? {
              m, taken := Some(outbound[taken]), taken + 1;
            }
            assert Step(c, s, events[i]) == Attempt(c, s.(taken := taken), w.value, m.value, fault);
            if !CanMarshal(c, m.value) {
              m, finished := None, finished + [m.value];
            } else {
              wires := wires[w.value := wires[w.value] + Written(c, m.value, fault)];
              if Fails(m.value, fault) {
                quits, cut := quits + [w.value], cut[w.value := m.value];
                w := None;
              } else {
                flushed := flushed + [(w.value, m.value)];
                m, finished := None, finished + [m.value];
              }
            }
          }
      }
      s := State(outbound, taken, w, m, wires, quits, finished, flushed, cut, running);
      i := i + 1;
    }
    StoppedStays(c, outbound, events, i);
    assert events[..|events|] == events;
  }

  lemma RunNext(c: Codec, outbound: seq<Msg>, events: seq<Event>, i: nat)
    requires i < |events|
    ensures Run(c, outbound, events[..i + 1]) == Step(c, Run(c, outbound, events[..i]), events[i])
  {
    assert events[..i + 1][..i] == events[..i];
  }

  /** Events after the loop has returned change nothing. */
  lemma {:induction false} StoppedStays(c: Codec, outbound: seq<Msg>, events: seq<Event>, i: nat)
    requires i <= |events| && (i < |events| ==> !Run(c, outbound, events[..i]).running)
    ensures Run(c, outbound, events[..|events|]) == Run(c, outbound, events[..i])
    decreases |events| - i
  {
    if i < |events| {
      assert events[..i + 1][..i] == events[..i];
      StoppedStays(c, outbound, events, i + 1);
    }
  }

  // ----- order: nothing lost, nothing twice

  function Marshalable(c: Codec, msgs: seq<Msg>): seq<Msg> {
    if msgs == [] then []
    else
      Marshalable(c, msgs[..|msgs| - 1]) +
      if CanMarshal(c, msgs[|msgs| - 1]) then [msgs[|msgs| - 1]] else []
  }

  lemma MarshalableSnoc(c: Codec, msgs: seq<Msg>, m: Msg)
    ensures Marshalable(c, msgs + [m]) == Marshalable(c, msgs) + if CanMarshal(c, m) then [m] else []
  {
    assert (msgs + [m])[..|msgs|] == msgs;
  }

  function Messages(flushed: seq<(Conn, Msg)>): seq<Msg> {
    seq(|flushed|, i requires 0 <= i < |flushed| => flushed[i].1)
  }

  ghost predicate Ordered(c: Codec, s: State) {
    && s.taken <= |s.outbound|
    && s.outbound[..s.taken] == s.finished + OneOf(s.pending)
    && (s.pending.Some? ==> CanMarshal(c, s.pending.value))
    && Messages(s.flushed) == Marshalable(c, s.finished)
    && (s.writer.Some? ==> s.writer.value in s.wires)
  }

  lemma AttemptOrdered(c: Codec, s: State, w: Conn, m: Msg, fault: Fault)
    requires w in s.wires && s.taken <= |s.outbound| && s.writer == Some(w)
    requires s.outbound[..s.taken] == s.finished + [m]
    requires Messages(s.flushed) == Marshalable(c, s.finished)
    ensures Ordered(c, Attempt(c, s, w, m, fault))
  {
    MarshalableSnoc(c, s.finished, m);
    assert Messages(s.flushed + [(w, m)]) == Messages(s.flushed) + [m];
  }

  lemma StepOrdered(c: Codec, s: State, e: Event)
    requires Ordered(c, s)
    ensures Ordered(c, Step(c, s, e))
  {
    if s.running && e.Turn? && s.writer.Some? {
      if s.pending.Some? {
        AttemptOrdered(c, s, s.writer.value, s.pending.value, e.fault);
      } else if s.taken < |s.outbound| {
        var m := s.outbound[s.taken];
        assert s.outbound[..s.taken + 1] == s.finished + [m];
        AttemptOrdered(c, s.(taken := s.taken + 1), s.writer.value, m, e.fault);
      }
    }
  }

  /**
    For every schedule: the messages taken from the outbound queue are those finished plus at
    most one pending, and the marshalable ones among those finished were each flushed in full
    exactly once, in order.
   */
  lemma {:induction false} EveryMessageOnceInOrder(c: Codec, outbound: seq<Msg>, events: seq<Event>)
    ensures var s := Run(c, outbound, events);
            && s.outbound == outbound && s.taken <= |outbound|
            && outbound[..s.taken] == s.finished + OneOf(s.pending)
            && Messages(s.flushed) == Marshalable(c, s.finished)
            && Ordered(c, s)
  {
    if events != [] {
      EveryMessageOnceInOrder(c, outbound, events[..|events| - 1]);
      StepOrdered(c, Run(c, outbound, events[..|events| - 1]), events[|events| - 1]);
    }
  }

  // ----- progress: a working connection empties the queue

  function Healthy(n: nat): seq<Event> {
    seq(n, _ => Turn(NoFault))
  }

  predicate Ready(s: State) {
    s.running && s.writer.Some? && s.writer.value in s.wires
  }

  lemma HealthyTurn(c: Codec, s: State)
    requires Ordered(c, s) && Ready(s)
    ensures var s' := Step(c, s, Turn(NoFault));
            && Ready(s') && s'.outbound == s.outbound
            && |s'.finished| == if |s.finished| < |s.outbound| then |s.finished| + 1 else |s.finished|
  {
    assert |s.outbound[..s.taken]| == |s.finished| + |OneOf(s.pending)|;
  }

  lemma {:induction false} HealthyTurnsAdvance(c: Codec, outbound: seq<Msg>, events: seq<Event>, n: nat)
    requires Ready(Run(c, outbound, events))
    ensures var s, s' := Run(c, outbound, events), Run(c, outbound, events + Healthy(n));
            Ready(s') && (|s'.finished| == |outbound| || |s'.finished| >= |s.finished| + n)
  {
    if n == 0 {
      assert events + Healthy(0) == events;
    } else {
      var init := events + Healthy(n - 1);
      assert events + Healthy(n) == init + [Turn(NoFault)];
      assert (init + [Turn(NoFault)])[..|init|] == init;
      HealthyTurnsAdvance(c, outbound, events, n - 1);
      EveryMessageOnceInOrder(c, outbound, init);
      HealthyTurn(c, Run(c, outbound, init));
    }
  }

  lemma AttachReadies(c: Codec, outbound: seq<Msg>, events: seq<Event>, w: Conn)
    requires Run(c, outbound, events).running && w !in Run(c, outbound, events).wires
    ensures Ready(Run(c, outbound, events + [Attach(w)]))
    ensures Run(c, outbound, events + [Attach(w)]).finished == Run(c, outbound, events).finished
  {
    assert (events + [Attach(w)])[..|events|] == events;
  }

  /**
    None is lost for good: after any schedule at all, one more connection that works for as
    many turns as there are unfinished messages gets every message out.
   */
  lemma WorkingConnectionFinishesAll(c: Codec, outbound: seq<Msg>, events: seq<Event>, w: Conn, n: nat)
    requires Run(c, outbound, events).running && w !in Run(c, outbound, events).wires
    requires n + |Run(c, outbound, events).finished| >= |outbound|
    ensures var s := Run(c, outbound, events + [Attach(w)] + Healthy(n));
            s.finished == outbound && s.pending.None? && Messages(s.flushed) == Marshalable(c, outbound)
  {
    AttachReadies(c, outbound, events, w);
    HealthyTurnsAdvance(c, outbound, events + [Attach(w)], n);
    var s := Run(c, outbound, events + [Attach(w)] + Healthy(n));
    EveryMessageOnceInOrder(c, outbound, events + [Attach(w)] + Healthy(n));
    assert |outbound[..s.taken]| == |s.finished| + |OneOf(s.pending)|;
    assert outbound[..s.taken] == outbound && s.finished + [] == s.finished;
  }

  // ----- quit channels

  ghost predicate QuitsOnce(s: State) {
    && (forall i, j :: 0 <= i < j < |s.quits| ==> s.quits[i] != s.quits[j])
    && (forall w :: w in s.quits ==> w in s.wires)
    && (forall w :: w in s.wires ==> (w !in s.quits <==> s.writer == Some(w)))
    && (s.writer.Some? ==> s.writer.value in s.wires)
    && (!s.running ==> s.writer.None?)
  }

  lemma StepQuitsOnce(c: Codec, s: State, e: Event)
    requires QuitsOnce(s)
    ensures QuitsOnce(Step(c, s, e))
  {
  }

  /**
    For every schedule: no quit channel is closed twice, only the current connection has an
    open one, and once the loop has returned none is open.
   */
  lemma {:induction false} EveryWriterQuitsOnce(c: Codec, outbound: seq<Msg>, events: seq<Event>)
    ensures var s := Run(c, outbound, events);
            && (forall i, j :: 0 <= i < j < |s.quits| ==> s.quits[i] != s.quits[j])
            && (forall w :: w in s.wires ==> (w !in s.quits <==> s.writer == Some(w)))
            && (!s.running ==> forall w :: w in s.wires ==> w in s.quits)
            && QuitsOnce(s)
  {
    if events != [] {
      EveryWriterQuitsOnce(c, outbound, events[..|events| - 1]);
      StepQuitsOnce(c, Run(c, outbound, events[..|events| - 1]), events[|events| - 1]);
    }
  }

  // ----- what each connection carries

  /** The messages flushed to connection `w`. */
  function On(flushed: seq<(Conn, Msg)>, w: Conn): seq<Msg> {
    if flushed == [] then []
    else
      var (v, m) := flushed[|flushed| - 1];
      On(flushed[..|flushed| - 1], w) + if v == w then [m] else []
  }

  lemma OnSnoc(flushed: seq<(Conn, Msg)>, v: Conn, m: Msg, w: Conn)
    ensures On(flushed + [(v, m)], w) == On(flushed, w) + if v == w then [m] else []
  {
    assert (flushed + [(v, m)])[..|flushed|] == flushed;
  }

  lemma {:induction false} StreamSnoc(c: Codec, msgs: seq<Msg>, m: Msg)
    requires AllMarshal(c, msgs) && CanMarshal(c, m)
    ensures Stream(c, msgs + [m]) == Stream(c, msgs) + MsgBytes(c, m)
  {
    if msgs == [] {
      assert msgs + [m] == [m] && Stream(c, [m]) == MsgBytes(c, m) + Stream(c, []);
    } else {
      assert (msgs + [m])[1..] == msgs[1..] + [m];
      StreamSnoc(c, msgs[1..], m);
    }
  }

  /** The messages that the bytes on connection `w` come from: a failed one may be the last. */
  function WrittenTo(s: State, w: Conn): seq<Msg> {
    On(s.flushed, w) + if w in s.cut then [s.cut[w]] else []
  }

  ghost predicate WireOk(c: Codec, s: State, w: Conn) {
    && w in s.wires
    && AllMarshal(c, WrittenTo(s, w)) && AllMarshal(c, On(s.flushed, w))
    && Stream(c, On(s.flushed, w)) <= s.wires[w] <= Stream(c, WrittenTo(s, w))
    && (w !in s.cut ==> s.wires[w] == Stream(c, WrittenTo(s, w)))
  }

  ghost predicate WiresOk(c: Codec, s: State) {
    && (forall w :: w in s.wires ==> WireOk(c, s, w))
    && (s.writer.Some? ==> s.writer.value in s.wires && s.writer.value !in s.cut)
    && s.cut.Keys <= s.wires.Keys
    && (forall i :: 0 <= i < |s.flushed| ==> s.flushed[i].0 in s.wires)
  }

  lemma WrittenIsPrefix(c: Codec, m: Msg, fault: Fault)
    requires CanMarshal(c, m)
    ensures Written(c, m, fault) <= MsgBytes(c, m)
    ensures !Fails(m, fault) ==> Written(c, m, fault) == MsgBytes(c, m)
  {
  }

  /** A write may break off anywhere: every prefix of a message is what some fault leaves. */
  lemma EveryCutIsPossible(c: Codec, m: Msg, k: nat) returns (fault: Fault)
    requires CanMarshal(c, m) && k <= |MsgBytes(c, m)|
    ensures Fails(m, fault) && Written(c, m, fault) == MsgBytes(c, m)[..k]
  {
    var head := Frame(c, c.marshal(m.header).value);
    if k <= |head| {
      fault := AtHeader(k);
    } else {
      fault := AtSyncData(k - |head|);
    }
  }

  lemma AttemptWire(c: Codec, s: State, w: Conn, m: Msg, fault: Fault)
    requires WireOk(c, s, w) && w !in s.cut && CanMarshal(c, m)
    ensures WireOk(c, Attempt(c, s, w, m, fault), w)
  {
    var s' := Attempt(c, s, w, m, fault);
    var before := On(s.flushed, w);
    assert WrittenTo(s, w) == before;
    WrittenIsPrefix(c, m, fault);
    StreamSnoc(c, before, m);
    OnSnoc(s.flushed, w, m, w);
    assert WrittenTo(s', w) == before + [m];
  }

  /** What a connection carries depends on its own bytes and its own messages only. */
  lemma WireKept(c: Codec, s: State, s': State, v: Conn)
    requires WireOk(c, s, v) && v in s'.wires && s'.wires[v] == s.wires[v]
    requires On(s'.flushed, v) == On(s.flushed, v) && (v in s'.cut <==> v in s.cut)
    requires v in s.cut ==> s'.cut[v] == s.cut[v]
    ensures WireOk(c, s', v)
  {
    assert WrittenTo(s', v) == WrittenTo(s, v);
  }

  lemma {:induction false} NothingOnFresh(flushed: seq<(Conn, Msg)>, w: Conn)
    requires forall i :: 0 <= i < |flushed| ==> flushed[i].0 != w
    ensures On(flushed, w) == []
  {
    if flushed != [] {
      NothingOnFresh(flushed[..|flushed| - 1], w);
    }
  }

  lemma SwitchWires(c: Codec, s: State, s': State)
    requires WiresOk(c, s) && s'.flushed == s.flushed && s'.cut == s.cut
    requires s.wires.Keys <= s'.wires.Keys
    requires forall v :: v in s'.wires ==> s'.wires[v] == if v in s.wires then s.wires[v] else []
    requires s'.writer.Some? ==> s'.writer.value in s'.wires && s'.writer.value !in s.cut
    ensures WiresOk(c, s')
  {
    forall v | v in s'.wires
      ensures WireOk(c, s', v)
    {
      if v in s.wires {
        WireKept(c, s, s', v);
      } else {
        NothingOnFresh(s.flushed, v);
        assert WrittenTo(s', v) == [];
      }
    }
  }

  lemma AttemptOtherWire(c: Codec, s: State, w: Conn, m: Msg, fault: Fault, v: Conn)
    requires WireOk(c, s, v) && w in s.wires && v != w
    ensures WireOk(c, Attempt(c, s, w, m, fault), v)
  {
    AttemptElsewhere(c, s, w, m, fault, v);
    WireKept(c, s, Attempt(c, s, w, m, fault), v);
  }

  /** An attempt on one connection leaves everything about another as it is. */
  lemma AttemptElsewhere(c: Codec, s: State, w: Conn, m: Msg, fault: Fault, v: Conn)
    requires w in s.wires && v in s.wires && v != w
    ensures var s' := Attempt(c, s, w, m, fault);
            && v in s'.wires && s'.wires[v] == s.wires[v]
            && On(s'.flushed, v) == On(s.flushed, v)
            && (v in s'.cut <==> v in s.cut) && (v in s.cut ==> s'.cut[v] == s.cut[v])
  {
    var s' := Attempt(c, s, w, m, fault);
    OnOther(s.flushed, w, m, v);
    if CanMarshal(c, m) {
      assert s'.wires == s.wires[w := s.wires[w] + Written(c, m, fault)];
      assert s'.flushed == s.flushed || s'.flushed == s.flushed + [(w, m)];
      assert s'.cut == s.cut || s'.cut == s.cut[w := m];
    }
  }

  lemma OnOther(flushed: seq<(Conn, Msg)>, w: Conn, m: Msg, v: Conn)
    requires v != w
    ensures On(flushed + [(w, m)], v) == On(flushed, v)
  {
    OnSnoc(flushed, w, m, v);
    assert On(flushed, v) + [] == On(flushed, v);
  }

  lemma AttemptWires(c: Codec, s: State, w: Conn, m: Msg, fault: Fault)
    requires WiresOk(c, s) && s.writer == Some(w)
    ensures WiresOk(c, Attempt(c, s, w, m, fault))
  {
    var s' := Attempt(c, s, w, m, fault);
    if !CanMarshal(c, m) {
      SwitchWires(c, s, s');
    } else {
      forall v | v in s'.wires
        ensures WireOk(c, s', v)
      {
        if v == w {
          AttemptWire(c, s, w, m, fault);
        } else {
          AttemptOtherWire(c, s, w, m, fault, v);
        }
      }
      AttemptRest(c, s, w, m, fault);
    }
  }

  /** The parts of `WiresOk` that do not speak of one connection. */
  lemma AttemptRest(c: Codec, s: State, w: Conn, m: Msg, fault: Fault)
    requires s.writer == Some(w) && w in s.wires && w !in s.cut && s.cut.Keys <= s.wires.Keys
    requires forall i :: 0 <= i < |s.flushed| ==> s.flushed[i].0 in s.wires
    ensures var s' := Attempt(c, s, w, m, fault);
            && (s'.writer.Some? ==> s'.writer.value in s'.wires && s'.writer.value !in s'.cut)
            && s'.cut.Keys <= s'.wires.Keys
            && (forall i :: 0 <= i < |s'.flushed| ==> s'.flushed[i].0 in s'.wires)
            && s'.wires.Keys == s.wires.Keys
  {
  }

  lemma StepWires(c: Codec, s: State, e: Event)
    requires WiresOk(c, s)
    ensures WiresOk(c, Step(c, s, e))
  {
    if s.running && e.Turn? {
      TurnWires(c, s, e.fault);
    } else if s.running && e.Attach? && e.w !in s.wires {
      AttachWires(c, s, e.w);
    } else {
      var s' := Step(c, s, e);
      assert s'.wires == s.wires && s'.flushed == s.flushed && s'.cut == s.cut;
      SwitchWires(c, s, s');
    }
  }

  lemma AttachWires(c: Codec, s: State, w: Conn)
    requires WiresOk(c, s) && s.running && w !in s.wires
    ensures WiresOk(c, Step(c, s, Attach(w)))
  {
    var s' := Step(c, s, Attach(w));
    assert s'.wires == s.wires[w := []] && s'.writer == Some(w);
    SwitchWires(c, s, s');
  }

  lemma TurnWires(c: Codec, s: State, fault: Fault)
    requires WiresOk(c, s) && s.running
    ensures WiresOk(c, Step(c, s, Turn(fault)))
  {
    var s' := Step(c, s, Turn(fault));
    if s.writer.Some? {
      var w := s.writer.value;
      if s.pending.Some? {
        assert s' == Attempt(c, s, w, s.pending.value, fault);
        AttemptWires(c, s, w, s.pending.value, fault);
      } else if s.taken < |s.outbound| {
        TakenWires(c, s, w, fault);
      }
    }
  }

  lemma TakenWires(c: Codec, s: State, w: Conn, fault: Fault)
    requires WiresOk(c, s) && s.running && s.writer == Some(w) && s.pending.None? && s.taken < |s.outbound|
    ensures WiresOk(c, Step(c, s, Turn(fault)))
  {
    var s1 := s.(taken := s.taken + 1);
    assert Step(c, s, Turn(fault)) == Attempt(c, s1, w, s.outbound[s.taken], fault);
    SwitchWires(c, s, s1);
    AttemptWires(c, s1, w, s.outbound[s.taken], fault);
  }

  lemma {:induction false} WiresAlongRun(c: Codec, outbound: seq<Msg>, events: seq<Event>)
    ensures WiresOk(c, Run(c, outbound, events))
  {
    if events != [] {
      WiresAlongRun(c, outbound, events[..|events| - 1]);
      StepWires(c, Run(c, outbound, events[..|events| - 1]), events[|events| - 1]);
    }
  }

  /**
    From one end to the other: whatever the schedule, and whatever prefix `b` of the bytes on
    a connection arrives, the reader delivers exactly the leading messages that are complete
    in `b` out of those flushed to this connection, plus the one that failed on it.
   */
  lemma ReaderSeesWhatWasWritten(
    c: Codec, outbound: seq<Msg>, events: seq<Event>, w: Conn, b: Data, gates: Gates)
    requires Lawful(c) && w in Run(c, outbound, events).wires
    requires b <= Run(c, outbound, events).wires[w]
    requires forall m :: m in WrittenTo(Run(c, outbound, events), w) && CanMarshal(c, m) ==> MsgFits(c, m)
    ensures var msgs := WrittenTo(Run(c, outbound, events), w);
            && AllMarshal(c, msgs)
            && Deliver(c, b, gates, 0) == ReceivedAll(msgs[..Arrived(c, msgs, |b|, gates, 0)])
  {
    WiresAlongRun(c, outbound, events);
    WireDelivers(c, Run(c, outbound, events), w, b, gates);
  }

  lemma WireDelivers(c: Codec, s: State, w: Conn, b: Data, gates: Gates)
    requires Lawful(c) && WireOk(c, s, w) && b <= s.wires[w]
    requires forall m :: m in WrittenTo(s, w) && CanMarshal(c, m) ==> MsgFits(c, m)
    ensures Deliver(c, b, gates, 0) == ReceivedAll(WrittenTo(s, w)[..Arrived(c, WrittenTo(s, w), |b|, gates, 0)])
  {
    ReaderDeliversPrefix(c, WrittenTo(s, w), b, gates, 0);
  }
}
