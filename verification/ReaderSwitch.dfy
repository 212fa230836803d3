/**
  How the read loop of a channel replaces its reader: the previous one is told to drain over a
  channel of capacity one. Every reader goes through its own loop, whose exits close its quit
  channel, while the others go on.
 */
module ReaderSwitch {
  import opened Wrappers
  import K = ReadControl

  /** A drain channel: how often it was sent to, and whether it was closed. */
  datatype Drain = Drain(sent: nat, closed: bool)

  /**
    A started reader, which listens on the drain channel made just before it started: where it
    is in its loop, and how often it has closed its quit channel.
   */
  datatype Reader = Reader(point: K.Point, quits: nat, draining: bool)

  datatype State = State(drains: seq<Drain>, readers: seq<Reader>, running: bool)

  datatype Step = Replace | Drained(i: nat) | Moves(i: nat, move: K.Move) | Done

  const Init: State := State([Drain(0, false)], [], true)

  function Current(s: State): nat
    requires s.drains != []
  {
    |s.drains| - 1
  }

  predicate Told(s: State, i: nat) {
    i + 1 < |s.drains| && (s.drains[i + 1].sent > 0 || s.drains[i + 1].closed)
  }

  predicate Enabled(s: State, e: Step) {
    match e
    case Replace => s.running && s.drains != []
    case Drained(i) => i < |s.readers| && Told(s, i) && !s.readers[i].draining
    case Moves(i, move) => i < |s.readers| && K.Next(s.readers[i].point, move).Some?
    case Done => s.running && s.drains != []
  }

  function Apply(s: State, e: Step): State
    requires Enabled(s, e)
  {
    match e
    case Replace =>
      var cur := Current(s);
      s.(drains := s.drains[cur := s.drains[cur].(sent := s.drains[cur].sent + 1)] + [Drain(0, false)],
         readers := s.readers + [Reader(K.AtDecode, 0, false)])
    case Drained(i) => s.(readers := s.readers[i := s.readers[i].(draining := true)])
    case Moves(i, move) =>
      var r := s.readers[i];
      s.(readers := s.readers[i := r.(point := K.Next(r.point, move).value, quits := r.quits + K.One(K.Closes(move)))])
    case Done =>
      var cur := Current(s);
      s.(drains := s.drains[cur := s.drains[cur].(closed := true)], running := false)
  }

  function Run(s: State, steps: seq<Step>): Option<State> {
    if steps == [] then Some(s)
    else
      match Run(s, steps[..|steps| - 1])
      case None => None
      case Some(t) => if Enabled(t, steps[|steps| - 1]) then Some(Apply(t, steps[|steps| - 1])) else None
  }

  /** A send to the current drain channel finds its one-place buffer free. */
  predicate SendIsFree(s: State) {
    s.drains != [] && s.drains[Current(s)] == Drain(0, false)
  }

  ghost predicate Inv(s: State) {
    && |s.drains| == |s.readers| + 1
    && (forall i :: 0 <= i < |s.drains| - 1 ==> s.drains[i] == Drain(1, false))
    && s.drains[Current(s)] == Drain(0, !s.running)
    && (forall i :: 0 <= i < |s.readers| && s.readers[i].draining ==> Told(s, i))
  }

  lemma InvStep(s: State, e: Step)
    requires Inv(s) && Enabled(s, e)
    ensures Inv(Apply(s, e))
  {
    var s' := Apply(s, e);
    assert forall i :: 0 <= i < |s.readers| && Told(s, i) ==> Told(s', i);
  }

  lemma {:induction false} InvAlongRun(steps: seq<Step>)
    requires Run(Init, steps).Some?
    ensures Inv(Run(Init, steps).value)
  {
    if steps != [] {
      InvAlongRun(steps[..|steps| - 1]);
      InvStep(Run(Init, steps[..|steps| - 1]).value, steps[|steps| - 1]);
    }
  }

  // ----- each reader follows its loop

  /** The moves that reader `i` has made in a run. */
  function MovesOf(steps: seq<Step>, i: nat): seq<K.Move> {
    if steps == [] then []
    else
      var last := steps[|steps| - 1];
      MovesOf(steps[..|steps| - 1], i) + if last.Moves? && last.i == i then [last.move] else []
  }

  /** Reader `i` is where its own moves lead, and has closed its quit channel as often as they say. */
  ghost predicate Follows(s: State, moves: seq<K.Move>, i: nat) {
    if i < |s.readers| then
      K.Follow(moves) == Some(s.readers[i].point) && K.CloseCount(moves) == s.readers[i].quits
    else moves == []
  }

  lemma FollowsStep(s: State, e: Step, moves: seq<K.Move>, i: nat)
    requires Enabled(s, e) && Follows(s, moves, i)
    ensures Follows(Apply(s, e), moves + if e.Moves? && e.i == i then [e.move] else [], i)
  {
    if e.Moves? && e.i == i {
      K.FollowOne(moves, e.move);
    } else {
      assert moves + [] == moves;
    }
  }

  /** However readers interleave, each of them goes through its loop as if it were alone. */
  lemma {:induction false} ReadersFollowTheLoop(steps: seq<Step>, i: nat)
    requires Run(Init, steps).Some?
    ensures Follows(Run(Init, steps).value, MovesOf(steps, i), i)
  {
    if steps != [] {
      var init := steps[..|steps| - 1];
      ReadersFollowTheLoop(init, i);
      FollowsStep(Run(Init, init).value, steps[|steps| - 1], MovesOf(init, i), i);
    }
  }

  lemma ReaderQuitsOnce(steps: seq<Step>, i: nat)
    requires Run(Init, steps).Some? && i < |Run(Init, steps).value.readers|
    ensures var r := Run(Init, steps).value.readers[i]; r.quits == K.One(r.point == K.Returned)
  {
    ReadersFollowTheLoop(steps, i);
    K.ClosedOnceReturned(MovesOf(steps, i));
  }

  /**
    In every interleaving of replacements, drains and moves of readers: replacing never blocks,
    no drain channel is signalled twice, a reader has closed its quit channel exactly once if it
    has returned and else not at all, and only the last reader started may not yet have been
    told to drain.
   */
  lemma ReplacementIsSafe(steps: seq<Step>)
    requires Run(Init, steps).Some?
    ensures var s := Run(Init, steps).value;
            && (s.running ==> SendIsFree(s))
            && (forall d :: d in s.drains ==> d.sent + K.One(d.closed) <= 1)
            && (forall i :: 0 <= i < |s.readers| ==> s.readers[i].quits == K.One(s.readers[i].point == K.Returned))
            && (forall i :: 0 <= i < |s.readers| && !Told(s, i) ==> i == |s.readers| - 1 && s.running)
  {
    InvAlongRun(steps);
    var s := Run(Init, steps).value;
    forall i | 0 <= i < |s.readers|
      ensures s.readers[i].quits == K.One(s.readers[i].point == K.Returned)
    {
      ReaderQuitsOnce(steps, i);
    }
  }
}
