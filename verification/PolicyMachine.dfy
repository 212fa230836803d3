/**
  Many connections evaluating one policy at the same time.

  A call is broken up at every locked section: the first look of Max, its second look with the
  increment, each answer of a rate limit, each decrement of a cleanup. Between any two of them
  other calls take steps. The loops of All and Any live on a stack of frames.
 */
module PolicyMachine {
  import opened Wrappers
  import opened Policy

  datatype Frame =
    | AllFrame(rest: seq<Policy>, cleanup: seq<Leaf>)
    | AnyFrame(rest: seq<Policy>, any: bool, cleanup: seq<Leaf>)

  datatype Control =
    | Begin(p: Policy)
    | Looked(leaf: Leaf, max: int)
    | Return(ok: bool, cleanup: Option<seq<Leaf>>)

  /** `acquired` records the increments of the call in order. */
  datatype Task =
    | Running(ctl: Control, stack: seq<Frame>, acquired: seq<Leaf>)
    | Holding(ok: bool, cleanup: seq<Leaf>, acquired: seq<Leaf>)
    | Cleaning(rest: seq<Leaf>)

  datatype State = State(conns: map<Leaf, int>, tasks: seq<Task>)

  datatype Moved = Moved(task: Task, conns: map<Leaf, int>)

  const Init: State := State(map[], [])

  // ----- one section of one call

  /** Takes up the next policy of a loop, or ends the loop. */
  function Continue(frame: Frame, below: seq<Frame>, acquired: seq<Leaf>): Task {
    if frame.rest == [] then
      Running(Return(if frame.AllFrame? then true else frame.any, Some(frame.cleanup)), below, acquired)
    else
      Running(Begin(frame.rest[0]), [frame.(rest := frame.rest[1..])] + below, acquired)
  }

  /** The loop in the top frame gets the result of one of its policies. */
  function Deliver(ok: bool, cleanup: Option<seq<Leaf>>, stack: seq<Frame>, acquired: seq<Leaf>): Task
    requires stack != []
  {
    var composed := OrNothing(cleanup) + stack[0].cleanup;
    match stack[0]
    case AllFrame(rest, _) =>
      if !ok then Running(Return(false, Some(composed)), stack[1..], acquired)
      else Continue(AllFrame(rest, composed), stack[1..], acquired)
    case AnyFrame(rest, any, _) => Continue(AnyFrame(rest, any || ok, composed), stack[1..], acquired)
  }

  function Advance(t: Task, conns: map<Leaf, int>, answer: bool): Moved {
    match t
    case Running(Begin(Max(leaf, max)), stack, acquired) =>
      if max < 0 then Moved(Running(Return(true, None), stack, acquired), conns)
      else if At(conns, leaf) < max then Moved(Running(Looked(leaf, max), stack, acquired), conns)
      else Moved(Running(Return(false, None), stack, acquired), conns)
    case Running(Looked(leaf, max), stack, acquired) =>
      if At(conns, leaf) < max
      then Moved(Running(Return(true, Some([leaf])), stack, acquired + [leaf]), Add(conns, leaf, 1))
      else Moved(Running(Return(false, None), stack, acquired), conns)
    case Running(Begin(RateLimit), stack, acquired) => Moved(Running(Return(answer, None), stack, acquired), conns)
    case Running(Begin(All(fs)), stack, acquired) => Moved(Continue(AllFrame(fs, []), stack, acquired), conns)
    case Running(Begin(Any(fs)), stack, acquired) => Moved(Continue(AnyFrame(fs, false, []), stack, acquired), conns)
    case Running(Return(ok, cleanup), stack, acquired) =>
      if stack == [] then Moved(Holding(ok, OrNothing(cleanup), acquired), conns)
      else Moved(Deliver(ok, cleanup, stack, acquired), conns)
    case Holding(_, cleanup, _) => Moved(Cleaning(cleanup), conns)
    case Cleaning(rest) =>
      if rest == [] then Moved(t, conns) else Moved(Cleaning(rest[1..]), Add(conns, rest[0], -1))
  }

  /** A new connection, or the next section of one that is there; cleanups run once at most. */
  datatype Step = Call(p: Policy) | Section(t: nat, answer: bool)

  predicate Enabled(s: State, e: Step) {
    e.Section? ==> e.t < |s.tasks|
  }

  function Apply(s: State, e: Step): State
    requires Enabled(s, e)
  {
    match e
    case Call(p) => s.(tasks := s.tasks + [Running(Begin(p), [], [])])
    case Section(t, answer) =>
      var m := Advance(s.tasks[t], s.conns, answer);
      State(m.conns, s.tasks[t := m.task])
  }

  function Run(steps: seq<Step>): Option<State> {
    if steps == [] then Some(Init)
    else
      match Run(steps[..|steps| - 1])
      case None => None
      case Some(s) => if Enabled(s, steps[|steps| - 1]) then Some(Apply(s, steps[|steps| - 1])) else None
  }

  // ----- the slots that a call holds

  function Stacked(stack: seq<Frame>): seq<Leaf> {
    if stack == [] then [] else stack[0].cleanup + Stacked(stack[1..])
  }

  /** The slots that the cleanup of a call will free, first to last. */
  function Held(t: Task): seq<Leaf> {
    match t
    case Running(ctl, stack, _) => (if ctl.Return? then OrNothing(ctl.cleanup) else []) + Stacked(stack)
    case Holding(_, cleanup, _) => cleanup
    case Cleaning(rest) => rest
  }

  lemma ContinueHolds(frame: Frame, below: seq<Frame>, acquired: seq<Leaf>)
    ensures Held(Continue(frame, below, acquired)) == frame.cleanup + Stacked(below)
  {
    if frame.rest != [] {
      var stack := [frame.(rest := frame.rest[1..])] + below;
      assert stack[1..] == below;
      assert [] + Stacked(stack) == Stacked(stack);
    }
  }

  lemma StackedUnder(s: seq<Leaf>, stack: seq<Frame>)
    requires stack != []
    ensures s + stack[0].cleanup + Stacked(stack[1..]) == s + Stacked(stack)
  {
    assert s + stack[0].cleanup + Stacked(stack[1..]) == s + (stack[0].cleanup + Stacked(stack[1..]));
  }

  lemma DeliverHolds(ok: bool, cleanup: Option<seq<Leaf>>, stack: seq<Frame>, acquired: seq<Leaf>)
    requires stack != []
    ensures Held(Deliver(ok, cleanup, stack, acquired)) == OrNothing(cleanup) + Stacked(stack)
  {
    var composed := OrNothing(cleanup) + stack[0].cleanup;
    StackedUnder(OrNothing(cleanup), stack);
    match stack[0]
    case AllFrame(rest, _) =>
      if ok {
        ContinueHolds(AllFrame(rest, composed), stack[1..], acquired);
      }
    case AnyFrame(rest, any, _) =>
      ContinueHolds(AnyFrame(rest, any || ok, composed), stack[1..], acquired);
  }

  /** The task is about to take its slot in the counter of `leaf`. */
  predicate Takes(t: Task, conns: map<Leaf, int>) {
    t.Running? && t.ctl.Looked? && At(conns, t.ctl.leaf) < t.ctl.max
  }

  predicate Frees(t: Task) {
    t.Cleaning? && t.rest != []
  }

  /** A section takes one slot, frees one, or leaves the slots and the counters alone. */
  lemma AdvanceMovesSlots(t: Task, conns: map<Leaf, int>, answer: bool)
    ensures var m := Advance(t, conns, answer);
            if Takes(t, conns) then Held(m.task) == [t.ctl.leaf] + Held(t) && m.conns == Add(conns, t.ctl.leaf, 1)
            else if Frees(t) then Held(t) == [t.rest[0]] + Held(m.task) && m.conns == Add(conns, t.rest[0], -1)
            else Held(m.task) == Held(t) && m.conns == conns
  {
    match t
    case Running(Begin(Max(_, _)), stack, acquired) =>
    case Running(Looked(leaf, max), stack, acquired) =>
      assert [leaf] + ([] + Stacked(stack)) == [leaf] + Stacked(stack);
    case Running(Begin(RateLimit), stack, acquired) =>
    case Running(Begin(All(fs)), stack, acquired) => ContinueHolds(AllFrame(fs, []), stack, acquired);
    case Running(Begin(Any(fs)), stack, acquired) => ContinueHolds(AnyFrame(fs, false, []), stack, acquired);
    case Running(Return(ok, cleanup), stack, acquired) =>
      if stack == [] {
        assert OrNothing(cleanup) + Stacked(stack) == OrNothing(cleanup);
      } else {
        DeliverHolds(ok, cleanup, stack, acquired);
      }
    case Holding(_, _, _) =>
    case Cleaning(_) =>
  }

  // ----- counters are the slots held

  function Occurs(s: seq<Leaf>, leaf: Leaf): nat {
    if s == [] then 0 else (if s[0] == leaf then 1 else 0) + Occurs(s[1..], leaf)
  }

  lemma OccursCons(x: Leaf, s: seq<Leaf>, leaf: Leaf)
    ensures Occurs([x] + s, leaf) == (if x == leaf then 1 else 0) + Occurs(s, leaf)
  {
    assert ([x] + s)[1..] == s;
  }

  function SlotsOf(tasks: seq<Task>, leaf: Leaf): nat {
    if tasks == [] then 0 else Occurs(Held(tasks[0]), leaf) + SlotsOf(tasks[1..], leaf)
  }

  lemma {:induction false} SlotsUpdate(tasks: seq<Task>, t: nat, x: Task, leaf: Leaf)
    requires t < |tasks|
    ensures SlotsOf(tasks[t := x], leaf) ==
            SlotsOf(tasks, leaf) - Occurs(Held(tasks[t]), leaf) + Occurs(Held(x), leaf)
  {
    var tasks' := tasks[t := x];
    if t == 0 {
      assert tasks'[1..] == tasks[1..];
    } else {
      assert tasks'[1..] == tasks[1..][t - 1 := x];
      SlotsUpdate(tasks[1..], t - 1, x, leaf);
    }
  }

  lemma {:induction false} SlotsAppend(tasks: seq<Task>, x: Task, leaf: Leaf)
    requires Held(x) == []
    ensures SlotsOf(tasks + [x], leaf) == SlotsOf(tasks, leaf)
  {
    if tasks == [] {
      assert tasks + [x] == [x] && [x][1..] == [];
    } else {
      assert (tasks + [x])[1..] == tasks[1..] + [x];
      SlotsAppend(tasks[1..], x, leaf);
    }
  }

  lemma CountAfter(t: Task, conns: map<Leaf, int>, answer: bool, leaf: Leaf, m: Moved)
    requires m == Advance(t, conns, answer)
    ensures At(m.conns, leaf) - At(conns, leaf) == Occurs(Held(m.task), leaf) - Occurs(Held(t), leaf)
  {
    AdvanceMovesSlots(t, conns, answer);
    if Takes(t, conns) {
      OccursCons(t.ctl.leaf, Held(t), leaf);
    } else if Frees(t) {
      OccursCons(t.rest[0], Held(m.task), leaf);
    }
  }

  ghost predicate Balanced(s: State) {
    forall leaf :: At(s.conns, leaf) == SlotsOf(s.tasks, leaf)
  }

  lemma BalancedStep(s: State, e: Step)
    requires Balanced(s) && Enabled(s, e)
    ensures Balanced(Apply(s, e))
  {
    var s' := Apply(s, e);
    forall leaf
      ensures At(s'.conns, leaf) == SlotsOf(s'.tasks, leaf)
    {
      assert At(s.conns, leaf) == SlotsOf(s.tasks, leaf);
      match e
      case Call(p) => SlotsAppend(s.tasks, Running(Begin(p), [], []), leaf);
      case Section(t, answer) =>
        var m := Advance(s.tasks[t], s.conns, answer);
        CountAfter(s.tasks[t], s.conns, answer, leaf, m);
        SlotsUpdate(s.tasks, t, m.task, leaf);
    }
  }

  // ----- counters stay below their maximum

  /** All leaves of one counter carry its maximum. */
  predicate Fits(p: Policy, limits: Leaf -> int)
    decreases p
  {
    match p
    case Max(leaf, max) => max == limits(leaf)
    case RateLimit => true
    case All(fs) => forall f :: f in fs ==> Fits(f, limits)
    case Any(fs) => forall f :: f in fs ==> Fits(f, limits)
  }

  predicate TaskFits(t: Task, limits: Leaf -> int) {
    t.Running? ==>
      && (t.ctl.Begin? ==> Fits(t.ctl.p, limits))
      && (t.ctl.Looked? ==> t.ctl.max == limits(t.ctl.leaf))
      && forall i, f :: 0 <= i < |t.stack| && f in t.stack[i].rest ==> Fits(f, limits)
  }

  lemma ContinueFits(frame: Frame, below: seq<Frame>, acquired: seq<Leaf>, limits: Leaf -> int)
    requires forall f :: f in frame.rest ==> Fits(f, limits)
    requires forall i, f :: 0 <= i < |below| && f in below[i].rest ==> Fits(f, limits)
    ensures TaskFits(Continue(frame, below, acquired), limits)
  {
    if frame.rest != [] {
      var stack := [frame.(rest := frame.rest[1..])] + below;
      forall i, f | 0 <= i < |stack| && f in stack[i].rest
        ensures Fits(f, limits)
      {
        if i > 0 {
          assert stack[i] == below[i - 1];
        }
      }
    }
  }

  lemma AdvanceFits(t: Task, conns: map<Leaf, int>, answer: bool, limits: Leaf -> int)
    requires TaskFits(t, limits)
    ensures TaskFits(Advance(t, conns, answer).task, limits)
  {
    match t
    case Running(Begin(All(fs)), stack, acquired) => ContinueFits(AllFrame(fs, []), stack, acquired, limits);
    case Running(Begin(Any(fs)), stack, acquired) => ContinueFits(AnyFrame(fs, false, []), stack, acquired, limits);
    case Running(Return(ok, cleanup), stack, acquired) =>
      if stack != [] {
        assert forall i, f :: 0 <= i < |stack[1..]| && f in stack[1..][i].rest ==> f in stack[i + 1].rest;
        var composed := OrNothing(cleanup) + stack[0].cleanup;
        match stack[0]
        case AllFrame(rest, _) =>
          if ok {
            ContinueFits(AllFrame(rest, composed), stack[1..], acquired, limits);
          }
        case AnyFrame(rest, any, _) => ContinueFits(AnyFrame(rest, any || ok, composed), stack[1..], acquired, limits);
      }
    case _ =>
  }

  ghost predicate Within(s: State, limits: Leaf -> int) {
    && (forall t :: 0 <= t < |s.tasks| ==> TaskFits(s.tasks[t], limits))
    && (forall leaf :: At(s.conns, leaf) <= 0 || At(s.conns, leaf) <= limits(leaf))
  }

  lemma WithinStep(s: State, e: Step, limits: Leaf -> int)
    requires Within(s, limits) && Enabled(s, e) && (e.Call? ==> Fits(e.p, limits))
    ensures Within(Apply(s, e), limits)
  {
    if e.Section? {
      var t := s.tasks[e.t];
      AdvanceFits(t, s.conns, e.answer, limits);
      AdvanceMovesSlots(t, s.conns, e.answer);
      var s' := Apply(s, e);
      forall leaf
        ensures At(s'.conns, leaf) <= 0 || At(s'.conns, leaf) <= limits(leaf)
      {
        assert At(s.conns, leaf) <= 0 || At(s.conns, leaf) <= limits(leaf);
      }
    }
  }

  // ----- cleanups free slots in the reverse order

  predicate LastInFirstOut(t: Task) {
    && (t.Running? ==> Held(t) == Reverse(t.acquired))
    && (t.Holding? ==> t.cleanup == Reverse(t.acquired))
  }

  lemma AdvanceLastInFirstOut(t: Task, conns: map<Leaf, int>, answer: bool)
    requires LastInFirstOut(t)
    ensures LastInFirstOut(Advance(t, conns, answer).task)
  {
    AdvanceMovesSlots(t, conns, answer);
    if Takes(t, conns) {
      ReverseConcat(t.acquired, [t.ctl.leaf]);
      assert Reverse([t.ctl.leaf]) == [t.ctl.leaf];
    }
  }

  // ----- over whole runs

  lemma {:induction false} InvAlongRun(steps: seq<Step>, limits: Leaf -> int)
    requires Run(steps).Some? && forall i :: 0 <= i < |steps| && steps[i].Call? ==> Fits(steps[i].p, limits)
    ensures var s := Run(steps).value;
            Balanced(s) && Within(s, limits) && forall t :: 0 <= t < |s.tasks| ==> LastInFirstOut(s.tasks[t])
  {
    if steps != [] {
      InvAlongRun(steps[..|steps| - 1], limits);
      var s, e := Run(steps[..|steps| - 1]).value, steps[|steps| - 1];
      BalancedStep(s, e);
      WithinStep(s, e, limits);
      if e.Section? {
        AdvanceLastInFirstOut(s.tasks[e.t], s.conns, e.answer);
      } else {
        assert Reverse([]) == [] && Held(Running(Begin(e.p), [], [])) == [];
      }
    }
  }

  /**
    However the calls interleave, with every cleanup run once at most: each counter is the
    number of slots held, lies between 0 and its maximum, and every cleanup that a call ends
    with frees what the call took, last taken first.
   */
  lemma CountersAreTheSlotsHeld(steps: seq<Step>, limits: Leaf -> int, leaf: Leaf)
    requires Run(steps).Some? && forall i :: 0 <= i < |steps| && steps[i].Call? ==> Fits(steps[i].p, limits)
    ensures var s := Run(steps).value;
            && At(s.conns, leaf) == SlotsOf(s.tasks, leaf) >= 0
            && (At(s.conns, leaf) == 0 || At(s.conns, leaf) <= limits(leaf))
            && forall t :: 0 <= t < |s.tasks| && s.tasks[t].Holding? ==>
                             s.tasks[t].cleanup == Reverse(s.tasks[t].acquired)
  {
    InvAlongRun(steps, limits);
    var s := Run(steps).value;
    assert At(s.conns, leaf) == SlotsOf(s.tasks, leaf);
    forall t | 0 <= t < |s.tasks| && s.tasks[t].Holding?
      ensures s.tasks[t].cleanup == Reverse(s.tasks[t].acquired)
    {
      assert LastInFirstOut(s.tasks[t]);
    }
  }
}
