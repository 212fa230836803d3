/** A call that nothing interrupts: its sections add up to what `Eval` says in one go. */
module PolicyRefinement {
  import opened Policy
  import opened PolicyMachine

  datatype Config = Config(task: Task, conns: map<Leaf, int>, asked: nat)

  predicate Asks(t: Task) {
    t.Running? && t.ctl.Begin? && t.ctl.p.RateLimit?
  }

  function Next(k: Config, oracle: Oracle): Config {
    var m := Advance(k.task, k.conns, oracle(k.asked));
    Config(m.task, m.conns, k.asked + if Asks(k.task) then 1 else 0)
  }

  function Iterate(k: Config, n: nat, oracle: Oracle): Config
    decreases n
  {
    if n == 0 then k else Iterate(Next(k, oracle), n - 1, oracle)
  }

  ghost predicate Reaches(k: Config, k': Config, oracle: Oracle) {
    exists n: nat :: Iterate(k, n, oracle) == k'
  }

  lemma ReachesItself(k: Config, oracle: Oracle)
    ensures Reaches(k, k, oracle)
  {
    assert Iterate(k, 0, oracle) == k;
  }

  lemma {:induction false} IterateAdds(k: Config, n: nat, n': nat, oracle: Oracle)
    ensures Iterate(k, n + n', oracle) == Iterate(Iterate(k, n, oracle), n', oracle)
    decreases n
  {
    if n > 0 {
      IterateAdds(Next(k, oracle), n - 1, n', oracle);
    }
  }

  lemma ReachesFurther(a: Config, b: Config, c: Config, oracle: Oracle)
    requires Reaches(a, b, oracle) && Reaches(b, c, oracle)
    ensures Reaches(a, c, oracle)
  {
    var n: nat :| Iterate(a, n, oracle) == b;
    var n': nat :| Iterate(b, n', oracle) == c;
    IterateAdds(a, n, n', oracle);
  }

  lemma ReachesNext(k: Config, k': Config, oracle: Oracle)
    requires Next(k, oracle) == k'
    ensures Reaches(k, k', oracle)
  {
    assert Iterate(k', 0, oracle) == k';
    assert Iterate(k, 1, oracle) == k';
  }

  /** The configuration in which a call has returned `o` to the frames below it. */
  function Returned(c: Counters, o: Out, stack: seq<Frame>, acquired: seq<Leaf>): Config {
    Config(Running(Return(o.ok, o.cleanup), stack, acquired + Own(c, o)), o.after.conns, o.after.asked)
  }

  lemma {:induction false} BeginReturns(p: Policy, stack: seq<Frame>, acquired: seq<Leaf>, c: Counters, oracle: Oracle)
    ensures Reaches(Config(Running(Begin(p), stack, acquired), c.conns, c.asked),
                    Returned(c, Eval(p, c, oracle), stack, acquired), oracle)
    decreases p, 1
  {
    var k := Config(Running(Begin(p), stack, acquired), c.conns, c.asked);
    var k' := Returned(c, Eval(p, c, oracle), stack, acquired);
    assert acquired + [] == acquired;
    match p
    case Max(leaf, max) =>
      if 0 <= max && At(c.conns, leaf) < max {
        var mid := Config(Running(Looked(leaf, max), stack, acquired), c.conns, c.asked);
        ReachesNext(k, mid, oracle);
        assert Own(c, Eval(p, c, oracle)) == [leaf];
        ReachesNext(mid, k', oracle);
        ReachesFurther(k, mid, k', oracle);
      } else {
        assert Own(c, Eval(p, c, oracle)) == [];
        ReachesNext(k, k', oracle);
      }
    case RateLimit =>
      assert Own(c, Eval(p, c, oracle)) == [];
      ReachesNext(k, k', oracle);
    case All(fs) =>
      var mid := Config(Continue(AllFrame(fs, []), stack, acquired), c.conns, c.asked);
      ReachesNext(k, mid, oracle);
      AllReturns(fs, [], stack, acquired, c, oracle);
      ReachesFurther(k, mid, k', oracle);
    case Any(fs) =>
      var mid := Config(Continue(AnyFrame(fs, false, []), stack, acquired), c.conns, c.asked);
      ReachesNext(k, mid, oracle);
      AnyReturns(fs, false, [], stack, acquired, c, oracle);
      ReachesFurther(k, mid, k', oracle);
  }

  /** The increments of one policy, and then those of the rest of the loop. */
  lemma OwnAdds(c: Counters, o: Out, rest: Out, acquired: seq<Leaf>)
    requires c.log <= o.after.log <= rest.after.log
    ensures acquired + Own(c, rest) == (acquired + Own(c, o)) + Own(o.after, rest)
  {
  }

  lemma LogGrows(fs: seq<Policy>, any: bool, cleanup: seq<Leaf>, c: Counters, oracle: Oracle)
    requires fs != []
    ensures var o := Eval(fs[0], c, oracle);
            && c.log <= o.after.log <= EvalAll(fs, cleanup, c, oracle).after.log
            && o.after.log <= EvalAny(fs, any, cleanup, c, oracle).after.log
  {
    var o := Eval(fs[0], c, oracle);
    EvalConserves(fs[0], c, oracle);
    EvalAllConserves(fs[1..], OrNothing(o.cleanup) + cleanup, o.after, oracle);
    EvalAnyConserves(fs[1..], any || o.ok, OrNothing(o.cleanup) + cleanup, o.after, oracle);
  }

  /** The first policy of a loop runs and hands its result to the frame of the loop. */
  lemma FirstReturns(frame: Frame, fs: seq<Policy>, stack: seq<Frame>, acquired: seq<Leaf>, c: Counters, oracle: Oracle)
    requires fs != [] && frame.rest == fs[1..]
    requires Reaches(Config(Running(Begin(fs[0]), [frame] + stack, acquired), c.conns, c.asked),
                     Returned(c, Eval(fs[0], c, oracle), [frame] + stack, acquired), oracle)
    ensures var o := Eval(fs[0], c, oracle);
            Reaches(Config(Running(Begin(fs[0]), [frame] + stack, acquired), c.conns, c.asked),
                    Config(Deliver(o.ok, o.cleanup, [frame] + stack, acquired + Own(c, o)),
                           o.after.conns, o.after.asked),
                    oracle)
  {
    var o := Eval(fs[0], c, oracle);
    var k := Config(Running(Begin(fs[0]), [frame] + stack, acquired), c.conns, c.asked);
    var mid := Returned(c, o, [frame] + stack, acquired);
    var k' := Config(Deliver(o.ok, o.cleanup, [frame] + stack, acquired + Own(c, o)), o.after.conns, o.after.asked);
    ReachesNext(mid, k', oracle);
    ReachesFurther(k, mid, k', oracle);
  }

  lemma {:induction false} AllReturns(
    fs: seq<Policy>, cleanup: seq<Leaf>, stack: seq<Frame>, acquired: seq<Leaf>, c: Counters, oracle: Oracle)
    ensures Reaches(Config(Continue(AllFrame(fs, cleanup), stack, acquired), c.conns, c.asked),
                    Returned(c, EvalAll(fs, cleanup, c, oracle), stack, acquired), oracle)
    decreases fs, 0
  {
    var k := Config(Continue(AllFrame(fs, cleanup), stack, acquired), c.conns, c.asked);
    var all := EvalAll(fs, cleanup, c, oracle);
    var k' := Returned(c, all, stack, acquired);
    if fs == [] {
      assert acquired + [] == acquired;
      ReachesItself(k, oracle);
    } else {
      var frame := AllFrame(fs[1..], cleanup);
      var o := Eval(fs[0], c, oracle);
      BeginReturns(fs[0], [frame] + stack, acquired, c, oracle);
      FirstReturns(frame, fs, stack, acquired, c, oracle);
      assert ([frame] + stack)[1..] == stack;
      LogGrows(fs, false, cleanup, c, oracle);
      OwnAdds(c, o, all, acquired);
      var composed := OrNothing(o.cleanup) + cleanup;
      if o.ok {
        var mid := Config(Continue(AllFrame(fs[1..], composed), stack, acquired + Own(c, o)),
                          o.after.conns, o.after.asked);
        AllReturns(fs[1..], composed, stack, acquired + Own(c, o), o.after, oracle);
        ReachesFurther(k, mid, k', oracle);
      } else {
        assert Own(o.after, all) == [];
        assert (acquired + Own(c, o)) + [] == acquired + Own(c, o);
      }
    }
  }

  lemma {:induction false} AnyReturns(
    fs: seq<Policy>, any: bool, cleanup: seq<Leaf>, stack: seq<Frame>, acquired: seq<Leaf>, c: Counters, oracle: Oracle)
    ensures Reaches(Config(Continue(AnyFrame(fs, any, cleanup), stack, acquired), c.conns, c.asked),
                    Returned(c, EvalAny(fs, any, cleanup, c, oracle), stack, acquired), oracle)
    decreases fs, 0
  {
    var k := Config(Continue(AnyFrame(fs, any, cleanup), stack, acquired), c.conns, c.asked);
    var all := EvalAny(fs, any, cleanup, c, oracle);
    var k' := Returned(c, all, stack, acquired);
    if fs == [] {
      assert acquired + [] == acquired;
      ReachesItself(k, oracle);
    } else {
      var frame := AnyFrame(fs[1..], any, cleanup);
      var o := Eval(fs[0], c, oracle);
      BeginReturns(fs[0], [frame] + stack, acquired, c, oracle);
      FirstReturns(frame, fs, stack, acquired, c, oracle);
      assert ([frame] + stack)[1..] == stack;
      LogGrows(fs, any, cleanup, c, oracle);
      OwnAdds(c, o, all, acquired);
      var composed := OrNothing(o.cleanup) + cleanup;
      var mid := Config(Continue(AnyFrame(fs[1..], any || o.ok, composed), stack, acquired + Own(c, o)),
                        o.after.conns, o.after.asked);
      AnyReturns(fs[1..], any || o.ok, composed, stack, acquired + Own(c, o), o.after, oracle);
      ReachesFurther(k, mid, k', oracle);
    }
  }

  /**
    Run by itself, the broken-up call of any policy comes to hold exactly the verdict, the
    cleanup and the counters that the policy evaluates to.
   */
  lemma AloneIsEval(p: Policy, c: Counters, oracle: Oracle)
    ensures var o := Eval(p, c, oracle);
            Reaches(Config(Running(Begin(p), [], []), c.conns, c.asked),
                    Config(Holding(o.ok, OrNothing(o.cleanup), Own(c, o)), o.after.conns, o.after.asked), oracle)
  {
    var o := Eval(p, c, oracle);
    BeginReturns(p, [], [], c, oracle);
    var mid := Returned(c, o, [], []);
    assert [] + Own(c, o) == Own(c, o);
    var k' := Config(Holding(o.ok, OrNothing(o.cleanup), Own(c, o)), o.after.conns, o.after.asked);
    ReachesNext(mid, k', oracle);
    ReachesFurther(Config(Running(Begin(p), [], []), c.conns, c.asked), mid, k', oracle);
  }
}
