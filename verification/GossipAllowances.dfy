/** Allowances over whole runs of the gossip network, and the insertions that need them. */
module GossipAllowances {
  import opened Wrappers
  import opened Gossip
  import opened GossipSafety

  // ----- conservation of allowances

  /** The step makes an allowance for `id` at peer `n`. */
  predicate IsAllow(w: World, s: Step, n: nat, id: Id) {
    && n < |w.nodes|
    && ((s.Section? && s.n == n && w.nodes[n].handler.PushStored? && w.nodes[n].handler.id == id)
        || (s.SyncAllows? && s.n == n && s.k < |w.nodes[n].calls| && w.nodes[n].calls[s.k].id == id))
  }

  /** The step reverses an allowance for `id` at peer `n`. */
  predicate IsDeny(w: World, s: Step, n: nat, id: Id) {
    && n < |w.nodes|
    && ((s.TimerDenies? && s.n == n && s.id == id)
        || (s.SyncDenies? && s.n == n && s.k < |w.nodes[n].calls| && w.nodes[n].calls[s.k].id == id))
  }

  function One(b: bool): nat {
    if b then 1 else 0
  }

  lemma AllowancesAfterSection(me: nat, node: Node, to: seq<nat>, ok: bool, id: Id)
    ensures Allowances(Advance(me, node, to, ok).node, id) ==
            Allowances(node, id) + One(node.handler.PushStored? && node.handler.id == id)
  {
    var node' := Advance(me, node, to, ok).node;
    if !node.handler.PushStored? {
      assert node'.live == node.live && node'.fading == node.fading && node'.calls == node.calls;
    }
  }

  /** How moving a Sync call on changes the allowances. */
  lemma AllowancesAfterMove(node: Node, node': Node, k: nat, stage: Stage, id: Id)
    requires k < |node.calls| && node'.calls == Move(node, k, stage)
    requires node'.live == node.live && node'.fading == node.fading
    ensures var c := node.calls[k];
            Allowances(node', id) + One(Holds(c) && c.id == id) ==
            Allowances(node, id) + One(Holds(c.(stage := stage)) && c.id == id)
  {
    HeldByCallsUpdate(node.calls, k, node.calls[k].(stage := stage), id);
  }

  /** The steps of Sync callers. */
  predicate IsCallStep(s: Step) {
    s.SyncAllows? || s.SyncPulls? || s.SyncReturns? || s.SyncDenies?
  }

  lemma AllowancesAfterCall(w: World, s: Step, alpha: nat, beta: nat, id: Id)
    requires Enabled(w, s, alpha, beta) && IsCallStep(s)
    ensures Allowances(Changed(w, s), id) + One(IsDeny(w, s, s.n, id)) ==
            Allowances(w.nodes[s.n], id) + One(IsAllow(w, s, s.n, id))
  {
    var node, node' := w.nodes[s.n], Changed(w, s);
    match s
    case SyncAllows(_, k) => AllowancesAfterMove(node, node', k, Pulling, id);
    case SyncPulls(_, k, _) => AllowancesAfterMove(node, node', k, Waiting, id);
    case SyncReturns(_, k, _) => AllowancesAfterMove(node, node', k, Leaving, id);
    case SyncDenies(_, k) => AllowancesAfterMove(node, node', k, Over, id);
  }

  /** How a step changes the allowances of the peer that takes it. */
  lemma AllowancesAfter(w: World, s: Step, alpha: nat, beta: nat, id: Id)
    requires Enabled(w, s, alpha, beta) && !s.Lose?
    ensures var n := Who(w, s);
            Allowances(Changed(w, s), id) + One(IsDeny(w, s, n, id)) ==
            Allowances(w.nodes[n], id) + One(IsAllow(w, s, n, id))
  {
    var node, node' := w.nodes[Who(w, s)], Changed(w, s);
    if IsCallStep(s) {
      AllowancesAfterCall(w, s, alpha, beta, id);
    } else if s.Section? {
      AllowancesAfterSection(s.n, node, s.to, s.ok, id);
    } else if s.StartSync? {
      AllowancesAfterOpen(node, s.id, id);
    } else if s.TimerForgets? || s.TimerDenies? {
      AllowancesAfterTimer(node, s.id, id);
    } else {
      assert node'.live == node.live && node'.fading == node.fading && node'.calls == node.calls;
    }
  }

  lemma AllowancesAfterOpen(node: Node, called: Id, id: Id)
    ensures Allowances(Open(node, called), id) == Allowances(node, id)
  {
    HeldByCallsAppend(node.calls, Open(node, called).calls[|node.calls|], id);
  }

  lemma AllowancesAfterTimer(node: Node, timed: Id, id: Id)
    ensures timed in node.live ==> Allowances(Forget(node, timed), id) == Allowances(node, id)
    ensures timed in node.fading ==> Allowances(Expire(node, timed), id) + One(timed == id) == Allowances(node, id)
  {
  }

  lemma AllowancesAfterStep(w: World, s: Step, alpha: nat, beta: nat, n: nat, id: Id)
    requires Enabled(w, s, alpha, beta) && n < |w.nodes|
    ensures Allowances(Apply(w, s, alpha, beta).nodes[n], id) + One(IsDeny(w, s, n, id)) ==
            Allowances(w.nodes[n], id) + One(IsAllow(w, s, n, id))
  {
    if !s.Lose? && Who(w, s) == n {
      AllowancesAfter(w, s, alpha, beta, id);
    }
  }

  /** How many steps of a run make, and how many reverse, an allowance for `id` at peer `n`. */
  function Allows(w: World, steps: seq<Step>, alpha: nat, beta: nat, n: nat, id: Id): nat
    decreases steps
  {
    if steps == [] || !Enabled(w, steps[0], alpha, beta) then 0
    else One(IsAllow(w, steps[0], n, id)) + Allows(Apply(w, steps[0], alpha, beta), steps[1..], alpha, beta, n, id)
  }

  function Denies(w: World, steps: seq<Step>, alpha: nat, beta: nat, n: nat, id: Id): nat
    decreases steps
  {
    if steps == [] || !Enabled(w, steps[0], alpha, beta) then 0
    else One(IsDeny(w, steps[0], n, id)) + Denies(Apply(w, steps[0], alpha, beta), steps[1..], alpha, beta, n, id)
  }

  /**
    Over whole runs allowances are conserved: those at the end are those at the start and those
    made, less those reversed.
   */
  lemma {:induction false} AllowancesAreConserved(
    w: World, steps: seq<Step>, w': World, alpha: nat, beta: nat, n: nat, id: Id)
    requires Run(w, steps, alpha, beta) == Some(w') && n < |w.nodes|
    ensures n < |w'.nodes|
    ensures Allowances(w'.nodes[n], id) + Denies(w, steps, alpha, beta, n, id) ==
            Allowances(w.nodes[n], id) + Allows(w, steps, alpha, beta, n, id)
    decreases steps
  {
    if steps != [] {
      AllowancesAfterStep(w, steps[0], alpha, beta, n, id);
      AllowancesAreConserved(Apply(w, steps[0], alpha, beta), steps[1..], w', alpha, beta, n, id);
    }
  }

  // ----- every insertion has a check of its own

  lemma {:induction false} RunConcat(w: World, a: seq<Step>, b: seq<Step>, alpha: nat, beta: nat)
    ensures Run(w, a + b, alpha, beta) ==
            match Run(w, a, alpha, beta) case None => None case Some(x) => Run(x, b, alpha, beta)
    decreases a
  {
    if a == [] {
      assert a + b == b;
    } else {
      assert (a + b)[0] == a[0] && (a + b)[1..] == a[1..] + b;
      if Enabled(w, a[0], alpha, beta) {
        RunConcat(Apply(w, a[0], alpha, beta), a[1..], b, alpha, beta);
      }
    }
  }

  /** The last step of a run, and the state before it. */
  lemma RunLast(w: World, steps: seq<Step>, w': World, alpha: nat, beta: nat) returns (w1: World)
    requires steps != [] && Run(w, steps, alpha, beta) == Some(w')
    ensures Run(w, steps[..|steps| - 1], alpha, beta) == Some(w1)
    ensures Enabled(w1, steps[|steps| - 1], alpha, beta) && w' == Apply(w1, steps[|steps| - 1], alpha, beta)
  {
    var init, s := steps[..|steps| - 1], steps[|steps| - 1];
    assert steps == init + [s];
    RunConcat(w, init, [s], alpha, beta);
    w1 := Run(w, init, alpha, beta).value;
    assert Run(w1, [s], alpha, beta) == Some(w');
  }

  /** In `w`, the handler of peer `n` has let `content` pass and has yet to insert it. */
  predicate PassedAt(w: World, n: nat, id: Id, content: Content) {
    && n < |w.nodes|
    && (w.nodes[n].handler == GossipPassed(id, content) || w.nodes[n].handler == GossipNew(id, content))
  }

  /** The step is the section in which the handler of peer `n` inserts `content`. */
  predicate Inserts(w: World, s: Step, n: nat, id: Id, content: Content) {
    s.Section? && s.n == n && n < |w.nodes| && w.nodes[n].handler == GossipNew(id, content) && w.nodes[n].resolver.Some?
  }

  /** In `w`, the handler of peer `n` checks `content` and will let it pass. */
  predicate ChecksAt(w: World, n: nat, id: Id, content: Content) {
    n < |w.nodes| && w.nodes[n].handler == GossipCheck(id, content) && id in w.nodes[n].expecting
  }

  lemma OnlyChecksPass(w: World, s: Step, alpha: nat, beta: nat, n: nat, id: Id, content: Content)
    requires Enabled(w, s, alpha, beta) && !PassedAt(w, n, id, content)
    requires PassedAt(Apply(w, s, alpha, beta), n, id, content)
    ensures s.Section? && s.n == n && ChecksAt(w, n, id, content)
  {
    if s.Section? && s.n == n {
      OnlyCheckingPasses(n, w.nodes[n], s.to, s.ok);
    }
  }

  predicate IsPassed(h: Handler) {
    h.GossipPassed? || h.GossipNew?
  }

  lemma OnlyCheckingPasses(me: nat, node: Node, to: seq<nat>, ok: bool)
    ensures var h, h' := node.handler, Advance(me, node, to, ok).node.handler;
            IsPassed(h') ==>
              && h'.id == h.id && h'.content == h.content
              && (IsPassed(h) || (h.GossipCheck? && h.id in node.expecting))
  {
  }

  /** The handler is the same, between its check and its insertion, at all of these points. */
  ghost predicate PassedThroughout(
    w: World, steps: seq<Step>, k: nat, alpha: nat, beta: nat, n: nat, id: Id, content: Content)
  {
    forall j :: k < j <= |steps| ==>
      Run(w, steps[..j], alpha, beta).Some? && PassedAt(Run(w, steps[..j], alpha, beta).value, n, id, content)
  }

  lemma PassedOneMore(
    w: World, steps: seq<Step>, w': World, k: nat, alpha: nat, beta: nat, n: nat, id: Id, content: Content)
    requires steps != [] && Run(w, steps, alpha, beta) == Some(w') && PassedAt(w', n, id, content)
    requires k == |steps| - 1 || PassedThroughout(w, steps[..|steps| - 1], k, alpha, beta, n, id, content)
    ensures PassedThroughout(w, steps, k, alpha, beta, n, id, content)
  {
    var init := steps[..|steps| - 1];
    forall j | k < j <= |steps|
      ensures Run(w, steps[..j], alpha, beta).Some?
      ensures PassedAt(Run(w, steps[..j], alpha, beta).value, n, id, content)
    {
      if j < |steps| {
        assert init[..j] == steps[..j];
      } else {
        assert steps[..j] == steps;
      }
    }
  }

  /** Whoever is about to insert has come through a check that saw the identifier expected. */
  lemma {:induction false} PassWasChecked(
    w: World, steps: seq<Step>, w': World, alpha: nat, beta: nat, n: nat, id: Id, content: Content)
    returns (k: nat, wk: World)
    requires Run(w, steps, alpha, beta) == Some(w') && !PassedAt(w, n, id, content) && PassedAt(w', n, id, content)
    ensures k < |steps| && steps[k].Section? && steps[k].n == n
    ensures Run(w, steps[..k], alpha, beta) == Some(wk) && ChecksAt(wk, n, id, content)
    ensures PassedThroughout(w, steps, k, alpha, beta, n, id, content)
    decreases |steps|
  {
    var last := |steps| - 1;
    var init := steps[..last];
    var w1 := RunLast(w, steps, w', alpha, beta);
    if PassedAt(w1, n, id, content) {
      k, wk := PassWasChecked(w, init, w1, alpha, beta, n, id, content);
      assert init[..k] == steps[..k];
    } else {
      OnlyChecksPass(w1, steps[last], alpha, beta, n, id, content);
      k, wk := last, w1;
    }
    PassedOneMore(w, steps, w', k, alpha, beta, n, id, content);
  }

  /** What a resolver answers changes only by an application's own doing, or by such a section. */
  lemma OnlyInsertionsChange(w: World, s: Step, alpha: nat, beta: nat, n: nat, id: Id)
    requires Enabled(w, s, alpha, beta) && !s.Originate? && !s.Resolve? && n < |w.nodes|
    requires Answer(Apply(w, s, alpha, beta).nodes[n], id) != Answer(w.nodes[n], id)
    ensures var answer := Answer(Apply(w, s, alpha, beta).nodes[n], id);
            answer.Some? && Inserts(w, s, n, id, answer.value)
  {
    if s.Section? {
      OnlyNewInserts(s.n, w.nodes[s.n], s.to, s.ok, id);
    }
  }

  lemma OnlyNewInserts(me: nat, node: Node, to: seq<nat>, ok: bool, id: Id)
    ensures var node' := Advance(me, node, to, ok).node;
            if node.handler.GossipNew? && node.resolver.Some? && node.handler.id == id
            then Answer(node', id) == Some(node.handler.content)
            else Answer(node', id) == Answer(node, id)
  {
  }

  /**
    From a check that sees the identifier expected, along any run: an allowance was there at
    the check, and one is there at the end if and only if fewer Denies came in between than
    there were allowances at the check and Allows since.
   */
  lemma AllowanceOutlastsIff(
    w: World, steps: seq<Step>, w': World, alpha: nat, beta: nat, n: nat, id: Id, content: Content)
    requires Reachable(w, alpha, beta) && ChecksAt(w, n, id, content) && Run(w, steps, alpha, beta) == Some(w')
    ensures n < |w'.nodes| && Allowances(w.nodes[n], id) > 0
    ensures Allowances(w'.nodes[n], id) > 0 <==>
            Denies(w, steps, alpha, beta, n, id) < Allowances(w.nodes[n], id) + Allows(w, steps, alpha, beta, n, id)
  {
    ReachableIsSafe(w, alpha, beta);
    assert Exact(w.nodes[n], id);
    AllowancesAreConserved(w, steps, w', alpha, beta, n, id);
  }

  /**
    Every insertion of every run that is not an application's own: the handler that inserts came
    through a check of this very data at step `k`, which found an allowance, and has handled
    nothing else since. The insertion happens with an allowance outstanding if and only if the
    Denies since that check have not used up those that there were and those made since.
   */
  lemma InsertionIsAllowedIff(
    peers: nat, steps: seq<Step>, w: World, s: Step, alpha: nat, beta: nat, n: nat, id: Id, content: Content)
    returns (k: nat, wk: World)
    requires Run(Init(peers), steps, alpha, beta) == Some(w) && Inserts(w, s, n, id, content)
    ensures k < |steps| && steps[k].Section? && steps[k].n == n
    ensures Run(Init(peers), steps[..k], alpha, beta) == Some(wk) && ChecksAt(wk, n, id, content)
    ensures PassedThroughout(Init(peers), steps, k, alpha, beta, n, id, content)
    ensures Allowances(wk.nodes[n], id) > 0
    ensures Allowances(w.nodes[n], id) > 0 <==>
            Denies(wk, steps[k..], alpha, beta, n, id) <
            Allowances(wk.nodes[n], id) + Allows(wk, steps[k..], alpha, beta, n, id)
  {
    k, wk := PassWasChecked(Init(peers), steps, w, alpha, beta, n, id, content);
    RunContinues(peers, steps, w, k, wk, alpha, beta);
    AllowanceOutlastsIff(wk, steps[k..], w, alpha, beta, n, id, content);
  }

  /** A run goes on from any state that it passes through. */
  lemma RunContinues(peers: nat, steps: seq<Step>, w: World, k: nat, wk: World, alpha: nat, beta: nat)
    requires Run(Init(peers), steps, alpha, beta) == Some(w) && k <= |steps|
    requires Run(Init(peers), steps[..k], alpha, beta) == Some(wk)
    ensures Reachable(wk, alpha, beta) && Run(wk, steps[k..], alpha, beta) == Some(w)
  {
    assert steps == steps[..k] + steps[k..];
    RunConcat(Init(peers), steps[..k], steps[k..], alpha, beta);
  }
}
