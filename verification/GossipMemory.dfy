/** What a peer remembers over whole runs: the answers of its resolver, and the subnets of pushes. */
module GossipMemory {
  import opened Wrappers
  import opened Gossip
  import opened GossipAllowances

  // ----- answers

  /** An application puts content for `id`, or a whole resolver, into peer `n`. */
  predicate Supplies(s: Step, n: nat, id: Id) {
    (s.Originate? && s.n == n && s.id == id) || (s.Resolve? && s.n == n)
  }

  /** The handler has found `id` unknown and has yet to insert it. */
  predicate Holds(node: Node, id: Id) {
    node.handler.GossipNew? && node.handler.id == id
  }

  predicate IsSectionOf(s: Step, n: nat) {
    s.Section? && s.n == n
  }

  /** What one step does to an answer, and to a handler that holds content for the same identifier. */
  lemma AnswerAfterStep(w: World, s: Step, alpha: nat, beta: nat, n: nat, id: Id)
    requires Enabled(w, s, alpha, beta) && !Supplies(s, n, id) && n < |w.nodes| && Knows(w.nodes[n], id)
    ensures var node, node' := w.nodes[n], Apply(w, s, alpha, beta).nodes[n];
            if Holds(node, id) && !IsSectionOf(s, n)
            then node'.handler == node.handler && Answer(node', id) == Answer(node, id)
            else
              && !Holds(node', id)
              && Answer(node', id) == if Holds(node, id) then Some(node.handler.content) else Answer(node, id)
  {
    if IsSectionOf(s, n) {
      OnlyNewInserts(s.n, w.nodes[s.n], s.to, s.ok, id);
      KnownIsNotHeld(s.n, w.nodes[s.n], s.to, s.ok, id);
    }
  }

  /** A handler does not take up what the resolver answers. */
  lemma KnownIsNotHeld(me: nat, node: Node, to: seq<nat>, ok: bool, id: Id)
    requires Knows(node, id)
    ensures !Holds(Advance(me, node, to, ok).node, id)
  {
  }

  /** Peer `n` takes a section in the run. */
  predicate TakesSection(steps: seq<Step>, n: nat) {
    exists i :: 0 <= i < |steps| && IsSectionOf(steps[i], n)
  }

  lemma TakesSectionCons(steps: seq<Step>, n: nat)
    requires steps != []
    ensures TakesSection(steps, n) <==> IsSectionOf(steps[0], n) || TakesSection(steps[1..], n)
  {
    if i :| 0 <= i < |steps| && IsSectionOf(steps[i], n) {
      assert i == 0 || steps[1..][i - 1] == steps[i];
    }
    if i :| 0 <= i < |steps[1..]| && IsSectionOf(steps[1..][i], n) {
      assert steps[i + 1] == steps[1..][i];
    }
  }

  /**
    Over whole runs in which no application supplies peer `n` with `id`: what its resolver
    answers stays as it is, except when the handler of the peer had already found `id` unknown
    at the start and takes its next section. Then its content is the answer.
   */
  lemma {:induction false} AnswerAfterRun(
    w: World, steps: seq<Step>, w': World, alpha: nat, beta: nat, n: nat, id: Id)
    requires Run(w, steps, alpha, beta) == Some(w') && n < |w.nodes| && Knows(w.nodes[n], id)
    requires forall i :: 0 <= i < |steps| ==> !Supplies(steps[i], n, id)
    ensures n < |w'.nodes|
    ensures Answer(w'.nodes[n], id) ==
            if Holds(w.nodes[n], id) && TakesSection(steps, n) then Some(w.nodes[n].handler.content)
            else Answer(w.nodes[n], id)
    decreases steps
  {
    if steps != [] {
      var w1 := Apply(w, steps[0], alpha, beta);
      AnswerAfterStep(w, steps[0], alpha, beta, n, id);
      TakesSectionCons(steps, n);
      AnswerAfterRun(w1, steps[1..], w', alpha, beta, n, id);
    }
  }

  /**
    An answer is replaced along such a run if and only if, when the run starts, the handler is
    past its query for the same identifier with another content, and goes on.
   */
  lemma AnswerIsReplacedIff(w: World, steps: seq<Step>, w': World, alpha: nat, beta: nat, n: nat, id: Id)
    requires Run(w, steps, alpha, beta) == Some(w') && n < |w.nodes| && Knows(w.nodes[n], id)
    requires forall i :: 0 <= i < |steps| ==> !Supplies(steps[i], n, id)
    ensures n < |w'.nodes| && Knows(w'.nodes[n], id)
    ensures Answer(w'.nodes[n], id) != Answer(w.nodes[n], id) <==>
            && Holds(w.nodes[n], id) && TakesSection(steps, n)
            && Some(w.nodes[n].handler.content) != Answer(w.nodes[n], id)
  {
    AnswerAfterRun(w, steps, w', alpha, beta, n, id);
  }

  // ----- subnets

  /** The step stores the subnet of a push for `id` at peer `n`. */
  predicate IsStore(w: World, s: Step, n: nat, id: Id) {
    IsSectionOf(s, n) && n < |w.nodes| && w.nodes[n].handler.PushUnknown? && w.nodes[n].handler.id == id
  }

  /** No step of the run stores a subnet for `id` at peer `n`. */
  predicate NeverStores(w: World, steps: seq<Step>, alpha: nat, beta: nat, n: nat, id: Id)
    decreases steps
  {
    steps == [] || !Enabled(w, steps[0], alpha, beta) ||
    (!IsStore(w, steps[0], n, id) && NeverStores(Apply(w, steps[0], alpha, beta), steps[1..], alpha, beta, n, id))
  }

  /** The subnet that a peer remembers for `id`, if any. */
  function SubnetOf(node: Node, id: Id): Option<Subnet> {
    if id in node.subnets then Some(node.subnets[id]) else None
  }

  lemma SubnetAfterStep(w: World, s: Step, alpha: nat, beta: nat, n: nat, id: Id)
    requires Enabled(w, s, alpha, beta) && n < |w.nodes|
    ensures SubnetOf(Apply(w, s, alpha, beta).nodes[n], id) ==
            if IsStore(w, s, n, id) then Some(w.nodes[n].handler.subnet)
            else if s == TimerForgets(n, id) then None
            else SubnetOf(w.nodes[n], id)
  {
    var node' := Apply(w, s, alpha, beta).nodes[n];
    if IsSectionOf(s, n) {
      SubnetAfterSection(n, w.nodes[n], s.to, s.ok, id);
      assert node' == Advance(n, w.nodes[n], s.to, s.ok).node;
    } else if s.TimerForgets? && s.n == n {
      SubnetAfterForget(w.nodes[n], s.id, id);
      assert node' == Forget(w.nodes[n], s.id);
    } else {
      OthersKeepSubnets(w, s, alpha, beta, n);
    }
  }

  lemma SubnetAfterForget(node: Node, timed: Id, id: Id)
    ensures SubnetOf(Forget(node, timed), id) == if timed == id then None else SubnetOf(node, id)
  {
  }

  lemma OthersKeepSubnets(w: World, s: Step, alpha: nat, beta: nat, n: nat)
    requires Enabled(w, s, alpha, beta) && n < |w.nodes| && !IsSectionOf(s, n) && !(s.TimerForgets? && s.n == n)
    ensures Apply(w, s, alpha, beta).nodes[n].subnets == w.nodes[n].subnets
  {
  }

  lemma SubnetAfterSection(me: nat, node: Node, to: seq<nat>, ok: bool, id: Id)
    ensures SubnetOf(Advance(me, node, to, ok).node, id) ==
            if node.handler.PushUnknown? && node.handler.id == id then Some(node.handler.subnet)
            else SubnetOf(node, id)
  {
  }

  /**
    Over whole runs that store no subnet for `id` at peer `n`: the one of the start is remembered
    at the end, and the same one, if and only if no timer of any push for `id` has forgotten it.
   */
  lemma {:induction false} SubnetIsRememberedIff(
    w: World, steps: seq<Step>, w': World, alpha: nat, beta: nat, n: nat, id: Id)
    requires Run(w, steps, alpha, beta) == Some(w') && n < |w.nodes|
    requires NeverStores(w, steps, alpha, beta, n, id)
    ensures n < |w'.nodes|
    ensures SubnetOf(w'.nodes[n], id) ==
            if TimerForgets(n, id) in steps then None else SubnetOf(w.nodes[n], id)
    decreases steps
  {
    if steps != [] {
      SubnetAfterStep(w, steps[0], alpha, beta, n, id);
      SubnetIsRememberedIff(Apply(w, steps[0], alpha, beta), steps[1..], w', alpha, beta, n, id);
      assert steps == [steps[0]] + steps[1..];
    }
  }

  /**
    When content has been inserted, it is passed on with the subnet that the latest push stored,
    if no timer has run out since, be it of this push or of an earlier one; otherwise not at all.
   */
  lemma PushIsPassedOnIff(
    w: World, s: Step, steps: seq<Step>, w': World, alpha: nat, beta: nat, n: nat, id: Id, to: seq<nat>, ok: bool)
    requires Enabled(w, s, alpha, beta) && IsStore(w, s, n, id)
    requires Run(Apply(w, s, alpha, beta), steps, alpha, beta) == Some(w')
    requires NeverStores(Apply(w, s, alpha, beta), steps, alpha, beta, n, id)
    requires n < |w'.nodes| && w'.nodes[n].handler == Inserted(id)
    ensures Advance(n, w'.nodes[n], to, ok).node.handler ==
            if TimerForgets(n, id) in steps then Idle else Gossiping(id, w.nodes[n].handler.subnet)
  {
    SubnetAfterStep(w, s, alpha, beta, n, id);
    SubnetIsRememberedIff(Apply(w, s, alpha, beta), steps, w', alpha, beta, n, id);
  }
}
