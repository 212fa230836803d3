/** What every interleaving of the gossip network keeps: integrity of content, and allowances. */
module GossipSafety {
  import opened Wrappers
  import opened Gossip
  import F = SyncFilter

  // ----- integrity: content is only what some application put in

  ghost predicate HandlerHonest(h: Handler, passed: set<Pair>, origin: set<Pair>) {
    match h
    case PullFound(_, id, content) => (id, content) in origin
    case SyncArrived(id, content) => (id, content) in origin
    case SyncerPassed(id, content) => (id, content) in passed
    case GossipCheck(id, content) => (id, content) in origin
    case GossipPassed(id, content) => (id, content) in passed
    case GossipNew(id, content) => (id, content) in passed
    case _ => true
  }

  /** Every identified slot holds nothing, or data that passed the filter for its identifier. */
  ghost predicate SlotsHonest(slots: seq<Slot>, pending: map<Id, nat>, calls: seq<Call>, passed: set<Pair>) {
    && (forall o :: 0 <= o < |slots| && slots[o].content.Some? ==> (slots[o].id, slots[o].content.value) in passed)
    && (forall id :: id in pending ==> pending[id] < |slots| && slots[pending[id]].id == id)
    && (forall k :: 0 <= k < |calls| ==> calls[k].slot < |slots| && slots[calls[k].slot].id == calls[k].id)
  }

  ghost predicate Honest(node: Node, origin: set<Pair>) {
    && AnswersHonest(node.resolver, origin)
    && HandlerHonest(node.handler, node.passed, origin)
    && SlotsHonest(node.slots, node.pending, node.calls, node.passed)
    && node.passed <= origin
    && node.returned <= node.passed
  }

  ghost predicate MsgHonest(m: Msg, origin: set<Pair>) {
    m.Sync? ==> (m.id, m.content) in origin
  }

  lemma ArriveHonest(node: Node, m: Msg, origin: set<Pair>)
    requires Honest(node, origin) && MsgHonest(m, origin)
    ensures Honest(Arrive(node, m), origin)
  {
  }

  lemma SlotsAfterSignal(node: Node, id: Id, content: Content)
    requires SlotsHonest(node.slots, node.pending, node.calls, node.passed) && (id, content) in node.passed
    ensures SlotsHonest(Signalled(node, id, content), node.pending, node.calls, node.passed)
  {
  }

  lemma AdvanceHonest(me: nat, node: Node, to: seq<nat>, ok: bool, origin: set<Pair>)
    requires Honest(node, origin)
    ensures Honest(Advance(me, node, to, ok).node, origin)
  {
    AdvanceAnswersHonest(me, node, to, ok, origin);
    AdvanceHandlerHonest(me, node, to, ok, origin);
    AdvanceSlotsHonest(me, node, to, ok, origin);
  }

  ghost predicate AnswersHonest(resolver: Option<map<Id, Content>>, origin: set<Pair>) {
    resolver.Some? ==> forall id :: id in resolver.value ==> (id, resolver.value[id]) in origin
  }

  lemma AdvanceAnswersHonest(me: nat, node: Node, to: seq<nat>, ok: bool, origin: set<Pair>)
    requires AnswersHonest(node.resolver, origin)
    requires HandlerHonest(node.handler, node.passed, origin) && node.passed <= origin
    ensures AnswersHonest(Advance(me, node, to, ok).node.resolver, origin)
  {
    var node' := Advance(me, node, to, ok).node;
    if node.handler.GossipNew? && node.resolver.Some? {
      assert node'.resolver.value == node.resolver.value[node.handler.id := node.handler.content];
    } else {
      assert node'.resolver == node.resolver;
    }
  }

  lemma AdvanceHandlerHonest(me: nat, node: Node, to: seq<nat>, ok: bool, origin: set<Pair>)
    requires HandlerHonest(node.handler, node.passed, origin) && node.returned <= node.passed <= origin
    ensures var node' := Advance(me, node, to, ok).node;
            HandlerHonest(node'.handler, node'.passed, origin) && node'.returned <= node'.passed <= origin
  {
  }

  lemma AdvanceSlotsHonest(me: nat, node: Node, to: seq<nat>, ok: bool, origin: set<Pair>)
    requires SlotsHonest(node.slots, node.pending, node.calls, node.passed)
    requires HandlerHonest(node.handler, node.passed, origin)
    ensures var node' := Advance(me, node, to, ok).node;
            SlotsHonest(node'.slots, node'.pending, node'.calls, node'.passed)
  {
    var node' := Advance(me, node, to, ok).node;
    if node.handler.SyncerPassed? {
      SlotsAfterSignal(node, node.handler.id, node.handler.content);
    } else {
      assert node'.slots == node.slots && node'.pending == node.pending && node'.calls == node.calls;
      SlotsStayHonest(node.slots, node.pending, node.calls, node.passed, node'.passed);
    }
  }

  lemma SlotsStayHonest(
    slots: seq<Slot>, pending: map<Id, nat>, calls: seq<Call>, passed: set<Pair>, passed': set<Pair>)
    requires SlotsHonest(slots, pending, calls, passed) && passed <= passed'
    ensures SlotsHonest(slots, pending, calls, passed')
  {
  }

  lemma SentHonest(me: nat, node: Node, to: seq<nat>, ok: bool, origin: set<Pair>)
    requires Honest(node, origin)
    ensures forall m :: m in Advance(me, node, to, ok).sent ==> MsgHonest(m, origin)
  {
  }

  lemma OpenHonest(node: Node, id: Id, origin: set<Pair>)
    requires Honest(node, origin)
    ensures Honest(Open(node, id), origin)
  {
  }

  lemma SlotsAfterMove(node: Node, k: nat, stage: Stage)
    requires SlotsHonest(node.slots, node.pending, node.calls, node.passed) && k < |node.calls|
    ensures SlotsHonest(node.slots, node.pending, Move(node, k, stage), node.passed)
    ensures SlotsHonest(node.slots, node.pending - {node.calls[k].id}, Move(node, k, stage), node.passed)
  {
  }

  ghost predicate NetworkHonest(w: World) {
    && (forall n :: 0 <= n < |w.nodes| ==> Honest(w.nodes[n], w.origin))
    && (forall i :: 0 <= i < |w.net| ==> MsgHonest(w.net[i], w.origin))
  }

  lemma ChangedHonest(w: World, s: Step, alpha: nat, beta: nat)
    requires NetworkHonest(w) && Enabled(w, s, alpha, beta) && !s.Lose?
    ensures Honest(Changed(w, s), OriginAfter(w, s))
  {
    var node := w.nodes[Who(w, s)];
    match s
    case Receive(i) => ArriveHonest(node, w.net[i], w.origin);
    case Section(n, to, ok) => AdvanceHonest(n, node, to, ok, w.origin);
    case StartSync(_, id) => OpenHonest(node, id, w.origin);
    case SyncAllows(_, k) => SlotsAfterMove(node, k, Pulling);
    case SyncPulls(_, k, _) => SlotsAfterMove(node, k, Waiting);
    case SyncReturns(_, k, got) => SlotsAfterMove(node, k, Leaving);
    case SyncDenies(_, k) => SlotsAfterMove(node, k, Over);
    case _ =>
  }

  lemma NetworkHonestStep(w: World, s: Step, alpha: nat, beta: nat)
    requires NetworkHonest(w) && Enabled(w, s, alpha, beta)
    ensures NetworkHonest(Apply(w, s, alpha, beta))
  {
    NetHonestStep(w, s, alpha, beta);
    if !s.Lose? {
      ChangedHonest(w, s, alpha, beta);
    }
    forall n | 0 <= n < |w.nodes|
      ensures Honest(w.nodes[n], OriginAfter(w, s))
    {
      assert w.origin <= OriginAfter(w, s);
    }
  }

  lemma NetHonestStep(w: World, s: Step, alpha: nat, beta: nat)
    requires NetworkHonest(w) && Enabled(w, s, alpha, beta)
    ensures forall m :: m in NetAfter(w, s, alpha, beta) ==> MsgHonest(m, OriginAfter(w, s))
  {
    if s.Section? {
      SentHonest(s.n, w.nodes[s.n], s.to, s.ok, w.origin);
    }
    forall m | m in NetAfter(w, s, alpha, beta)
      ensures MsgHonest(m, OriginAfter(w, s))
    {
      assert w.origin <= OriginAfter(w, s);
    }
  }

  // ----- allowances: the filter counts exactly the timers and Sync calls that will reverse one

  predicate Holds(c: Call) {
    c.stage.Pulling? || c.stage.Waiting? || c.stage.Leaving?
  }

  function HeldByCalls(calls: seq<Call>, id: Id): nat {
    if calls == [] then 0
    else HeldByCalls(calls[1..], id) + if Holds(calls[0]) && calls[0].id == id then 1 else 0
  }

  lemma {:induction false} HeldByCallsUpdate(calls: seq<Call>, k: nat, c: Call, id: Id)
    requires k < |calls| && c.id == calls[k].id
    ensures HeldByCalls(calls[k := c], id) ==
            HeldByCalls(calls, id) +
            (if Holds(c) && c.id == id then 1 else 0) - (if Holds(calls[k]) && c.id == id then 1 else 0)
  {
    var calls' := calls[k := c];
    if k == 0 {
      assert calls'[1..] == calls[1..];
    } else {
      assert calls'[1..] == calls[1..][k - 1 := c];
      HeldByCallsUpdate(calls[1..], k - 1, c, id);
    }
  }

  lemma {:induction false} HeldByCallsAppend(calls: seq<Call>, c: Call, id: Id)
    requires !Holds(c)
    ensures HeldByCalls(calls + [c], id) == HeldByCalls(calls, id)
  {
    if calls == [] {
      assert calls + [c] == [c];
    } else {
      assert (calls + [c])[1..] == calls[1..] + [c];
      HeldByCallsAppend(calls[1..], c, id);
    }
  }

  /** Timers that have not fired out, and Sync calls that have not yet reversed their allowance. */
  function Allowances(node: Node, id: Id): nat {
    node.live[id] + node.fading[id] + HeldByCalls(node.calls, id)
  }

  predicate Exact(node: Node, id: Id) {
    && F.CountOf(node.expecting, id) == Allowances(node, id)
    && (id in node.expecting <==> Allowances(node, id) > 0)
  }

  /**
    A subnet is remembered only while a timer will forget it, except in the window of a push
    handler that has stored it and not yet made the allowance.
   */
  predicate SubnetHeld(node: Node, id: Id) {
    id in node.subnets ==> node.live[id] > 0 || (node.handler.PushStored? && node.handler.id == id)
  }

  ghost predicate Accounted(node: Node) {
    forall id :: Exact(node, id) && SubnetHeld(node, id)
  }

  lemma ArriveAccounted(node: Node, m: Msg)
    requires Accounted(node) && node.handler == Idle
    ensures Accounted(Arrive(node, m))
  {
    assert forall id :: Exact(node, id) ==> Exact(Arrive(node, m), id);
    assert forall id :: SubnetHeld(node, id) ==> SubnetHeld(Arrive(node, m), id);
  }

  lemma AdvanceAccounted(me: nat, node: Node, to: seq<nat>, ok: bool)
    requires Accounted(node)
    ensures Accounted(Advance(me, node, to, ok).node)
  {
    var node' := Advance(me, node, to, ok).node;
    forall id
      ensures Exact(node', id) && SubnetHeld(node', id)
    {
      assert Exact(node, id) && SubnetHeld(node, id);
      AdvanceExact(me, node, to, ok, id);
      AdvanceSubnetHeld(me, node, to, ok, id);
    }
  }

  lemma AdvanceExact(me: nat, node: Node, to: seq<nat>, ok: bool, id: Id)
    requires Exact(node, id)
    ensures Exact(Advance(me, node, to, ok).node, id)
  {
    var node' := Advance(me, node, to, ok).node;
    if node.handler.PushStored? {
      AllowExact(node, node', node.handler.id, id);
    } else {
      assert node'.expecting == node.expecting && Allowances(node', id) == Allowances(node, id);
    }
  }

  lemma AllowExact(node: Node, node': Node, allowed: Id, id: Id)
    requires Exact(node, id) && node'.expecting == F.Allowed(node.expecting, allowed)
    requires node'.live == node.live + multiset{allowed} && node'.fading == node.fading && node'.calls == node.calls
    ensures Exact(node', id)
  {
  }

  lemma AdvanceSubnetHeld(me: nat, node: Node, to: seq<nat>, ok: bool, id: Id)
    requires SubnetHeld(node, id)
    ensures SubnetHeld(Advance(me, node, to, ok).node, id)
  {
  }

  lemma TimersAccounted(node: Node, id: Id)
    requires Accounted(node)
    ensures id in node.live ==> Accounted(Forget(node, id))
    ensures id in node.fading ==> Accounted(Expire(node, id))
  {
    forall i
      ensures id in node.live ==> Exact(Forget(node, id), i) && SubnetHeld(Forget(node, id), i)
      ensures id in node.fading ==> Exact(Expire(node, id), i) && SubnetHeld(Expire(node, id), i)
    {
      assert Exact(node, i) && SubnetHeld(node, i);
    }
  }

  lemma OpenAccounted(node: Node, id: Id)
    requires Accounted(node)
    ensures Accounted(Open(node, id))
  {
    var node' := Open(node, id);
    forall i
      ensures Exact(node', i) && SubnetHeld(node', i)
    {
      assert Exact(node, i) && SubnetHeld(node, i);
      HeldByCallsAppend(node.calls, node'.calls[|node.calls|], i);
    }
  }

  /** Moving call `k` on by one stage, together with what that stage does to the filter. */
  lemma MoveAccounted(node: Node, node': Node, k: nat, stage: Stage)
    requires Accounted(node) && k < |node.calls|
    requires node'.calls == Move(node, k, stage) && node'.live == node.live && node'.fading == node.fading
    requires node'.subnets == node.subnets && node'.handler == node.handler
    requires var c := node.calls[k];
             || (c.stage == Opened && stage == Pulling && node'.expecting == F.Allowed(node.expecting, c.id))
             || (c.stage == Leaving && stage == Over && node'.expecting == F.Denied(node.expecting, c.id))
             || (Holds(c) && Holds(c.(stage := stage)) && node'.expecting == node.expecting)
    ensures Accounted(node')
  {
    var c := node.calls[k];
    forall i
      ensures Exact(node', i) && SubnetHeld(node', i)
    {
      assert Exact(node, i) && SubnetHeld(node, i);
      HeldByCallsUpdate(node.calls, k, c.(stage := stage), i);
    }
  }

  lemma ResolverUnaccounted(node: Node, node': Node)
    requires Accounted(node) && node' == node.(resolver := node'.resolver)
    ensures Accounted(node')
  {
    assert forall id :: Exact(node, id) ==> Exact(node', id);
    assert forall id :: SubnetHeld(node, id) ==> SubnetHeld(node', id);
  }

  ghost predicate NetworkAccounted(w: World) {
    forall n :: 0 <= n < |w.nodes| ==> Accounted(w.nodes[n])
  }

  lemma NetworkAccountedStep(w: World, s: Step, alpha: nat, beta: nat)
    requires NetworkAccounted(w) && Enabled(w, s, alpha, beta)
    ensures NetworkAccounted(Apply(w, s, alpha, beta))
  {
    if !s.Lose? {
      var node := w.nodes[Who(w, s)];
      var node' := Changed(w, s);
      assert Accounted(node') by {
        match s
        case Receive(i) => ArriveAccounted(node, w.net[i]);
        case Section(n, to, ok) => AdvanceAccounted(n, node, to, ok);
        case StartSync(_, id) => OpenAccounted(node, id);
        case TimerForgets(_, id) => TimersAccounted(node, id);
        case TimerDenies(_, id) => TimersAccounted(node, id);
        case SyncAllows(_, k) => MoveAccounted(node, node', k, Pulling);
        case SyncPulls(_, k, _) => MoveAccounted(node, node', k, Waiting);
        case SyncReturns(_, k, got) => MoveAccounted(node, node', k, Leaving);
        case SyncDenies(_, k) => MoveAccounted(node, node', k, Over);
        case Originate(_, _, _) => ResolverUnaccounted(node, node');
        case Resolve(_, _) => ResolverUnaccounted(node, node');
        case StartGossip(_, _, _, _) =>
        case Lose(_) =>
      }
    }
  }

  // ----- over whole runs

  lemma {:induction false} AlongRun(w: World, steps: seq<Step>, w': World, alpha: nat, beta: nat)
    requires NetworkHonest(w) && NetworkAccounted(w) && Run(w, steps, alpha, beta) == Some(w')
    ensures NetworkHonest(w') && NetworkAccounted(w')
    decreases steps
  {
    if steps != [] {
      NetworkHonestStep(w, steps[0], alpha, beta);
      NetworkAccountedStep(w, steps[0], alpha, beta);
      AlongRun(Apply(w, steps[0], alpha, beta), steps[1..], w', alpha, beta);
    }
  }

  lemma FreshIsSafe()
    ensures Honest(Fresh, {}) && Accounted(Fresh)
  {
    forall id
      ensures Exact(Fresh, id) && SubnetHeld(Fresh, id)
    {
    }
  }

  lemma ReachableIsSafe(w: World, alpha: nat, beta: nat)
    requires Reachable(w, alpha, beta)
    ensures NetworkHonest(w) && NetworkAccounted(w)
  {
    var peers, steps :| Run(Init(peers), steps, alpha, beta) == Some(w);
    FreshIsSafe();
    AlongRun(Init(peers), steps, w, alpha, beta);
  }

  /**
    Integrity of the whole network: whatever a resolver answers, a message in flight carries
    or a Sync call returns was put in by some application under that identifier.
   */
  lemma ContentHasAnOrigin(w: World, alpha: nat, beta: nat)
    requires Reachable(w, alpha, beta)
    ensures forall n, id :: 0 <= n < |w.nodes| && Knows(w.nodes[n], id) ==>
              (id, w.nodes[n].resolver.value[id]) in w.origin
    ensures forall i :: 0 <= i < |w.net| && w.net[i].Sync? ==> (w.net[i].id, w.net[i].content) in w.origin
    ensures forall n :: 0 <= n < |w.nodes| ==> w.nodes[n].returned <= w.nodes[n].passed <= w.origin
  {
    ReachableIsSafe(w, alpha, beta);
    forall n | 0 <= n < |w.nodes|
      ensures Honest(w.nodes[n], w.origin)
    {
    }
    forall i | 0 <= i < |w.net|
      ensures MsgHonest(w.net[i], w.origin)
    {
    }
  }

  /**
    The filter counts the outstanding allowances, and knows an identifier while there are any.
    A remembered subnet goes without exactly while a push handler has stored it, has not yet
    made its own allowance, and there is no other.
   */
  lemma FilterCountsAllowances(w: World, alpha: nat, beta: nat, n: nat, id: Id)
    requires Reachable(w, alpha, beta) && n < |w.nodes|
    ensures var node := w.nodes[n];
            && F.CountOf(node.expecting, id) == Allowances(node, id)
            && (id in node.expecting <==> Allowances(node, id) > 0)
            && (id in node.subnets ==>
                  (id !in node.expecting <==>
                   node.handler.PushStored? && node.handler.id == id && Allowances(node, id) == 0))
  {
    ReachableIsSafe(w, alpha, beta);
    assert Exact(w.nodes[n], id) && SubnetHeld(w.nodes[n], id);
  }

  /** Each of the two checks lets data pass if and only if an allowance is outstanding. */
  lemma CheckPassesIffAllowed(w: World, alpha: nat, beta: nat, n: nat, to: seq<nat>, ok: bool)
    requires Reachable(w, alpha, beta) && n < |w.nodes|
    ensures var h := w.nodes[n].handler;
            var h' := Advance(n, w.nodes[n], to, ok).node.handler;
            && (h.SyncArrived? ==> (h' == SyncerPassed(h.id, h.content) <==> Allowances(w.nodes[n], h.id) > 0))
            && (h.GossipCheck? ==> (h' == GossipPassed(h.id, h.content) <==> Allowances(w.nodes[n], h.id) > 0))
  {
    ReachableIsSafe(w, alpha, beta);
    var h := w.nodes[n].handler;
    if h.SyncArrived? || h.GossipCheck? {
      assert Exact(w.nodes[n], h.id);
    }
  }
}
