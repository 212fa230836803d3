/**
  A flood of gossip ends: without further application input, every step lowers one measure.

  The measure adds up, over the network, the identifiers that each peer still lacks (weighted
  by the pushes that learning one may send), the messages in flight, the sections that each
  handler has left, the timers and the open Sync calls.
 */
module GossipTermination {
  import opened Wrappers
  import opened Gossip
  import opened GossipSafety
  import opened GossipAllowances

  /** Steps that are not an application's own doing. */
  predicate IsFlood(s: Step) {
    !s.Originate? && !s.Resolve? && !s.StartGossip? && !s.StartSync?
  }

  const SYNC: nat := 5
  const PULL: nat := 7
  const PUSH: nat := 13

  /** `weight` for each of `n` things. */
  function Times(n: nat, weight: nat): nat {
    if n == 0 then 0 else weight + Times(n - 1, weight)
  }

  lemma {:induction false} TimesGrows(a: nat, b: nat, weight: nat)
    requires a <= b
    ensures Times(a, weight) <= Times(b, weight)
  {
    if a < b {
      TimesGrows(a, b - 1, weight);
    }
  }

  function MsgWeight(m: Msg): nat {
    match m
    case Push(_, _, _, _) => PUSH
    case Pull(_, _, _) => PULL
    case Sync(_, _, _, _) => SYNC
  }

  function NetWeight(net: seq<Msg>): nat {
    if net == [] then 0 else MsgWeight(net[0]) + NetWeight(net[1..])
  }

  function HandlerWeight(h: Handler, alpha: nat): nat {
    match h
    case Idle => 0
    case PushUnknown(_, _, _) => 12
    case PushStored(_, _) => 11
    case PushAllowed(_, _) => 8
    case PullFound(_, _, _) => 6
    case SyncArrived(_, _) => 4
    case SyncerPassed(_, _) => 3
    case GossipCheck(_, _) => 2
    case GossipPassed(_, _) => 1
    case GossipNew(_, _) => Times(alpha, PUSH) + 3
    case Inserted(_) => Times(alpha, PUSH) + 2
    case Gossiping(_, _) => Times(alpha, PUSH) + 1
  }

  function StageWeight(stage: Stage, beta: nat): nat {
    match stage
    case Opened => Times(beta, PULL) + 4
    case Pulling => Times(beta, PULL) + 3
    case Waiting => 2
    case Leaving => 1
    case Over => 0
  }

  function CallsWeight(calls: seq<Call>, beta: nat): nat {
    if calls == [] then 0 else StageWeight(calls[0].stage, beta) + CallsWeight(calls[1..], beta)
  }

  /** What it may cost the network when a peer learns an identifier. */
  function LackWeight(alpha: nat): nat {
    Times(alpha, PUSH) + 3
  }

  /** The identifier that a handler has found unknown and is about to insert. */
  function Reserved(h: Handler): set<Id> {
    if h.GossipNew? then {h.id} else {}
  }

  /** The identifiers that a peer has yet to learn, without the one that it is about to insert. */
  function Lacks(node: Node, ids: set<Id>): set<Id> {
    if node.resolver.None? then {} else ids - node.resolver.value.Keys - Reserved(node.handler)
  }

  function LackTotal(node: Node, ids: set<Id>, alpha: nat): nat {
    Times(|Lacks(node, ids)|, LackWeight(alpha))
  }

  /** What a peer still has to do for what it has already begun. */
  function BusyWeight(node: Node, alpha: nat, beta: nat): nat {
    HandlerWeight(node.handler, alpha) + 2 * |node.live| + |node.fading| + CallsWeight(node.calls, beta)
  }

  function NodeWeight(node: Node, ids: set<Id>, alpha: nat, beta: nat): nat {
    LackTotal(node, ids, alpha) + BusyWeight(node, alpha, beta)
  }

  function NodesWeight(nodes: seq<Node>, ids: set<Id>, alpha: nat, beta: nat): nat {
    if nodes == [] then 0 else NodeWeight(nodes[0], ids, alpha, beta) + NodesWeight(nodes[1..], ids, alpha, beta)
  }

  function Measure(w: World, ids: set<Id>, alpha: nat, beta: nat): nat {
    NodesWeight(w.nodes, ids, alpha, beta) + NetWeight(w.net)
  }

  // ----- identifiers in use

  predicate HandlerWithin(h: Handler, ids: set<Id>) {
    h == Idle || h.id in ids
  }

  predicate NodeWithin(node: Node, ids: set<Id>) {
    HandlerWithin(node.handler, ids) && forall k :: 0 <= k < |node.calls| ==> node.calls[k].id in ids
  }

  /** Only identifiers of `ids` are on their way somewhere. */
  predicate Within(w: World, ids: set<Id>) {
    && (forall n :: 0 <= n < |w.nodes| ==> NodeWithin(w.nodes[n], ids))
    && MsgsWithin(w.net, ids)
  }

  lemma AdvanceWithin(me: nat, node: Node, to: seq<nat>, ok: bool, ids: set<Id>)
    requires NodeWithin(node, ids)
    ensures var e := Advance(me, node, to, ok);
            NodeWithin(e.node, ids) && MsgsWithin(e.sent, ids)
  {
  }

  lemma ChangedWithin(w: World, s: Step, ids: set<Id>, alpha: nat, beta: nat)
    requires Within(w, ids) && Enabled(w, s, alpha, beta) && IsFlood(s) && !s.Lose?
    ensures NodeWithin(Changed(w, s), ids)
  {
    var node := w.nodes[Who(w, s)];
    assert NodeWithin(node, ids);
    if s.Section? {
      AdvanceWithin(s.n, node, s.to, s.ok, ids);
    }
  }

  predicate MsgsWithin(net: seq<Msg>, ids: set<Id>) {
    forall i :: 0 <= i < |net| ==> net[i].id in ids
  }

  lemma NetWithin(w: World, s: Step, ids: set<Id>, alpha: nat, beta: nat)
    requires Within(w, ids) && Enabled(w, s, alpha, beta) && IsFlood(s)
    ensures MsgsWithin(NetAfter(w, s, alpha, beta), ids)
  {
    if s.Section? {
      assert NodeWithin(w.nodes[s.n], ids);
      AdvanceWithin(s.n, w.nodes[s.n], s.to, s.ok, ids);
    } else if s.SyncPulls? {
      assert NodeWithin(w.nodes[s.n], ids);
    }
  }

  lemma WithinStep(w: World, s: Step, ids: set<Id>, alpha: nat, beta: nat)
    requires Within(w, ids) && Enabled(w, s, alpha, beta) && IsFlood(s)
    ensures Within(Apply(w, s, alpha, beta), ids)
  {
    if !s.Lose? {
      ChangedWithin(w, s, ids, alpha, beta);
    }
    NetWithin(w, s, ids, alpha, beta);
  }

  // ----- arithmetic of the sums

  lemma {:induction false} NetWeightConcat(a: seq<Msg>, b: seq<Msg>)
    ensures NetWeight(a + b) == NetWeight(a) + NetWeight(b)
  {
    if a == [] {
      assert a + b == b;
    } else {
      assert (a + b)[1..] == a[1..] + b;
      NetWeightConcat(a[1..], b);
    }
  }

  lemma NetWeightRemoved(net: seq<Msg>, i: nat)
    requires i < |net|
    ensures NetWeight(Removed(net, i)) == NetWeight(net) - MsgWeight(net[i])
  {
    assert net == net[..i] + net[i..];
    NetWeightConcat(net[..i], net[i..]);
    assert net[i..][1..] == net[i + 1..];
    NetWeightConcat(net[..i], net[i + 1..]);
  }

  lemma {:induction false} NetWeightUniform(net: seq<Msg>, weight: nat)
    requires forall i :: 0 <= i < |net| ==> MsgWeight(net[i]) == weight
    ensures NetWeight(net) == Times(|net|, weight)
  {
    if net != [] {
      NetWeightUniform(net[1..], weight);
    }
  }

  lemma {:induction false} NodesWeightUpdate(nodes: seq<Node>, n: nat, node: Node, ids: set<Id>, alpha: nat, beta: nat)
    requires n < |nodes|
    ensures NodesWeight(nodes[n := node], ids, alpha, beta) ==
            NodesWeight(nodes, ids, alpha, beta) - NodeWeight(nodes[n], ids, alpha, beta)
            + NodeWeight(node, ids, alpha, beta)
  {
    var nodes' := nodes[n := node];
    if n == 0 {
      assert nodes'[1..] == nodes[1..];
    } else {
      assert nodes'[1..] == nodes[1..][n - 1 := node];
      NodesWeightUpdate(nodes[1..], n - 1, node, ids, alpha, beta);
    }
  }

  lemma {:induction false} CallsWeightUpdate(calls: seq<Call>, k: nat, c: Call, beta: nat)
    requires k < |calls|
    ensures CallsWeight(calls[k := c], beta) ==
            CallsWeight(calls, beta) - StageWeight(calls[k].stage, beta) + StageWeight(c.stage, beta)
  {
    var calls' := calls[k := c];
    if k == 0 {
      assert calls'[1..] == calls[1..];
    } else {
      assert calls'[1..] == calls[1..][k - 1 := c];
      CallsWeightUpdate(calls[1..], k - 1, c, beta);
    }
  }

  /** Finding an identifier unknown removes exactly one from those that a peer lacks. */
  lemma LearningPays(node: Node, id: Id, content: Content, ids: set<Id>, alpha: nat)
    requires node.resolver.Some? && !Knows(node, id) && id in ids && !node.handler.GossipNew?
    ensures LackTotal(node.(handler := GossipNew(id, content)), ids, alpha) ==
            LackTotal(node, ids, alpha) - LackWeight(alpha)
  {
    var node' := node.(handler := GossipNew(id, content));
    assert Lacks(node, ids) == Lacks(node', ids) + {id};
    assert |Lacks(node, ids)| == |Lacks(node', ids)| + 1;
  }

  // ----- every step pays

  predicate Learns(me: nat, node: Node, to: seq<nat>, ok: bool) {
    Advance(me, node, to, ok).node.handler.GossipNew?
  }

  lemma BusySectionPays(me: nat, node: Node, to: seq<nat>, ok: bool, alpha: nat, beta: nat)
    requires node.handler != Idle && |to| <= alpha
    ensures var e := Advance(me, node, to, ok);
            BusyWeight(e.node, alpha, beta) + NetWeight(e.sent) <
            BusyWeight(node, alpha, beta) + if Learns(me, node, to, ok) then LackWeight(alpha) else 0
  {
    SentWeighs(me, node, to, ok, alpha);
    HandlerPays(me, node, to, ok, alpha);
    assert Advance(me, node, to, ok).node.calls == node.calls;
  }

  lemma HandlerPays(me: nat, node: Node, to: seq<nat>, ok: bool, alpha: nat)
    requires node.handler != Idle
    ensures var node' := Advance(me, node, to, ok).node;
            && node'.fading == node.fading
            && HandlerWeight(node'.handler, alpha) + 2 * |node'.live| + SentWeight(node.handler, alpha) <
               HandlerWeight(node.handler, alpha) + 2 * |node.live| +
               if Learns(me, node, to, ok) then LackWeight(alpha) else 0
  {
    var node' := Advance(me, node, to, ok).node;
    if node.handler.PushStored? {
      assert |node'.live| == |node.live| + 1;
    } else {
      assert node'.live == node.live;
      WeightFalls(me, node, to, ok, alpha);
    }
  }

  lemma WeightFalls(me: nat, node: Node, to: seq<nat>, ok: bool, alpha: nat)
    requires node.handler != Idle
    ensures HandlerWeight(Advance(me, node, to, ok).node.handler, alpha) + SentWeight(node.handler, alpha) <
            HandlerWeight(node.handler, alpha) + if Learns(me, node, to, ok) then LackWeight(alpha) else 0
  {
  }

  /** What a section may send, by the handler that it belongs to. */
  function SentWeight(h: Handler, alpha: nat): nat {
    match h
    case Gossiping(_, _) => Times(alpha, PUSH)
    case PushAllowed(_, _) => PULL
    case PullFound(_, _, _) => SYNC
    case _ => 0
  }

  lemma SentWeighs(me: nat, node: Node, to: seq<nat>, ok: bool, alpha: nat)
    requires |to| <= alpha
    ensures NetWeight(Advance(me, node, to, ok).sent) <= SentWeight(node.handler, alpha)
  {
    var sent := Advance(me, node, to, ok).sent;
    if node.handler.Gossiping? {
      NetWeightUniform(sent, PUSH);
      TimesGrows(|to|, alpha, PUSH);
    } else if sent != [] {
      assert sent[1..] == [];
    }
  }

  lemma SectionPays(me: nat, node: Node, to: seq<nat>, ok: bool, ids: set<Id>, alpha: nat, beta: nat)
    requires NodeWithin(node, ids) && node.handler != Idle && |to| <= alpha
    ensures var e := Advance(me, node, to, ok);
            NodeWeight(e.node, ids, alpha, beta) + NetWeight(e.sent) < NodeWeight(node, ids, alpha, beta)
  {
    BusySectionPays(me, node, to, ok, alpha, beta);
    var e := Advance(me, node, to, ok);
    if Learns(me, node, to, ok) {
      LearningPays(node, node.handler.id, node.handler.content, ids, alpha);
    } else {
      assert Lacks(e.node, ids) == Lacks(node, ids);
    }
  }

  lemma ReceivePays(node: Node, m: Msg, ids: set<Id>, alpha: nat, beta: nat)
    requires node.handler == Idle
    ensures NodeWeight(Arrive(node, m), ids, alpha, beta) < NodeWeight(node, ids, alpha, beta) + MsgWeight(m)
  {
    ArrivalCosts(node, m, alpha);
    ArrivalKeeps(node, m, ids);
  }

  lemma ArrivalKeeps(node: Node, m: Msg, ids: set<Id>)
    requires node.handler == Idle
    ensures var node' := Arrive(node, m);
            && Lacks(node', ids) == Lacks(node, ids)
            && node'.live == node.live && node'.fading == node.fading && node'.calls == node.calls
  {
  }

  lemma ArrivalCosts(node: Node, m: Msg, alpha: nat)
    requires node.handler == Idle
    ensures HandlerWeight(Arrive(node, m).handler, alpha) < MsgWeight(m)
  {
  }

  lemma TimersPay(node: Node, id: Id, ids: set<Id>, alpha: nat, beta: nat)
    ensures id in node.live ==> NodeWeight(Forget(node, id), ids, alpha, beta) < NodeWeight(node, ids, alpha, beta)
    ensures id in node.fading ==> NodeWeight(Expire(node, id), ids, alpha, beta) < NodeWeight(node, ids, alpha, beta)
  {
  }

  /** Moving a Sync call on, with the pulls that it sends when it starts to wait. */
  lemma CallPays(node: Node, node': Node, k: nat, stage: Stage, ids: set<Id>, alpha: nat, beta: nat)
    requires k < |node.calls| && node'.calls == Move(node, k, stage)
    requires node'.resolver == node.resolver && node'.handler == node.handler
    requires node'.live == node.live && node'.fading == node.fading
    ensures NodeWeight(node', ids, alpha, beta) ==
            NodeWeight(node, ids, alpha, beta) - StageWeight(node.calls[k].stage, beta) + StageWeight(stage, beta)
  {
    CallsWeightUpdate(node.calls, k, node.calls[k].(stage := stage), beta);
  }

  lemma StepPaysAtNode(w: World, s: Step, ids: set<Id>, alpha: nat, beta: nat)
    requires Within(w, ids) && Enabled(w, s, alpha, beta) && IsFlood(s) && !s.Lose?
    ensures NodeWeight(Changed(w, s), ids, alpha, beta) + NetWeight(NetAfter(w, s, alpha, beta)) <
            NodeWeight(w.nodes[Who(w, s)], ids, alpha, beta) + NetWeight(w.net)
  {
    var node := w.nodes[Who(w, s)];
    if IsCallStep(s) {
      CallStepPays(w, s, ids, alpha, beta);
    } else if s.Receive? {
      NetWeightRemoved(w.net, s.i);
      ReceivePays(node, w.net[s.i], ids, alpha, beta);
    } else if s.Section? {
      assert NodeWithin(node, ids);
      SectionPays(s.n, node, s.to, s.ok, ids, alpha, beta);
      NetWeightConcat(w.net, Advance(s.n, node, s.to, s.ok).sent);
    } else {
      TimersPay(node, s.id, ids, alpha, beta);
    }
  }

  lemma CallStepPays(w: World, s: Step, ids: set<Id>, alpha: nat, beta: nat)
    requires Enabled(w, s, alpha, beta) && IsCallStep(s)
    ensures NodeWeight(Changed(w, s), ids, alpha, beta) + NetWeight(NetAfter(w, s, alpha, beta)) <
            NodeWeight(w.nodes[s.n], ids, alpha, beta) + NetWeight(w.net)
  {
    if s.SyncPulls? {
      PullingPays(w, s, ids, alpha, beta);
    } else {
      QuietCallPays(w, s, ids, alpha, beta);
    }
  }

  lemma PullingPays(w: World, s: Step, ids: set<Id>, alpha: nat, beta: nat)
    requires Enabled(w, s, alpha, beta) && s.SyncPulls?
    ensures NodeWeight(Changed(w, s), ids, alpha, beta) + NetWeight(NetAfter(w, s, alpha, beta)) <
            NodeWeight(w.nodes[s.n], ids, alpha, beta) + NetWeight(w.net)
  {
    PullsWeigh(w.net, s.n, s.to, w.nodes[s.n].calls[s.k].id, beta);
    CallPays(w.nodes[s.n], Changed(w, s), s.k, Waiting, ids, alpha, beta);
  }

  lemma QuietCallPays(w: World, s: Step, ids: set<Id>, alpha: nat, beta: nat)
    requires Enabled(w, s, alpha, beta) && IsCallStep(s) && !s.SyncPulls?
    ensures NodeWeight(Changed(w, s), ids, alpha, beta) + NetWeight(NetAfter(w, s, alpha, beta)) <
            NodeWeight(w.nodes[s.n], ids, alpha, beta) + NetWeight(w.net)
  {
    var stage := if s.SyncAllows? then Pulling else if s.SyncReturns? then Leaving else Over;
    StageFalls(w, s, alpha, beta, stage);
    CallPays(w.nodes[s.n], Changed(w, s), s.k, stage, ids, alpha, beta);
  }

  /** A Sync caller that sends nothing moves to a stage of less weight, and touches nothing else. */
  lemma StageFalls(w: World, s: Step, alpha: nat, beta: nat, stage: Stage)
    requires Enabled(w, s, alpha, beta) && IsCallStep(s) && !s.SyncPulls?
    requires stage == if s.SyncAllows? then Pulling else if s.SyncReturns? then Leaving else Over
    ensures var node, node' := w.nodes[s.n], Changed(w, s);
            && StageWeight(stage, beta) < StageWeight(node.calls[s.k].stage, beta)
            && node'.calls == Move(node, s.k, stage) && node'.resolver == node.resolver
            && node'.handler == node.handler && node'.live == node.live && node'.fading == node.fading
    ensures NetAfter(w, s, alpha, beta) == w.net
  {
  }

  lemma PullsWeigh(net: seq<Msg>, me: nat, to: seq<nat>, id: Id, beta: nat)
    requires |to| <= beta
    ensures NetWeight(net + Pulls(me, to, id)) <= NetWeight(net) + Times(beta, PULL)
  {
    NetWeightUniform(Pulls(me, to, id), PULL);
    TimesGrows(|to|, beta, PULL);
    NetWeightConcat(net, Pulls(me, to, id));
  }

  lemma StepPays(w: World, s: Step, ids: set<Id>, alpha: nat, beta: nat)
    requires Within(w, ids) && Enabled(w, s, alpha, beta) && IsFlood(s)
    ensures Measure(Apply(w, s, alpha, beta), ids, alpha, beta) < Measure(w, ids, alpha, beta)
  {
    if s.Lose? {
      NetWeightRemoved(w.net, s.i);
    } else {
      StepPaysAtNode(w, s, ids, alpha, beta);
      NodesWeightUpdate(w.nodes, Who(w, s), Changed(w, s), ids, alpha, beta);
    }
  }

  lemma {:induction false} FloodIsBounded(w: World, steps: seq<Step>, ids: set<Id>, alpha: nat, beta: nat)
    requires Within(w, ids) && Run(w, steps, alpha, beta).Some?
    requires forall i :: 0 <= i < |steps| ==> IsFlood(steps[i])
    ensures |steps| <= Measure(w, ids, alpha, beta)
    decreases steps
  {
    if steps != [] {
      StepPays(w, steps[0], ids, alpha, beta);
      WithinStep(w, steps[0], ids, alpha, beta);
      FloodIsBounded(Apply(w, steps[0], alpha, beta), steps[1..], ids, alpha, beta);
    }
  }

  /** The identifiers that are on their way somewhere in `w`. */
  function IdsInUse(w: World): set<Id> {
    (set i | 0 <= i < |w.net| :: w.net[i].id)
    + (set n | 0 <= n < |w.nodes| && w.nodes[n].handler != Idle :: w.nodes[n].handler.id)
    + (set n, k | 0 <= n < |w.nodes| && 0 <= k < |w.nodes[n].calls| :: w.nodes[n].calls[k].id)
  }

  /**
    However deliveries, losses, timeouts and sections interleave, a flood that starts in `w`
    ends after at most `Measure(w, IdsInUse(w), ...)` steps, whatever state `w` is.
   */
  lemma FloodTerminates(w: World, steps: seq<Step>, alpha: nat, beta: nat)
    requires Run(w, steps, alpha, beta).Some?
    requires forall i :: 0 <= i < |steps| ==> IsFlood(steps[i])
    ensures |steps| <= Measure(w, IdsInUse(w), alpha, beta)
  {
    var ids := IdsInUse(w);
    forall n | 0 <= n < |w.nodes|
      ensures NodeWithin(w.nodes[n], ids)
    {
      forall k | 0 <= k < |w.nodes[n].calls|
        ensures w.nodes[n].calls[k].id in ids
      {
      }
    }
    FloodIsBounded(w, steps, ids, alpha, beta);
  }

  // ----- pending entries are waited for

  /** Call `k` is for `id` and has not returned. */
  predicate WaitsFor(calls: seq<Call>, k: nat, id: Id) {
    k < |calls| && calls[k].id == id && (calls[k].stage.Opened? || calls[k].stage.Pulling? || calls[k].stage.Waiting?)
  }

  /** Every pending entry has a Sync call that waits for it and will remove it. */
  ghost predicate Awaited(pending: map<Id, nat>, calls: seq<Call>) {
    forall id :: id in pending ==> exists k: nat :: WaitsFor(calls, k, id)
  }

  lemma AwaitedByMove(node: Node, k: nat, stage: Stage)
    requires Awaited(node.pending, node.calls) && k < |node.calls|
    ensures stage.Pulling? || stage.Waiting? ==> Awaited(node.pending, Move(node, k, stage))
    ensures Awaited(node.pending - {node.calls[k].id}, Move(node, k, stage))
    ensures node.calls[k].stage.Leaving? ==> Awaited(node.pending, Move(node, k, stage))
  {
    var calls := Move(node, k, stage);
    forall id | id in node.pending
      ensures stage.Pulling? || stage.Waiting? ==> exists j: nat :: WaitsFor(calls, j, id)
      ensures id != node.calls[k].id || node.calls[k].stage.Leaving? ==> exists j: nat :: WaitsFor(calls, j, id)
    {
      var j: nat :| WaitsFor(node.calls, j, id);
      assert j != k || stage.Pulling? || stage.Waiting? ==> WaitsFor(calls, j, id);
    }
  }

  lemma AwaitedByOpen(node: Node, id: Id)
    requires Awaited(node.pending, node.calls)
    ensures Awaited(Open(node, id).pending, Open(node, id).calls)
  {
    var node' := Open(node, id);
    assert WaitsFor(node'.calls, |node.calls|, id);
    forall i | i in node'.pending && i != id
      ensures exists j: nat :: WaitsFor(node'.calls, j, i)
    {
      var j: nat :| WaitsFor(node.calls, j, i);
      assert WaitsFor(node'.calls, j, i);
    }
  }

  lemma ChangedAwaited(w: World, s: Step, alpha: nat, beta: nat)
    requires Enabled(w, s, alpha, beta) && !s.Lose?
    requires Awaited(w.nodes[Who(w, s)].pending, w.nodes[Who(w, s)].calls)
    ensures Awaited(Changed(w, s).pending, Changed(w, s).calls)
  {
    var node := w.nodes[Who(w, s)];
    if s.StartSync? {
      AwaitedByOpen(node, s.id);
    } else if IsCallStep(s) {
      CallAwaited(w, s, alpha, beta);
    } else if s.Section? {
      AdvanceAwaits(s.n, node, s.to, s.ok);
    } else {
      assert Changed(w, s).pending == node.pending && Changed(w, s).calls == node.calls;
    }
  }

  lemma AdvanceAwaits(me: nat, node: Node, to: seq<nat>, ok: bool)
    ensures Advance(me, node, to, ok).node.pending == node.pending
    ensures Advance(me, node, to, ok).node.calls == node.calls
  {
  }

  lemma CallAwaited(w: World, s: Step, alpha: nat, beta: nat)
    requires Enabled(w, s, alpha, beta) && IsCallStep(s) && Awaited(w.nodes[s.n].pending, w.nodes[s.n].calls)
    ensures Awaited(Changed(w, s).pending, Changed(w, s).calls)
  {
    var node := w.nodes[s.n];
    match s
    case SyncAllows(_, k) => AwaitedByMove(node, k, Pulling);
    case SyncPulls(_, k, _) => AwaitedByMove(node, k, Waiting);
    case SyncReturns(_, k, _) => AwaitedByMove(node, k, Leaving);
    case SyncDenies(_, k) => AwaitedByMove(node, k, Over);
  }

  ghost predicate AllAwaited(w: World) {
    forall n :: 0 <= n < |w.nodes| ==> Awaited(w.nodes[n].pending, w.nodes[n].calls)
  }

  lemma {:induction false} AwaitedAlongRun(w: World, steps: seq<Step>, w': World, alpha: nat, beta: nat)
    requires AllAwaited(w) && Run(w, steps, alpha, beta) == Some(w')
    ensures AllAwaited(w')
    decreases steps
  {
    if steps != [] {
      if !steps[0].Lose? {
        ChangedAwaited(w, steps[0], alpha, beta);
      }
      AwaitedAlongRun(Apply(w, steps[0], alpha, beta), steps[1..], w', alpha, beta);
    }
  }

  /** In every reachable state a pending entry has a Sync call that has not returned. */
  lemma PendingIsAwaited(w: World, alpha: nat, beta: nat, n: nat)
    requires Reachable(w, alpha, beta) && n < |w.nodes|
    ensures Awaited(w.nodes[n].pending, w.nodes[n].calls)
  {
    var peers, steps :| Run(Init(peers), steps, alpha, beta) == Some(w);
    AwaitedAlongRun(Init(peers), steps, w, alpha, beta);
  }

  // ----- where a flood ends

  /** No delivery, section, timer or Sync call is left to act. */
  ghost predicate Stuck(w: World, alpha: nat, beta: nat) {
    forall s :: IsFlood(s) ==> !Enabled(w, s, alpha, beta)
  }

  lemma {:induction false} NoneHeldWhenOver(calls: seq<Call>, id: Id)
    requires forall k :: 0 <= k < |calls| ==> calls[k].stage == Over
    ensures HeldByCalls(calls, id) == 0
  {
    if calls != [] {
      NoneHeldWhenOver(calls[1..], id);
    }
  }

  lemma StuckCalls(w: World, alpha: nat, beta: nat, n: nat, k: nat)
    requires Stuck(w, alpha, beta) && n < |w.nodes| && k < |w.nodes[n].calls|
    ensures w.nodes[n].calls[k].stage == Over
  {
    assert IsFlood(SyncAllows(n, k)) && IsFlood(SyncDenies(n, k)) && IsFlood(SyncReturns(n, k, false));
  }

  /**
    A flood that can go no further has cleaned up after itself: nothing is in flight, and no
    peer remembers a subnet, still allows a synchronisation or keeps a pending entry.
   */
  lemma StuckIsClean(w: World, alpha: nat, beta: nat, n: nat)
    requires Reachable(w, alpha, beta) && Stuck(w, alpha, beta) && n < |w.nodes|
    ensures w.net == []
    ensures w.nodes[n].handler == Idle && w.nodes[n].subnets == map[] && w.nodes[n].expecting == map[]
    ensures w.nodes[n].pending == map[]
  {
    var node := w.nodes[n];
    StuckIsIdle(w, alpha, beta, n);
    forall k | 0 <= k < |node.calls|
      ensures node.calls[k].stage == Over
    {
      StuckCalls(w, alpha, beta, n, k);
    }
    forall id
      ensures id !in node.expecting && id !in node.subnets
    {
      NoneHeldWhenOver(node.calls, id);
      StuckTimers(w, alpha, beta, n, id);
      FilterCountsAllowances(w, alpha, beta, n, id);
    }
    PendingIsAwaited(w, alpha, beta, n);
  }

  lemma StuckIsIdle(w: World, alpha: nat, beta: nat, n: nat)
    requires Stuck(w, alpha, beta) && n < |w.nodes|
    ensures w.net == [] && w.nodes[n].handler == Idle
  {
    assert IsFlood(Section(n, [], false)) && !Enabled(w, Section(n, [], false), alpha, beta);
    assert IsFlood(Lose(0)) && !Enabled(w, Lose(0), alpha, beta);
  }

  lemma StuckTimers(w: World, alpha: nat, beta: nat, n: nat, id: Id)
    requires Stuck(w, alpha, beta) && n < |w.nodes|
    ensures w.nodes[n].live[id] == 0 && w.nodes[n].fading[id] == 0
  {
    assert IsFlood(TimerForgets(n, id)) && !Enabled(w, TimerForgets(n, id), alpha, beta);
    assert IsFlood(TimerDenies(n, id)) && !Enabled(w, TimerDenies(n, id), alpha, beta);
  }
}
