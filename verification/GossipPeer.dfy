/** The message handlers of the gossiper and the syncer as code over the state of one peer. */
module GossipPeer {
  import opened Wrappers
  import opened Gossip
  import F = SyncFilter

  /** How many sections a handler has left. */
  function SectionsLeft(h: Handler): nat {
    match h
    case Idle => 0
    case PushUnknown(_, _, _) => 3
    case PushStored(_, _) => 2
    case PushAllowed(_, _) => 1
    case PullFound(_, _, _) => 1
    case SyncArrived(_, _) => 7
    case SyncerPassed(_, _) => 6
    case GossipCheck(_, _) => 5
    case GossipPassed(_, _) => 4
    case GossipNew(_, _) => 3
    case Inserted(_) => 2
    case Gossiping(_, _) => 1
  }

  lemma AdvanceProceeds(me: nat, node: Node, to: seq<nat>, ok: bool)
    requires node.handler != Idle
    ensures SectionsLeft(Advance(me, node, to, ok).node.handler) < SectionsLeft(node.handler)
  {
  }

  /** All remaining sections of a handler, one after the other. */
  function Settle(me: nat, node: Node, to: seq<nat>, ok: bool): Effect
    decreases SectionsLeft(node.handler)
  {
    if node.handler == Idle then Effect(node, [])
    else
      var e := Advance(me, node, to, ok);
      AdvanceProceeds(me, node, to, ok);
      var rest := Settle(me, e.node, to, ok);
      Effect(rest.node, e.sent + rest.sent)
  }

  /** A message handled from start to end with nothing in between. */
  function Handle(me: nat, node: Node, m: Msg, to: seq<nat>, ok: bool): Effect {
    Settle(me, Arrive(node, m), to, ok)
  }

  const DEFAULT_SUBNET: Subnet := "default"

  /**
    The recipients of a gossip: the closest peers for the default subnet, else the first
    members of the subnet, at most `alpha` of them.
   */
  function Recipients(subnet: Subnet, closest: seq<nat>, members: seq<nat>, alpha: nat): (to: seq<nat>)
    requires |closest| <= alpha
    ensures |to| <= alpha
    ensures subnet == DEFAULT_SUBNET ==> to == closest
    ensures subnet != DEFAULT_SUBNET ==> to <= members && (to == members || |to| == alpha)
  {
    if subnet == DEFAULT_SUBNET then closest
    else if |members| > alpha then members[..alpha]
    else members
  }

  /** What remains after an insertion whose subnet is remembered. */
  lemma GossipSettles(me: nat, node: Node, to: seq<nat>, id: Id)
    requires node.handler == Inserted(id) && id in node.subnets
    ensures Settle(me, node, to, true) == Effect(node.(handler := Idle), Pushes(me, to, id, node.subnets[id]))
  {
    var node' := node.(handler := Gossiping(id, node.subnets[id]));
    var done := Effect(node.(handler := Idle), Pushes(me, to, id, node.subnets[id]));
    assert Advance(me, node', to, true) == done;
    assert Settle(me, node', to, true) == done;
  }

  /** What an insertion and the rest of its handler come to. */
  lemma InsertionSettles(me: nat, node: Node, to: seq<nat>, id: Id, content: Content)
    requires node.handler == GossipPassed(id, content) && id != "" && content != []
    requires node.resolver.Some? && id !in node.resolver.value
    ensures Settle(me, node, to, true) ==
            Effect(node.(resolver := Some(node.resolver.value[id := content]), handler := Idle),
                   if id in node.subnets then Pushes(me, to, id, node.subnets[id]) else [])
  {
    var unseen := node.(handler := GossipNew(id, content));
    var node' := node.(resolver := Some(node.resolver.value[id := content]), handler := Inserted(id));
    assert Advance(me, node, to, true) == Effect(unseen, []);
    assert Advance(me, unseen, to, true) == Effect(node', []);
    SettleUnfolds(me, unseen, to, true);
    if id in node.subnets {
      GossipSettles(me, node', to, id);
    } else {
      var done := Effect(node'.(handler := Idle), []);
      assert Advance(me, node', to, true) == done;
      assert Settle(me, node', to, true) == done;
    }
  }

  class Peer {
    const me: nat
    const filter: F.SyncFilter
    var resolver: Option<map<Id, Content>>
    var subnets: map<Id, Subnet>
    var live: multiset<Id>
    var fading: multiset<Id>
    var pending: map<Id, nat>
    var slots: seq<Slot>
    var calls: seq<Call>
    ghost var passed: set<Pair>
    ghost var returned: set<Pair>

    ghost function View(): Node
      reads this, filter
    {
      Node(resolver, subnets, filter.expecting, live, fading, pending, slots, calls, Idle, passed, returned)
    }

    constructor (me: nat)
      ensures this.me == me && fresh(filter) && View() == Fresh
    {
      this.me := me;
      filter := new F.SyncFilter();
      resolver, subnets, live, fading := None, map[], multiset{}, multiset{};
      pending, slots, calls, passed, returned := map[], [], [], {}, {};
    }

    method DidReceivePush(src: nat, id: Id, subnet: Subnet, ok: bool) returns (sent: seq<Msg>)
      modifies this, filter
      ensures Effect(View(), sent) == Handle(me, old(View()), Push(src, me, id, subnet), [], ok)
    {
      sent := [];
      if id == "" || resolver.None? || id in resolver.value {
        return;
      }
      ghost var n1 := Arrive(View(), Push(src, me, id, subnet));
      subnets := subnets[id := subnet];
      ghost var n2 := Advance(me, n1, [], ok).node;
      filter.Allow(id);
      live := live + multiset{id};
      ghost var n3 := Advance(me, n2, [], ok).node;
      if ok {
        sent := [Pull(me, src, id)];
      }
      assert n3 == View().(handler := PushAllowed(src, id));
      assert Settle(me, n3, [], ok) == Effect(View(), sent);
      assert Settle(me, n2, [], ok) == Effect(View(), sent);
    }

    method DidReceivePull(src: nat, id: Id, ok: bool) returns (sent: seq<Msg>)
      ensures Effect(View(), sent) == Handle(me, View(), Pull(src, me, id), [], ok)
    {
      sent := [];
      if id == "" || resolver.None? || id !in resolver.value {
        return;
      }
      var content := resolver.value[id];
      if ok {
        sent := [Sync(me, src, id, content)];
      }
      ghost var n1 := Arrive(View(), Pull(src, me, id));
      assert Settle(me, n1, [], ok) == Effect(View(), sent);
    }

    /** The syncer's part: hand the data to those who wait for it. */
    method SyncerDidReceive(id: Id, content: Content)
      modifies this
      ensures var n := old(View()).(handler := SyncArrived(id, content));
              var e := Advance(me, n, [], true).node;
              View().(handler := GossipCheck(id, content)) ==
              if e.handler.SyncerPassed? then Advance(me, e, [], true).node else e
    {
      var dropped := filter.Filter(true, id);
      if dropped {
        return;
      }
      passed := passed + {(id, content)};
      if id in pending && pending[id] < |slots| {
        slots := slots[pending[id] := slots[pending[id]].(content := Some(content))];
      }
    }

    /** One push for each of the recipients. */
    method Gossip(id: Id, subnet: Subnet, to: seq<nat>) returns (sent: seq<Msg>)
      ensures |sent| == |to| && forall i :: 0 <= i < |to| ==> sent[i] == Push(me, to[i], id, subnet)
      ensures sent == Pushes(me, to, id, subnet)
    {
      sent := [];
      for i := 0 to |to|
        invariant |sent| == i && forall k :: 0 <= k < i ==> sent[k] == Push(me, to[k], id, subnet)
      {
        sent := sent + [Push(me, to[i], id, subnet)];
      }
    }

    /** The gossiper's part: insert what is new, and pass it on. */
    method GossiperDidReceive(id: Id, content: Content, to: seq<nat>) returns (sent: seq<Msg>)
      modifies this
      ensures Effect(View(), sent) == Settle(me, old(View()).(handler := GossipCheck(id, content)), to, true)
    {
      sent := [];
      ghost var n0 := View().(handler := GossipCheck(id, content));
      var dropped := filter.Filter(true, id);
      if dropped {
        assert Advance(me, n0, to, true).node == View();
        return;
      }
      passed := passed + {(id, content)};
      ghost var n1 := Advance(me, n0, to, true).node;
      if resolver.None? || id in resolver.value || id == "" || content == [] {
        assert Advance(me, n1, to, true) == Effect(View(), []);
        assert Settle(me, n1, to, true) == Effect(View(), []);
        return;
      }
      InsertionSettles(me, n1, to, id, content);
      resolver := Some(resolver.value[id := content]);
      if id in subnets {
        sent := Gossip(id, subnets[id], to);
      }
      assert Settle(me, n1, to, true) == Effect(View(), sent);
    }

    /** The first half of Sync: share or create the pending slot, then allow its content. */
    method BeginSync(id: Id) returns (k: nat, joined: bool)
      modifies this, filter
      ensures k == |old(calls)| && joined == (id in old(pending))
      ensures k < |Open(old(View()), id).calls| && View() == CallAllow(Open(old(View()), id), k)
    {
      k, joined := |calls|, id in pending;
      if !joined {
        pending := pending[id := |slots|];
        slots := slots + [Slot(id, None)];
      }
      calls := calls + [Call(id, pending[id], joined, Opened)];
      filter.Allow(id);
      calls := calls[k := calls[k].(stage := Pulling)];
    }

    /**
      The end of a Sync call, with its Deny: the pending entry goes, and what is returned is
      what the shared slot holds.
     */
    method EndSync(k: nat, got: bool) returns (content: Option<Content>)
      requires k < |calls| && calls[k].slot < |slots|
      modifies this, filter
      ensures View() == CallDeny(CallReturn(old(View()), k, got), k)
      ensures content == if got then old(slots)[old(calls)[k].slot].content else None
    {
      var c := calls[k];
      content := if got then slots[c.slot].content else None;
      if content.Some? {
        returned := returned + {(c.id, content.value)};
      }
      pending := pending - {c.id};
      calls := calls[k := c.(stage := Leaving)];
      assert View() == CallReturn(old(View()), k, got);
      filter.Deny(c.id);
      calls := calls[k := calls[k].(stage := Over)];
    }

    /** What a timer does once it fires, with nothing in between. */
    method TimeOut(id: Id)
      requires id in live
      modifies this, filter
      ensures View() == Expire(Forget(old(View()), id), id)
    {
      subnets := subnets - {id};
      live := live - multiset{id};
      fading := fading + multiset{id};
      assert View() == Forget(old(View()), id);
      filter.Deny(id);
      fading := fading - multiset{id};
    }
  }

  function SectionsTaken(me: nat, node: Node, to: seq<nat>, ok: bool): nat
    decreases SectionsLeft(node.handler)
  {
    if node.handler == Idle then 0
    else
      AdvanceProceeds(me, node, to, ok);
      1 + SectionsTaken(me, Advance(me, node, to, ok).node, to, ok)
  }

  lemma SectionIsAStep(w: World, n: nat, to: seq<nat>, ok: bool, alpha: nat, beta: nat)
    requires n < |w.nodes| && |to| <= alpha && w.nodes[n].handler != Idle
    ensures var e := Advance(n, w.nodes[n], to, ok);
            && Enabled(w, Section(n, to, ok), alpha, beta)
            && Apply(w, Section(n, to, ok), alpha, beta) == Put(w, n, e)
  {
  }

  function Put(w: World, n: nat, e: Effect): World
    requires n < |w.nodes|
  {
    World(w.nodes[n := e.node], w.net + e.sent, w.origin)
  }

  lemma PutTwice(w: World, n: nat, e: Effect, rest: Effect)
    requires n < |w.nodes|
    ensures Put(Put(w, n, e), n, rest) == Put(w, n, Effect(rest.node, e.sent + rest.sent))
  {
    assert w.nodes[n := e.node][n := rest.node] == w.nodes[n := rest.node];
    assert w.net + e.sent + rest.sent == w.net + (e.sent + rest.sent);
  }

  lemma RunCons(w: World, steps: seq<Step>, alpha: nat, beta: nat, w': World)
    requires steps != [] && Enabled(w, steps[0], alpha, beta) && w' == Apply(w, steps[0], alpha, beta)
    ensures Run(w, steps, alpha, beta) == Run(w', steps[1..], alpha, beta)
  {
  }

  lemma SettleUnfolds(me: nat, node: Node, to: seq<nat>, ok: bool)
    ensures node.handler == Idle ==>
              Settle(me, node, to, ok) == Effect(node, []) && SectionsTaken(me, node, to, ok) == 0
    ensures node.handler != Idle ==>
              var e := Advance(me, node, to, ok);
              var rest := Settle(me, e.node, to, ok);
              && Settle(me, node, to, ok) == Effect(rest.node, e.sent + rest.sent)
              && SectionsTaken(me, node, to, ok) == 1 + SectionsTaken(me, e.node, to, ok)
  {
  }

  /** Sections taken back to back are a run of the network, with the effect of `Settle`. */
  lemma {:induction false} SettleIsARun(
    w: World, n: nat, to: seq<nat>, ok: bool, alpha: nat, beta: nat, steps: seq<Step>)
    requires n < |w.nodes| && |to| <= alpha
    requires |steps| == SectionsTaken(n, w.nodes[n], to, ok)
    requires forall i :: 0 <= i < |steps| ==> steps[i] == Section(n, to, ok)
    ensures Run(w, steps, alpha, beta) == Some(Put(w, n, Settle(n, w.nodes[n], to, ok)))
    decreases steps
  {
    SettleUnfolds(n, w.nodes[n], to, ok);
    if steps == [] {
      assert w.nodes[n := w.nodes[n]] == w.nodes && w.net + [] == w.net;
    } else {
      SectionIsAStep(w, n, to, ok, alpha, beta);
      var e := Advance(n, w.nodes[n], to, ok);
      RunCons(w, steps, alpha, beta, Put(w, n, e));
      SettleIsARun(Put(w, n, e), n, to, ok, alpha, beta, steps[1..]);
      PutTwice(w, n, e, Settle(n, e.node, to, ok));
    }
  }
}
