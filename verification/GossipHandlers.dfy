/** What a message comes to when its handler runs without interruption, and whom a peer addresses. */
module GossipHandlers {
  import opened Wrappers
  import opened Gossip
  import opened GossipPeer
  import F = SyncFilter

  // ----- whole handlers

  /**
    A push of content that a peer could use and lacks: its subnet is remembered, one allowance is
    made, one timer started, and the sender of the push is asked. Any other push is ignored.
   */
  lemma PushMeans(me: nat, node: Node, src: nat, id: Id, subnet: Subnet, to: seq<nat>, ok: bool)
    requires node.handler == Idle
    ensures Handle(me, node, Push(src, me, id, subnet), to, ok) ==
            if id == "" || node.resolver.None? || id in node.resolver.value then Effect(node, [])
            else
              Effect(node.(subnets := node.subnets[id := subnet],
                           expecting := node.expecting[id := F.CountOf(node.expecting, id) + 1],
                           live := node.live + multiset{id}),
                     if ok then [Pull(me, src, id)] else [])
  {
    var n1 := Arrive(node, Push(src, me, id, subnet));
    SettleUnfolds(me, n1, to, ok);
    if n1.handler.PushUnknown? {
      var n2 := Advance(me, n1, to, ok).node;
      SettleUnfolds(me, n2, to, ok);
      PushStoredMeans(me, n2, src, id, to, ok);
    }
  }

  lemma PushStoredMeans(me: nat, node: Node, src: nat, id: Id, to: seq<nat>, ok: bool)
    requires node.handler == PushStored(src, id)
    ensures Settle(me, node, to, ok) ==
            Effect(node.(expecting := node.expecting[id := F.CountOf(node.expecting, id) + 1],
                         live := node.live + multiset{id}, handler := Idle),
                   if ok then [Pull(me, src, id)] else [])
  {
    SettleUnfolds(me, node, to, ok);
    var n1 := Advance(me, node, to, ok).node;
    SettleUnfolds(me, n1, to, ok);
    SettleUnfolds(me, Advance(me, n1, to, ok).node, to, ok);
  }

  /** A pull is answered to its sender with what the resolver answers, and changes nothing. */
  lemma PullMeans(me: nat, node: Node, src: nat, id: Id, to: seq<nat>, ok: bool)
    requires node.handler == Idle
    ensures Handle(me, node, Pull(src, me, id), to, ok) ==
            Effect(node, if id != "" && Knows(node, id) && ok then [Sync(me, src, id, node.resolver.value[id])] else [])
  {
    var n1 := Arrive(node, Pull(src, me, id));
    SettleUnfolds(me, n1, to, ok);
    if n1.handler.PullFound? {
      SettleUnfolds(me, Advance(me, n1, to, ok).node, to, ok);
    }
  }

  /** The content is one that a gossiper takes up. */
  predicate IsNews(node: Node, id: Id, content: Content) {
    id in node.expecting && node.resolver.Some? && id !in node.resolver.value && id != "" && content != []
  }

  /** The slots after data for `id` has come in: exactly the pending one holds it. */
  ghost predicate Filled(node: Node, id: Id, content: Content, slots: seq<Slot>) {
    && |slots| == |node.slots|
    && forall o :: 0 <= o < |slots| ==>
         && slots[o].id == node.slots[o].id
         && slots[o].content ==
            if id in node.expecting && id in node.pending && node.pending[id] == o then Some(content)
            else node.slots[o].content
  }

  /** The syncer's two sections hand data that is expected to the pending slot, and to no other. */
  lemma SyncerFillsSlot(me: nat, node: Node, id: Id, content: Content, to: seq<nat>, ok: bool) returns (node': Node)
    requires node.handler == SyncArrived(id, content)
    ensures node'.handler == GossipCheck(id, content) && Filled(node, id, content, node'.slots)
    ensures node' == node.(handler := node'.handler, slots := node'.slots, passed := node'.passed)
    ensures Settle(me, node, to, ok) == Settle(me, node', to, ok)
  {
    SettleUnfolds(me, node, to, ok);
    node' := Advance(me, node, to, ok).node;
    if id in node.expecting {
      SettleUnfolds(me, node', to, ok);
      node' := Advance(me, node', to, ok).node;
    }
    var rest := Settle(me, node', to, ok);
    assert [] + rest.sent == rest.sent;
  }

  /** A waiting call whose slot is the pending one for its identifier can return the data. */
  lemma WaitingCallsGetTheData(me: nat, node: Node, id: Id, content: Content, to: seq<nat>, ok: bool, k: nat)
    returns (node': Node)
    requires node.handler == SyncArrived(id, content) && id in node.expecting && id in node.pending
    requires k < |node.calls| && node.calls[k].id == id && node.calls[k].slot == node.pending[id] < |node.slots|
    ensures Settle(me, node, to, ok) == Settle(me, node', to, ok)
    ensures k < |node'.calls| && (id, content) in CallReturn(node', k, true).returned
  {
    node' := SyncerFillsSlot(me, node, id, content, to, ok);
  }

  /**
    Calls of Sync for an identifier that is pending share its slot; the first one gets an empty
    slot of its own, and later data for the identifier goes there.
   */
  lemma CallsShareASlot(node: Node, id: Id)
    ensures var node' := Open(node, id);
            && |node'.calls| == |node.calls| + 1 && node'.calls[..|node.calls|] == node.calls
            && id in node'.pending
            && node'.calls[|node.calls|] == Call(id, node'.pending[id], id in node.pending, Opened)
            && (if id in node.pending then node'.pending == node.pending && node'.slots == node.slots
                else node'.pending == node.pending[id := |node.slots|] && node'.slots == node.slots + [Slot(id, None)])
  {
  }

  /**
    The gossiper's part: news is inserted, and pushed to every recipient with the subnet that is
    remembered for it; anything else leaves resolver and network alone.
   */
  lemma GossiperMeans(me: nat, node: Node, id: Id, content: Content, to: seq<nat>)
    requires node.handler == GossipCheck(id, content)
    ensures var e := Settle(me, node, to, true);
            && e.node.resolver ==
               (if IsNews(node, id, content) then Some(node.resolver.value[id := content]) else node.resolver)
            && |e.sent| == (if IsNews(node, id, content) && id in node.subnets then |to| else 0)
            && (forall i :: 0 <= i < |e.sent| ==> e.sent[i] == Push(me, to[i], id, node.subnets[id]))
            && e.node == node.(resolver := e.node.resolver, passed := e.node.passed, handler := Idle)
  {
    SettleUnfolds(me, node, to, true);
    var n1 := Advance(me, node, to, true).node;
    SettleUnfolds(me, n1, to, true);
    if n1.handler.GossipPassed? {
      if IsNews(node, id, content) {
        InsertionSettles(me, n1, to, id, content);
      } else {
        SettleUnfolds(me, Advance(me, n1, to, true).node, to, true);
      }
    }
  }

  // ----- whom a peer addresses

  /** Every recipient of a gossip has a push of its own in flight, whoever started the gossip. */
  lemma EveryRecipientIsPushed(w: World, s: Step, alpha: nat, beta: nat, id: Id, subnet: Subnet)
    requires Enabled(w, s, alpha, beta)
    requires || (s.StartGossip? && s.id == id && s.subnet == subnet)
             || (s.Section? && w.nodes[s.n].handler == Gossiping(id, subnet))
    ensures var net := Apply(w, s, alpha, beta).net;
            && |net| == |w.net| + |s.to| && net[..|w.net|] == w.net
            && forall i :: 0 <= i < |s.to| ==> net[|w.net| + i] == Push(s.n, s.to[i], id, subnet)
  {
  }

  /** Every peer that a Sync call asks has a pull of its own in flight. */
  lemma EveryPeerIsAsked(w: World, s: Step, alpha: nat, beta: nat)
    requires Enabled(w, s, alpha, beta) && s.SyncPulls?
    ensures var net := Apply(w, s, alpha, beta).net;
            && |net| == |w.net| + |s.to| && net[..|w.net|] == w.net
            && forall i :: 0 <= i < |s.to| ==>
                 net[|w.net| + i] == Pull(s.n, s.to[i], w.nodes[s.n].calls[s.k].id)
  {
  }

  /** A message that is lost or received leaves the network, and no other does. */
  lemma OneMessageLeaves(net: seq<Msg>, i: nat)
    requires i < |net|
    ensures multiset(Removed(net, i)) == multiset(net) - multiset{net[i]}
  {
    assert net == net[..i] + [net[i]] + net[i + 1..];
  }

  /** It is the peer that a message is addressed to that handles it; the others stay as they are. */
  lemma ReceivedByAddressee(w: World, i: nat, alpha: nat, beta: nat)
    requires Enabled(w, Receive(i), alpha, beta)
    ensures var w' := Apply(w, Receive(i), alpha, beta);
            && |w'.nodes| == |w.nodes|
            && (forall n :: 0 <= n < |w.nodes| && n != w.net[i].dst ==> w'.nodes[n] == w.nodes[n])
            && multiset(w'.net) == multiset(w.net) - multiset{w.net[i]}
  {
    OneMessageLeaves(w.net, i);
  }
}
