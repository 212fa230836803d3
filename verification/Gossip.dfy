/**
  Gossip and synchronisation over any number of peers.

  Content spreads by push (an identifier), pull (a request) and sync (the content). Each peer
  handles its messages one at a time; a handler runs as a series of locked sections, between
  which other peers, timers and Sync callers take steps. Messages are delivered in any order,
  at most once, or lost.
 */
module Gossip {
  import opened Wrappers
  import opened Bytes
  import C = ContentTypes
  import F = SyncFilter

  type Id = C.Id
  type Content = C.Content
  type Subnet = string
  type Pair = (Id, Content)

  datatype Msg =
    | Push(src: nat, dst: nat, id: Id, subnet: Subnet)
    | Pull(src: nat, dst: nat, id: Id)
    | Sync(src: nat, dst: nat, id: Id, content: Content)

  /**
    The next section of the message handler of a peer. Between its query and its insertion, at
    `GossipNew`, a handler keeps the read lock of the resolver: another resolver cannot be set,
    but applications go on inserting into the one that is there.
   */
  datatype Handler =
    | Idle
    | PushUnknown(src: nat, id: Id, subnet: Subnet)
    | PushStored(src: nat, id: Id)
    | PushAllowed(src: nat, id: Id)
    | PullFound(src: nat, id: Id, content: Content)
    | SyncArrived(id: Id, content: Content)
    | SyncerPassed(id: Id, content: Content)
    | GossipCheck(id: Id, content: Content)
    | GossipPassed(id: Id, content: Content)
    | GossipNew(id: Id, content: Content)
    | Inserted(id: Id)
    | Gossiping(id: Id, subnet: Subnet)

  /** A call of Sync: registered, allowed, waiting, returned with its allowance open, over. */
  datatype Stage = Opened | Pulling | Waiting | Leaving | Over

  datatype Call = Call(id: Id, slot: nat, joined: bool, stage: Stage)

  /** The content that Sync callers wait for. */
  datatype Slot = Slot(id: Id, content: Option<Content>)

  /**
    `live` holds the timers whose subnet is still to be forgotten, `fading` those that have
    only their allowance left to reverse. `passed` and `returned` record the synchronisation
    data that got through the filter and the results of Sync calls.
   */
  datatype Node = Node(
    resolver: Option<map<Id, Content>>,
    subnets: map<Id, Subnet>,
    expecting: F.Counts,
    live: multiset<Id>,
    fading: multiset<Id>,
    pending: map<Id, nat>,
    slots: seq<Slot>,
    calls: seq<Call>,
    handler: Handler,
    passed: set<Pair>,
    returned: set<Pair>)

  datatype World = World(nodes: seq<Node>, net: seq<Msg>, origin: set<Pair>)

  datatype Effect = Effect(node: Node, sent: seq<Msg>)

  // ----- the sections of the handlers

  predicate Knows(node: Node, id: Id) {
    node.resolver.Some? && id in node.resolver.value
  }

  function Answer(node: Node, id: Id): Option<Content> {
    if Knows(node, id) then Some(node.resolver.value[id]) else None
  }

  /** The section in which a message is taken up. */
  function Arrive(node: Node, m: Msg): Node {
    match m
    case Push(src, _, id, subnet) =>
      if id == "" || node.resolver.None? || Knows(node, id) then node
      else node.(handler := PushUnknown(src, id, subnet))
    case Pull(src, _, id) =>
      if id == "" || !Knows(node, id) then node
      else node.(handler := PullFound(src, id, node.resolver.value[id]))
    case Sync(_, _, id, content) => node.(handler := SyncArrived(id, content))
  }

  function Pushes(me: nat, to: seq<nat>, id: Id, subnet: Subnet): seq<Msg> {
    seq(|to|, i requires 0 <= i < |to| => Push(me, to[i], id, subnet))
  }

  function Signalled(node: Node, id: Id, content: Content): seq<Slot> {
    if id in node.pending && node.pending[id] < |node.slots|
    then node.slots[node.pending[id] := node.slots[node.pending[id]].(content := Some(content))]
    else node.slots
  }

  /** One section: `to` are the recipients chosen for a gossip, `ok` says whether a send works. */
  function Advance(me: nat, node: Node, to: seq<nat>, ok: bool): Effect {
    match node.handler
    case Idle => Effect(node, [])
    case PushUnknown(src, id, subnet) =>
      Effect(node.(subnets := node.subnets[id := subnet], handler := PushStored(src, id)), [])
    case PushStored(src, id) =>
      Effect(node.(expecting := F.Allowed(node.expecting, id), live := node.live + multiset{id},
                   handler := PushAllowed(src, id)), [])
    case PushAllowed(src, id) =>
      Effect(node.(handler := Idle), if ok then [Pull(me, src, id)] else [])
    case PullFound(src, id, content) =>
      Effect(node.(handler := Idle), if ok then [Sync(me, src, id, content)] else [])
    case SyncArrived(id, content) =>
      if id in node.expecting
      then Effect(node.(passed := node.passed + {(id, content)}, handler := SyncerPassed(id, content)), [])
      else Effect(node.(handler := GossipCheck(id, content)), [])
    case SyncerPassed(id, content) =>
      Effect(node.(slots := Signalled(node, id, content), handler := GossipCheck(id, content)), [])
    case GossipCheck(id, content) =>
      if id in node.expecting
      then Effect(node.(passed := node.passed + {(id, content)}, handler := GossipPassed(id, content)), [])
      else Effect(node.(handler := Idle), [])
    case GossipPassed(id, content) =>
      if node.resolver.None? || Knows(node, id) || id == "" || content == []
      then Effect(node.(handler := Idle), [])
      else Effect(node.(handler := GossipNew(id, content)), [])
    case GossipNew(id, content) =>
      if node.resolver.None? then Effect(node.(handler := Idle), [])
      else Effect(node.(resolver := Some(node.resolver.value[id := content]), handler := Inserted(id)), [])
    case Inserted(id) =>
      if id in node.subnets
      then Effect(node.(handler := Gossiping(id, node.subnets[id])), [])
      else Effect(node.(handler := Idle), [])
    case Gossiping(id, subnet) => Effect(node.(handler := Idle), Pushes(me, to, id, subnet))
  }

  // ----- the sections of the timers and of Sync

  function Forget(node: Node, id: Id): Node {
    node.(subnets := node.subnets - {id}, live := node.live - multiset{id}, fading := node.fading + multiset{id})
  }

  function Expire(node: Node, id: Id): Node {
    node.(expecting := F.Denied(node.expecting, id), fading := node.fading - multiset{id})
  }

  function Open(node: Node, id: Id): Node {
    if id in node.pending then node.(calls := node.calls + [Call(id, node.pending[id], true, Opened)])
    else
      node.(pending := node.pending[id := |node.slots|],
            slots := node.slots + [Slot(id, None)],
            calls := node.calls + [Call(id, |node.slots|, false, Opened)])
  }

  function Move(node: Node, k: nat, stage: Stage): seq<Call>
    requires k < |node.calls|
  {
    node.calls[k := node.calls[k].(stage := stage)]
  }

  function CallAllow(node: Node, k: nat): Node
    requires k < |node.calls|
  {
    node.(expecting := F.Allowed(node.expecting, node.calls[k].id), calls := Move(node, k, Pulling))
  }

  function Pulls(me: nat, to: seq<nat>, id: Id): seq<Msg> {
    seq(|to|, i requires 0 <= i < |to| => Pull(me, to[i], id))
  }

  function CallReturn(node: Node, k: nat, got: bool): Node
    requires k < |node.calls|
  {
    var c := node.calls[k];
    node.(pending := node.pending - {c.id},
          calls := Move(node, k, Leaving),
          returned :=
            if got && c.slot < |node.slots| && node.slots[c.slot].content.Some?
            then node.returned + {(c.id, node.slots[c.slot].content.value)}
            else node.returned)
  }

  function CallDeny(node: Node, k: nat): Node
    requires k < |node.calls|
  {
    node.(expecting := F.Denied(node.expecting, node.calls[k].id), calls := Move(node, k, Over))
  }

  // ----- steps of the network

  datatype Step =
    // what applications do
    | Originate(n: nat, id: Id, content: Content)
    | Resolve(n: nat, contents: map<Id, Content>)
    | StartGossip(n: nat, id: Id, subnet: Subnet, to: seq<nat>)
    | StartSync(n: nat, id: Id)
    // what follows from it
    | Lose(i: nat)
    | Receive(i: nat)
    | Section(n: nat, to: seq<nat>, ok: bool)
    | TimerForgets(n: nat, id: Id)
    | TimerDenies(n: nat, id: Id)
    | SyncAllows(n: nat, k: nat)
    | SyncPulls(n: nat, k: nat, to: seq<nat>)
    | SyncReturns(n: nat, k: nat, got: bool)
    | SyncDenies(n: nat, k: nat)

  predicate CallAt(w: World, n: nat, k: nat, stage: Stage) {
    n < |w.nodes| && k < |w.nodes[n].calls| && w.nodes[n].calls[k].stage == stage
  }

  /** `alpha` bounds the recipients of a gossip, `beta` the peers that a Sync call asks. */
  predicate Enabled(w: World, s: Step, alpha: nat, beta: nat) {
    match s
    case Originate(n, _, _) => n < |w.nodes| && w.nodes[n].resolver.Some?
    case Resolve(n, _) => n < |w.nodes| && !w.nodes[n].handler.GossipNew?
    case StartGossip(n, _, _, to) => n < |w.nodes| && |to| <= alpha
    case StartSync(n, _) => n < |w.nodes|
    case Lose(i) => i < |w.net|
    case Receive(i) => i < |w.net| && w.net[i].dst < |w.nodes| && w.nodes[w.net[i].dst].handler == Idle
    case Section(n, to, _) => n < |w.nodes| && w.nodes[n].handler != Idle && |to| <= alpha
    case TimerForgets(n, id) => n < |w.nodes| && id in w.nodes[n].live
    case TimerDenies(n, id) => n < |w.nodes| && id in w.nodes[n].fading
    case SyncAllows(n, k) => CallAt(w, n, k, Opened)
    case SyncPulls(n, k, to) =>
      CallAt(w, n, k, Pulling) && |to| <= beta && (w.nodes[n].calls[k].joined ==> to == [])
    case SyncReturns(n, k, got) =>
      || (CallAt(w, n, k, Pulling) && !got)
      || (CallAt(w, n, k, Waiting) && (got ==>
            var c := w.nodes[n].calls[k];
            c.slot < |w.nodes[n].slots| && w.nodes[n].slots[c.slot].content.Some?))
    case SyncDenies(n, k) => CallAt(w, n, k, Leaving)
  }

  function Removed(net: seq<Msg>, i: nat): seq<Msg>
    requires i < |net|
  {
    net[..i] + net[i + 1..]
  }

  function Pairs(contents: map<Id, Content>): set<Pair> {
    set id | id in contents :: (id, contents[id])
  }

  /** The peer that a step changes, if any, and what that peer becomes. */
  function Changed(w: World, s: Step): Node
    requires !s.Lose? && (s.Receive? ==> s.i < |w.net|) && Who(w, s) < |w.nodes|
    requires s.SyncAllows? || s.SyncPulls? || s.SyncReturns? || s.SyncDenies? ==> s.k < |w.nodes[s.n].calls|
  {
    var node := w.nodes[Who(w, s)];
    match s
    case Originate(_, id, content) =>
      if node.resolver.Some? then node.(resolver := Some(node.resolver.value[id := content])) else node
    case Resolve(_, contents) => node.(resolver := Some(contents))
    case StartGossip(_, _, _, _) => node
    case StartSync(_, id) => Open(node, id)
    case Receive(i) => Arrive(node, w.net[i])
    case Section(n, to, ok) => Advance(n, node, to, ok).node
    case TimerForgets(_, id) => Forget(node, id)
    case TimerDenies(_, id) => Expire(node, id)
    case SyncAllows(_, k) => CallAllow(node, k)
    case SyncPulls(_, k, _) => node.(calls := Move(node, k, Waiting))
    case SyncReturns(_, k, got) => CallReturn(node, k, got)
    case SyncDenies(_, k) => CallDeny(node, k)
  }

  function Who(w: World, s: Step): nat
    requires !s.Lose? && (s.Receive? ==> s.i < |w.net|)
  {
    if s.Receive? then w.net[s.i].dst else s.n
  }

  function NetAfter(w: World, s: Step, alpha: nat, beta: nat): seq<Msg>
    requires Enabled(w, s, alpha, beta)
  {
    match s
    case Lose(i) => Removed(w.net, i)
    case Receive(i) => Removed(w.net, i)
    case StartGossip(n, id, subnet, to) => w.net + Pushes(n, to, id, subnet)
    case Section(n, to, ok) => w.net + Advance(n, w.nodes[n], to, ok).sent
    case SyncPulls(n, k, to) => w.net + Pulls(n, to, w.nodes[n].calls[k].id)
    case _ => w.net
  }

  function OriginAfter(w: World, s: Step): set<Pair> {
    match s
    case Originate(_, id, content) => w.origin + {(id, content)}
    case Resolve(_, contents) => w.origin + Pairs(contents)
    case _ => w.origin
  }

  function Apply(w: World, s: Step, alpha: nat, beta: nat): World
    requires Enabled(w, s, alpha, beta)
  {
    World(if s.Lose? then w.nodes else w.nodes[Who(w, s) := Changed(w, s)],
          NetAfter(w, s, alpha, beta),
          OriginAfter(w, s))
  }

  function Run(w: World, steps: seq<Step>, alpha: nat, beta: nat): Option<World>
    decreases steps
  {
    if steps == [] then Some(w)
    else if Enabled(w, steps[0], alpha, beta) then Run(Apply(w, steps[0], alpha, beta), steps[1..], alpha, beta)
    else None
  }

  const Fresh: Node := Node(None, map[], map[], multiset{}, multiset{}, map[], [], [], Idle, {}, {})

  function Init(peers: nat): World {
    World(seq(peers, _ => Fresh), [], {})
  }

  ghost predicate Reachable(w: World, alpha: nat, beta: nat) {
    exists peers, steps :: Run(Init(peers), steps, alpha, beta) == Some(w)
  }
}
