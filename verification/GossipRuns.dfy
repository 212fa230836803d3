/** Runs of two peers, section by section, that show what the gossip network can come to. */
module GossipRuns {
  import opened Wrappers
  import opened Gossip
  import opened GossipSafety
  import opened GossipAllowances
  import F = SyncFilter

  lemma ReachableStep(w: World, s: Step, alpha: nat, beta: nat, w': World)
    requires Reachable(w, alpha, beta) && Enabled(w, s, alpha, beta) && w' == Apply(w, s, alpha, beta)
    ensures Reachable(w', alpha, beta)
  {
    var peers, steps :| Run(Init(peers), steps, alpha, beta) == Some(w);
    RunConcat(Init(peers), steps, [s], alpha, beta);
    assert Run(w, [s], alpha, beta) == Some(w');
  }

  const Reader: Node := Fresh.(resolver := Some(map[]))
  const Author: Node := Fresh.(resolver := Some(map["a" := [1]]))

  function Duo(reader: Node, author: Node, net: seq<Msg>): World {
    World([reader, author], net, {("a", [1])})
  }

  lemma DuoStep(reader: Node, author: Node, net: seq<Msg>, s: Step, reader': Node, author': Node, net': seq<Msg>)
    requires Reachable(Duo(reader, author, net), 1, 1) && Enabled(Duo(reader, author, net), s, 1, 1)
    requires !s.Lose? && !s.Originate? && !s.Resolve?
    requires net' == NetAfter(Duo(reader, author, net), s, 1, 1)
    requires var n := Who(Duo(reader, author, net), s);
             var node := Changed(Duo(reader, author, net), s);
             if n == 0 then reader' == node && author' == author else reader' == reader && author' == node
    ensures Reachable(Duo(reader', author', net'), 1, 1)
  {
    var w := Duo(reader, author, net);
    assert Apply(w, s, 1, 1).nodes == [reader', author'];
    ReachableStep(w, s, 1, 1, Duo(reader', author', net'));
  }

  /** The handler and the timer of the reader, section by section. */
  function Next(node: Node): Node {
    Advance(0, node, [], true).node
  }

  lemma DuoSection(reader: Node, net: seq<Msg>)
    requires Reachable(Duo(reader, Author, net), 1, 1) && reader.handler != Idle
    requires Advance(0, reader, [], true).sent == []
    ensures Reachable(Duo(Next(reader), Author, net), 1, 1)
  {
    assert net + [] == net;
    DuoStep(reader, Author, net, Section(0, [], true), Next(reader), Author, net);
  }

  lemma AuthorPushes()
    ensures Reachable(Duo(Reader, Author, [Push(1, 0, "a", "s")]), 1, 1)
  {
    BothResolve();
    GossipAgain(Reader, []);
    assert [] + [Push(1, 0, "a", "s")] == [Push(1, 0, "a", "s")];
  }

  lemma ReaderResolves()
    ensures Reachable(World([Reader, Fresh], [], {}), 1, 1)
  {
    var w0 := Init(2);
    assert Run(w0, [], 1, 1) == Some(w0);
    assert Pairs(map[]) == {};
    ReachableStep(w0, Resolve(0, map[]), 1, 1, World([Reader, Fresh], [], {}));
  }

  lemma BothResolve()
    ensures Reachable(Duo(Reader, Author, []), 1, 1)
  {
    ReaderResolves();
    var article: map<Id, Content> := map["a" := [1]];
    assert article["a"] == [1] && article.Keys == {"a"};
    assert forall p :: p in Pairs(article) <==> p == ("a", article["a"]);
    ReachableStep(World([Reader, Fresh], [], {}), Resolve(1, article), 1, 1, Duo(Reader, Author, []));
  }

  /** The author gossips the article to the reader, whatever the reader is doing. */
  lemma GossipAgain(r: Node, net: seq<Msg>)
    requires Reachable(Duo(r, Author, net), 1, 1)
    ensures Reachable(Duo(r, Author, net + [Push(1, 0, "a", "s")]), 1, 1)
  {
    assert Pushes(1, [0], "a", "s") == [Push(1, 0, "a", "s")];
    DuoStep(r, Author, net, StartGossip(1, "a", "s", [0]), r, Author, net + [Push(1, 0, "a", "s")]);
  }

  lemma ReaderStores(r: Node, net: seq<Msg>) returns (r': Node)
    requires Reachable(Duo(r, Author, net), 1, 1) && r.handler == PushUnknown(1, "a", "s")
    ensures Reachable(Duo(r', Author, net), 1, 1) && r'.handler == PushStored(1, "a")
    ensures SameBooks(r, r') && r'.pending == r.pending && "a" in r'.subnets
  {
    r' := Next(r);
    DuoSection(r, net);
  }

  /** Between storing the subnet of a push and allowing its content, nothing is allowed. */
  lemma SubnetCanPrecedeAllowance() returns (w: World)
    ensures Reachable(w, 1, 1) && |w.nodes| == 2
    ensures "a" in w.nodes[0].subnets && "a" !in w.nodes[0].expecting
  {
    AuthorPushes();
    var r := Reader.(handler := PushUnknown(1, "a", "s"));
    DuoStep(Reader, Author, [Push(1, 0, "a", "s")], Receive(0), r, Author, []);
    r := ReaderStores(r, []);
    w := Duo(r, Author, []);
  }

  lemma SecondPushArrives(r: Node) returns (r': Node)
    requires Reachable(Duo(r, Author, [Pull(0, 1, "a")]), 1, 1)
    requires r.handler == Idle && r.resolver == Some(map[])
    ensures Reachable(Duo(r', Author, [Pull(0, 1, "a")]), 1, 1) && r'.handler == PushStored(1, "a") && SameBooks(r, r')
  {
    var net := [Pull(0, 1, "a")];
    GossipAgain(r, net);
    var r1 := r.(handler := PushUnknown(1, "a", "s"));
    assert Removed(net + [Push(1, 0, "a", "s")], 1) == net;
    DuoStep(r, Author, net + [Push(1, 0, "a", "s")], Receive(1), r1, Author, net);
    r' := ReaderStores(r1, net);
  }

  /**
    A handler that has just stored its subnet may lose it: the timer of an earlier push runs out
    before the handler makes its own allowance.
   */
  lemma StoredSubnetCanBeForgotten() returns (w: World)
    ensures Reachable(w, 1, 1) && |w.nodes| == 2 && w.nodes[0].handler == PushStored(1, "a")
    ensures Allowances(w.nodes[0], "a") == 0 && "a" !in w.nodes[0].subnets
  {
    var r := ReaderAsks();
    var r1 := SecondPushArrives(r);
    TimerRunsOut(r1, [Pull(0, 1, "a")]);
    w := Duo(Expire(Forget(r1, "a"), "a"), Author, [Pull(0, 1, "a")]);
    assert w.nodes[0].live == multiset{} && w.nodes[0].fading == multiset{} && w.nodes[0].calls == [];
  }

  /** The reader has two pushes open for the article, and the timer of the first runs out. */
  lemma FirstTimerForgets() returns (r: Node)
    ensures Reachable(Duo(r, Author, [Pull(0, 1, "a")]), 1, 1) && r.handler == Idle && r.resolver == Some(map[])
    ensures "a" in r.expecting && r.live == multiset{"a"} && "a" !in r.subnets
  {
    var net := [Pull(0, 1, "a")];
    r := ReaderAsks();
    var r1 := SecondPushArrives(r);
    var r2 := ReaderAllows(r1, net);
    r := PullIsNotSent(r2, net);
    assert r.live == multiset{"a", "a"};
    TimerStrikes(r, net);
    r := Forget(r, "a");
  }

  lemma PullIsNotSent(r: Node, net: seq<Msg>) returns (r': Node)
    requires Reachable(Duo(r, Author, net), 1, 1) && r.handler == PushAllowed(1, "a")
    ensures Reachable(Duo(r', Author, net), 1, 1) && r' == r.(handler := Idle)
  {
    r' := r.(handler := Idle);
    assert net + [] == net;
    DuoStep(r, Author, net, Section(0, [], false), r', Author, net);
  }

  lemma TimerStrikes(r: Node, net: seq<Msg>)
    requires Reachable(Duo(r, Author, net), 1, 1) && "a" in r.live
    ensures Reachable(Duo(Forget(r, "a"), Author, net), 1, 1)
  {
    DuoStep(r, Author, net, TimerForgets(0, "a"), Forget(r, "a"), Author, net);
  }

  /**
    The timer of an earlier push may also run out while the allowance of a later one is open:
    the article then arrives, is inserted, and is not passed on.
   */
  lemma InsertedWithoutSubnet() returns (w: World)
    ensures Reachable(w, 1, 1) && |w.nodes| == 2 && w.nodes[0].handler == Inserted("a")
    ensures "a" in w.nodes[0].expecting && w.nodes[0].live == multiset{"a"} && "a" !in w.nodes[0].subnets
    ensures Advance(0, w.nodes[0], [], true) == Effect(w.nodes[0].(handler := Idle), [])
  {
    var r := FirstTimerForgets();
    AuthorAnswers(r);
    var r1 := ReaderChecks(r);
    var r2 := QueryFindsNothing(r1, "a", [1]);
    var r3 := ArticleIsInserted(r2, "a", [1]);
    NotPassedOn(r3, "a");
    w := Duo(r3, Author, []);
  }

  lemma ArticleIsInserted(r: Node, id: Id, content: Content) returns (r': Node)
    requires Reachable(Duo(r, Author, []), 1, 1) && r.handler == GossipNew(id, content) && r.resolver.Some?
    ensures Reachable(Duo(r', Author, []), 1, 1) && r'.handler == Inserted(id)
    ensures r'.expecting == r.expecting && r'.live == r.live && r'.subnets == r.subnets
  {
    r' := Next(r);
    DuoSection(r, []);
  }

  lemma NotPassedOn(r: Node, id: Id)
    requires r.handler == Inserted(id) && id !in r.subnets
    ensures Advance(0, r, [], true) == Effect(r.(handler := Idle), [])
  {
  }

  lemma ReaderPulls(r: Node, r': Node)
    requires Reachable(Duo(r, Author, []), 1, 1) && r.handler == PushAllowed(1, "a") && r' == r.(handler := Idle)
    ensures Reachable(Duo(r', Author, [Pull(0, 1, "a")]), 1, 1)
  {
    assert [] + [Pull(0, 1, "a")] == [Pull(0, 1, "a")];
    DuoStep(r, Author, [], Section(0, [], true), r', Author, [Pull(0, 1, "a")]);
  }

  lemma ReaderAllows(r: Node, net: seq<Msg>) returns (r': Node)
    requires Reachable(Duo(r, Author, net), 1, 1) && r.handler == PushStored(1, "a")
    ensures Reachable(Duo(r', Author, net), 1, 1)
    ensures r'.handler == PushAllowed(1, "a") && r'.live == r.live + multiset{"a"}
    ensures r'.expecting == F.Allowed(r.expecting, "a") && r'.subnets == r.subnets
    ensures r'.resolver == r.resolver && r'.fading == r.fading && r'.calls == r.calls && r'.pending == r.pending
  {
    r' := Next(r);
    DuoSection(r, net);
  }

  /** The reader asks, and keeps one timer for what it asked for. */
  lemma ReaderAsks() returns (r: Node)
    ensures Reachable(Duo(r, Author, [Pull(0, 1, "a")]), 1, 1)
    ensures r.handler == Idle && r.live == multiset{"a"} && r.fading == multiset{} && r.calls == []
    ensures "a" in r.expecting && r.resolver == Some(map[]) && r.pending == map[]
  {
    AuthorPushes();
    var r1 := Reader.(handler := PushUnknown(1, "a", "s"));
    DuoStep(Reader, Author, [Push(1, 0, "a", "s")], Receive(0), r1, Author, []);
    var r2 := ReaderStores(r1, []);
    var r3 := ReaderAllows(r2, []);
    r := r3.(handler := Idle);
    ReaderPulls(r3, r);
  }

  lemma AuthorAnswers(r: Node)
    requires Reachable(Duo(r, Author, [Pull(0, 1, "a")]), 1, 1)
    ensures Reachable(Duo(r, Author, [Sync(1, 0, "a", [1])]), 1, 1)
  {
    var busy := Author.(handler := PullFound(0, "a", [1]));
    DuoStep(r, Author, [Pull(0, 1, "a")], Receive(0), r, busy, []);
    AuthorSends(r, busy);
  }

  lemma AuthorSends(r: Node, busy: Node)
    requires Reachable(Duo(r, busy, []), 1, 1) && busy == Author.(handler := PullFound(0, "a", [1]))
    ensures Reachable(Duo(r, Author, [Sync(1, 0, "a", [1])]), 1, 1)
  {
    assert Advance(1, busy, [], true) == Effect(Author, [Sync(1, 0, "a", [1])]);
    assert [] + [Sync(1, 0, "a", [1])] == [Sync(1, 0, "a", [1])];
    DuoStep(r, busy, [], Section(1, [], true), r, Author, [Sync(1, 0, "a", [1])]);
  }

  /** The peers agree on all that the sections of an arriving article leave alone. */
  predicate SameBooks(r: Node, r': Node) {
    && r'.resolver == r.resolver && r'.expecting == r.expecting
    && r'.live == r.live && r'.fading == r.fading && r'.calls == r.calls
  }

  lemma ArrivedPasses(r: Node, id: Id, content: Content) returns (r': Node)
    requires Reachable(Duo(r, Author, []), 1, 1) && r.handler == SyncArrived(id, content) && id in r.expecting
    ensures Reachable(Duo(r', Author, []), 1, 1) && r'.handler == SyncerPassed(id, content) && SameBooks(r, r')
    ensures r'.subnets == r.subnets
    ensures r'.pending == r.pending && r'.slots == r.slots
  {
    r' := Next(r);
    DuoSection(r, []);
  }

  lemma SyncerHandsOver(r: Node, id: Id, content: Content) returns (r': Node)
    requires Reachable(Duo(r, Author, []), 1, 1) && r.handler == SyncerPassed(id, content)
    ensures Reachable(Duo(r', Author, []), 1, 1) && r'.handler == GossipCheck(id, content) && SameBooks(r, r')
    ensures r'.subnets == r.subnets
  {
    r' := Next(r);
    DuoSection(r, []);
  }

  lemma CheckPasses(r: Node, id: Id, content: Content) returns (r': Node)
    requires Reachable(Duo(r, Author, []), 1, 1) && r.handler == GossipCheck(id, content) && id in r.expecting
    ensures Reachable(Duo(r', Author, []), 1, 1) && r'.handler == GossipPassed(id, content) && SameBooks(r, r')
    ensures r'.subnets == r.subnets
  {
    r' := Next(r);
    DuoSection(r, []);
  }

  lemma QueryFindsNothing(r: Node, id: Id, content: Content) returns (r': Node)
    requires Reachable(Duo(r, Author, []), 1, 1) && r.handler == GossipPassed(id, content)
    requires r.resolver == Some(map[]) && id != "" && content != []
    ensures Reachable(Duo(r', Author, []), 1, 1) && r'.handler == GossipNew(id, content) && SameBooks(r, r')
    ensures r'.subnets == r.subnets
  {
    r' := Next(r);
    DuoSection(r, []);
  }

  /** The article passes both checks and is about to be inserted. */
  lemma ReaderChecks(r: Node) returns (r': Node)
    requires Reachable(Duo(r, Author, [Sync(1, 0, "a", [1])]), 1, 1)
    requires r.handler == Idle && "a" in r.expecting
    ensures Reachable(Duo(r', Author, []), 1, 1)
    ensures r'.handler == GossipPassed("a", [1]) && SameBooks(r, r') && r'.subnets == r.subnets
  {
    var r1 := r.(handler := SyncArrived("a", [1]));
    DuoStep(r, Author, [Sync(1, 0, "a", [1])], Receive(0), r1, Author, []);
    var r2 := ArrivedPasses(r1, "a", [1]);
    var r3 := SyncerHandsOver(r2, "a", [1]);
    r' := CheckPasses(r3, "a", [1]);
  }

  lemma TimerRunsOut(r: Node, net: seq<Msg>)
    requires Reachable(Duo(r, Author, net), 1, 1) && r.live == multiset{"a"}
    ensures Reachable(Duo(Expire(Forget(r, "a"), "a"), Author, net), 1, 1)
  {
    TimerStrikes(r, net);
    DuoStep(Forget(r, "a"), Author, net, TimerDenies(0, "a"), Expire(Forget(r, "a"), "a"), Author, net);
  }

  lemma InsertsWithoutAllowance(r: Node, s: Step)
    requires r.handler == GossipNew("a", [1]) && r.resolver == Some(map[])
    requires r.live == multiset{"a"} && r.fading == multiset{} && r.calls == []
    requires s == Section(0, [], true)
    ensures var r' := Expire(Forget(r, "a"), "a");
            && Allowances(r', "a") == 0 && r'.handler == r.handler && r'.resolver == r.resolver
            && Knows(Advance(0, r', [], true).node, "a")
  {
  }

  /**
    The filter check and the insertion are separate sections, so a timeout in between lets
    an insertion happen with no allowance left.
   */
  lemma InsertionCanFollowDeny() returns (w: World, s: Step)
    ensures Reachable(w, 1, 1) && Enabled(w, s, 1, 1) && s.Section? && s.n < |w.nodes|
    ensures Allowances(w.nodes[s.n], "a") == 0
    ensures !Knows(w.nodes[s.n], "a") && Knows(Apply(w, s, 1, 1).nodes[s.n], "a")
  {
    var r := ReaderAsks();
    AuthorAnswers(r);
    r := ReaderChecks(r);
    r := QueryFindsNothing(r, "a", [1]);
    TimerRunsOut(r, []);
    s := Section(0, [], true);
    InsertsWithoutAllowance(r, s);
    r := Expire(Forget(r, "a"), "a");
    w := Duo(r, Author, []);
    assert Apply(w, s, 1, 1).nodes[0] == Advance(0, r, [], true).node;
  }

  /** The reader has found the article unknown and has yet to insert it. */
  lemma ReaderIsPastItsQuery() returns (r: Node)
    ensures Reachable(Duo(r, Author, []), 1, 1) && r.handler == GossipNew("a", [1]) && r.resolver == Some(map[])
  {
    r := ReaderAsks();
    AuthorAnswers(r);
    r := ReaderChecks(r);
    r := QueryFindsNothing(r, "a", [1]);
  }

  /**
    The query and the insertion of a handler are separate, and the resolver is open to
    applications in between: what an application inserts there is overwritten.
   */
  lemma GossipCanReplaceAnAnswer() returns (w: World, s: Step)
    ensures Reachable(w, 1, 1) && Enabled(w, s, 1, 1) && s.Section? && s.n == 0 && |w.nodes| == 2
    ensures Answer(w.nodes[0], "a") == Some([2]) && Answer(Apply(w, s, 1, 1).nodes[0], "a") == Some([1])
  {
    var r := ReaderIsPastItsQuery();
    var own := Originate(0, "a", [2]);
    var r' := r.(resolver := Some(map["a" := [2]]));
    w := World([r', Author], [], {("a", [1])} + {("a", [2])});
    var before := Duo(r, Author, []);
    assert Changed(before, own) == r';
    assert Apply(before, own, 1, 1).nodes == [r', Author];
    ReachableStep(before, own, 1, 1, w);
    s := Section(0, [], true);
    OnlyNewInserts(0, r', [], true, "a");
    assert Apply(w, s, 1, 1).nodes[0] == Advance(0, r', [], true).node;
  }

  // ----- a Sync call that gets its content

  /** The reader asks the author directly and waits. */
  lemma ReaderSyncs() returns (r: Node)
    ensures Reachable(Duo(r, Author, [Pull(0, 1, "a")]), 1, 1)
    ensures r.handler == Idle && r.pending == map["a" := 0] && r.slots == [Slot("a", None)] && "a" in r.expecting
    ensures r.calls == [Call("a", 0, false, Waiting)]
  {
    BothResolve();
    var r1 := CallOpens();
    var r2 := CallAllowed(r1);
    r := r2.(calls := [Call("a", 0, false, Waiting)]);
    CallAsks(r2, r);
  }

  lemma CallOpens() returns (r: Node)
    requires Reachable(Duo(Reader, Author, []), 1, 1)
    ensures Reachable(Duo(r, Author, []), 1, 1) && r.handler == Idle
    ensures r.pending == map["a" := 0] && r.slots == [Slot("a", None)] && r.calls == [Call("a", 0, false, Opened)]
  {
    r := Open(Reader, "a");
    DuoStep(Reader, Author, [], StartSync(0, "a"), r, Author, []);
  }

  lemma CallAllowed(r: Node) returns (r': Node)
    requires Reachable(Duo(r, Author, []), 1, 1) && r.calls == [Call("a", 0, false, Opened)]
    ensures Reachable(Duo(r', Author, []), 1, 1) && "a" in r'.expecting && r'.calls == [Call("a", 0, false, Pulling)]
    ensures r'.handler == r.handler && r'.pending == r.pending && r'.slots == r.slots
  {
    r' := CallAllow(r, 0);
    DuoStep(r, Author, [], SyncAllows(0, 0), r', Author, []);
  }

  lemma CallAsks(r: Node, r': Node)
    requires Reachable(Duo(r, Author, []), 1, 1) && r.calls == [Call("a", 0, false, Pulling)]
    requires r' == r.(calls := [Call("a", 0, false, Waiting)])
    ensures Reachable(Duo(r', Author, [Pull(0, 1, "a")]), 1, 1)
  {
    assert Move(r, 0, Waiting) == r'.calls;
    assert Pulls(0, [1], "a") == [Pull(0, 1, "a")];
    assert [] + [Pull(0, 1, "a")] == [Pull(0, 1, "a")];
    DuoStep(r, Author, [], SyncPulls(0, 0, [1]), r', Author, [Pull(0, 1, "a")]);
  }

  /** The answer arrives and fills the slot that the call waits for. */
  lemma SlotIsFilled(r: Node) returns (r': Node)
    requires Reachable(Duo(r, Author, [Sync(1, 0, "a", [1])]), 1, 1) && r.handler == Idle && "a" in r.expecting
    requires r.pending == map["a" := 0] && r.slots == [Slot("a", None)]
    ensures Reachable(Duo(r', Author, []), 1, 1) && r'.calls == r.calls && r'.slots == [Slot("a", Some([1]))]
  {
    var r1 := r.(handler := SyncArrived("a", [1]));
    DuoStep(r, Author, [Sync(1, 0, "a", [1])], Receive(0), r1, Author, []);
    var r2 := ArrivedPasses(r1, "a", [1]);
    r' := SyncerFills(r2, "a", [1]);
  }

  lemma SyncerFills(r: Node, id: Id, content: Content) returns (r': Node)
    requires Reachable(Duo(r, Author, []), 1, 1) && r.handler == SyncerPassed(id, content)
    requires r.pending == map[id := 0] && r.slots == [Slot(id, None)]
    ensures Reachable(Duo(r', Author, []), 1, 1) && r'.calls == r.calls && r'.slots == [Slot(id, Some(content))]
  {
    r' := Next(r);
    DuoSection(r, []);
  }

  /** A run in which a Sync call returns what the author put in. */
  lemma SyncCanReturnContent() returns (w: World)
    ensures Reachable(w, 1, 1) && |w.nodes| == 2 && ("a", [1]) in w.nodes[0].returned
  {
    var r := ReaderSyncs();
    AuthorAnswers(r);
    var r1 := SlotIsFilled(r);
    var r2 := CallReturn(r1, 0, true);
    DuoStep(r1, Author, [], SyncReturns(0, 0, true), r2, Author, []);
    w := Duo(r2, Author, []);
  }
}
