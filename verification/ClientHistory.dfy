/**
  Whole histories of a transport: links, sends, accepted connections and the goroutines that
  serve or dial, for any remotes and in any order.
 */
module ClientHistory {
  import opened Wrappers
  import opened Identity
  import opened Client
  import R = RefCounts

  /** A goroutine that serves an accepted connection or dials for a send. */
  datatype Worker = Worker(holds: bool, connected: bool, over: bool)

  /** The maps of the transport and, for each remote, its goroutines and its sends by number. */
  datatype Ledger = Ledger(book: Book, workers: map<Signatory, seq<Worker>>, sends: map<Signatory, seq<R.Send>>)

  function WorkersOf(l: Ledger, r: Signatory): seq<Worker> {
    if r in l.workers then l.workers[r] else []
  }

  function SendsOf(l: Ledger, r: Signatory): seq<R.Send> {
    if r in l.sends then l.sends[r] else []
  }

  /** `Look` is the lookup of send number `i`; the last three are by worker number `t`. */
  datatype Op =
    | Link(remote: Signatory)
    | Unlink(remote: Signatory)
    | Accept(remote: Signatory)
    | Send(remote: Signatory)
    | Look(remote: Signatory, i: nat)
    | Connect(remote: Signatory, t: nat)
    | Disconnect(remote: Signatory, t: nat)
    | End(remote: Signatory, t: nat)
    | Kill(remote: Signatory)

  predicate Working(l: Ledger, r: Signatory, t: nat, connected: bool) {
    t < |WorkersOf(l, r)| && !WorkersOf(l, r)[t].over && WorkersOf(l, r)[t].connected == connected
  }

  predicate Allowed(l: Ledger, op: Op) {
    match op
    case Look(r, i) => i < |SendsOf(l, r)| && !SendsOf(l, r)[i].looked
    case Connect(r, t) => Working(l, r, t, false)
    case Disconnect(r, t) => Working(l, r, t, true)
    case End(r, t) => Working(l, r, t, false)
    case _ => true
  }

  function WithWorkers(l: Ledger, r: Signatory, workers: seq<Worker>): Ledger {
    l.(workers := l.workers[r := workers])
  }

  function Accepted(l: Ledger, r: Signatory): Ledger {
    var holds := r !in l.book.links;
    WithWorkers(l, r, WorkersOf(l, r) + [Worker(holds, false, false)])
      .(book := if holds then Bound(l.book, r) else l.book)
  }

  function Sending(l: Ledger, r: Signatory): Ledger {
    var e, b := SendStep(l.book, r), Sent(l.book, r);
    var dialing := if e.SendConnected? then [] else [Worker(e.SendUnlinked?, false, false)];
    WithWorkers(l, r, WorkersOf(l, r) + dialing)
      .(book := b, sends := l.sends[r := SendsOf(l, r) + [R.Send(R.Found(SharedOf(b.shared, r)), false, None)]])
  }

  function Done(l: Ledger, op: Op): Ledger
    requires Allowed(l, op)
  {
    var r, b, workers := op.remote, l.book, WorkersOf(l, op.remote);
    match op
    case Link(_) => l.(book := Linked(b, r))
    case Unlink(_) => l.(book := Unlinked(b, r))
    case Accept(_) => Accepted(l, r)
    case Send(_) => Sending(l, r)
    case Look(_, i) =>
      var send := SendsOf(l, r)[i].(looked := true, found := R.Found(SharedOf(b.shared, r)));
      l.(sends := l.sends[r := SendsOf(l, r)[i := send]])
    case Connect(_, t) =>
      WithWorkers(l, r, workers[t := workers[t].(connected := true)]).(book := Connected(b, r))
    case Disconnect(_, t) =>
      WithWorkers(l, r, workers[t := workers[t].(connected := false)]).(book := Disconnected(b, r))
    case End(_, t) =>
      WithWorkers(l, r, workers[t := workers[t].(over := true)])
        .(book := if workers[t].holds then Unbound(b, r) else b)
    case Kill(_) => l.(book := Killed(b, r))
  }

  /** The ledger after a history, or `None` when some operation is not possible. */
  function After(ops: seq<Op>): Option<Ledger> {
    if ops == [] then Some(Ledger(Blank, map[], map[]))
    else
      match After(ops[..|ops| - 1])
      case None => None
      case Some(l) => if Allowed(l, ops[|ops| - 1]) then Some(Done(l, ops[|ops| - 1])) else None
  }

  // ----- every remote sees a run of its own machine

  ghost predicate SameTasks(workers: seq<Worker>, tasks: seq<R.Task>) {
    && |workers| == |tasks|
    && forall t :: 0 <= t < |workers| ==> workers[t] == Worker(tasks[t].holds, tasks[t].connected, tasks[t].over)
  }

  ghost predicate ShowsAll(l: Ledger, r: Signatory, s: R.State) {
    Shows(l.book, r, s) && SameTasks(WorkersOf(l, r), s.tasks) && SendsOf(l, r) == s.sends
  }

  /** The step that an operation is for the remote that it concerns; links take a second one. */
  function StepOf(l: Ledger, op: Op): R.Step {
    match op
    case Link(_) => R.Link
    case Unlink(_) => R.Unlink
    case Accept(r) => if r in l.book.links then R.AcceptLinked else R.AcceptUnlinked
    case Send(r) => SendStep(l.book, r)
    case Look(_, i) => R.Looks(i)
    case Connect(_, t) => R.Connects(t)
    case Disconnect(_, t) => R.Disconnects(t)
    case End(_, t) => R.Finishes(t)
    case Kill(_) => R.ReceiverFails
  }

  /** The operation binds a channel. */
  predicate Binds(l: Ledger, op: Op) {
    || ((op.Link? || op.Accept?) && op.remote !in l.book.links)
    || (op.Send? && SendStep(l.book, op.remote).SendUnlinked?)
  }

  /** For the other remotes an operation makes a channel elsewhere, or nothing. */
  lemma OpElsewhere(l: Ledger, op: Op, r: Signatory, s: R.State) returns (steps: seq<R.Step>, s': R.State)
    requires Valid(l.book) && Allowed(l, op) && ShowsAll(l, r, s) && r != op.remote
    ensures R.RunFrom(s, steps) == Some(s') && ShowsAll(Done(l, op), r, s') && s'.errored == s.errored
  {
    var b, remote := l.book, op.remote;
    if Binds(l, op) {
      s' := BindElsewhere(b, remote, r, s);
      steps := BindSteps(b, remote);
      assert s'.tasks == s.tasks && s'.sends == s.sends;
    } else {
      steps, s' := [], s;
      UnbindElsewhere(b, remote, r, s);
      if op.Kill? {
        KillElsewhere(b, remote, r, s);
      }
    }
  }

  /** A task that starts in the machine starts in the ledger. */
  lemma StartsAlike(workers: seq<Worker>, tasks: seq<R.Task>, task: R.Task)
    requires SameTasks(workers, tasks) && !task.connected && !task.over
    ensures SameTasks(workers + [Worker(task.holds, false, false)], tasks + [task])
  {
  }

  lemma AcceptHere(l: Ledger, r: Signatory, s: R.State) returns (s': R.State)
    requires Valid(l.book) && ShowsAll(l, r, s)
    ensures var e := if r in l.book.links then R.AcceptLinked else R.AcceptUnlinked;
            R.Enabled(s, e) && s' == R.Apply(s, e) && ShowsAll(Accepted(l, r), r, s') && s'.errored == s.errored
  {
    s' := ServeStarts(l.book, r, s);
    var e := if r in l.book.links then R.AcceptLinked else R.AcceptUnlinked;
    RunOne(s, e);
    StartsAlike(WorkersOf(l, r), s.tasks, s'.tasks[|s.tasks|]);
  }

  lemma SendHere(l: Ledger, r: Signatory, s: R.State) returns (s': R.State)
    requires Valid(l.book) && ShowsAll(l, r, s)
    ensures R.Enabled(s, SendStep(l.book, r)) && s' == R.Apply(s, SendStep(l.book, r))
    ensures ShowsAll(Sending(l, r), r, s') && s'.errored == s.errored
  {
    var e := SendStep(l.book, r);
    s' := R.Apply(s, e);
    if e.SendUnlinked? {
      BindShown(l.book, r, s);
    }
    if !e.SendConnected? {
      StartsAlike(WorkersOf(l, r), s.tasks, s'.tasks[|s.tasks|]);
    }
  }

  lemma WorkHere(l: Ledger, op: Op, s: R.State) returns (s': R.State)
    requires Valid(l.book) && ShowsAll(l, op.remote, s) && Allowed(l, op)
    requires op.Connect? || op.Disconnect? || op.End?
    ensures R.Enabled(s, StepOf(l, op)) && s' == R.Apply(s, StepOf(l, op))
    ensures ShowsAll(Done(l, op), op.remote, s') && s'.errored == s.errored
  {
    var e := StepOf(l, op);
    s' := R.Apply(s, e);
    if op.End? {
      TaskEnds(l.book, op.remote, s, op.t);
    }
  }

  /** Linking and unlinking end with a second step, when they change anything. */
  lemma LinkHere(l: Ledger, op: Op, s: R.State) returns (steps: seq<R.Step>, s': R.State)
    requires Valid(l.book) && ShowsAll(l, op.remote, s) && (op.Link? || op.Unlink?)
    ensures R.RunFrom(s, steps) == Some(s') && ShowsAll(Done(l, op), op.remote, s') && s'.errored == s.errored
  {
    var b, r := l.book, op.remote;
    if op.Link? {
      s' := LinkIsARun(b, r, r, s);
      steps := LinkSteps(b, r, r);
    } else {
      s' := UnlinkIsARun(b, r, r, s);
      steps := UnlinkSteps(b, r, r);
    }
  }

  lemma KillHere(l: Ledger, r: Signatory, s: R.State) returns (s': R.State)
    requires Valid(l.book) && ShowsAll(l, r, s)
    ensures s' == R.Apply(s, R.ReceiverFails) && ShowsAll(Done(l, Kill(r)), r, s')
    ensures s'.errored == s.errored + Fails(l, Kill(r))
  {
    s' := KillIsARun(l.book, r, r, s);
    RunOne(s, R.ReceiverFails);
  }

  lemma LookHere(l: Ledger, r: Signatory, i: nat, s: R.State) returns (s': R.State)
    requires Allowed(l, Look(r, i)) && ShowsAll(l, r, s)
    ensures R.Enabled(s, R.Looks(i)) && s' == R.Apply(s, R.Looks(i)) && ShowsAll(Done(l, Look(r, i)), r, s')
    ensures s'.errored == s.errored
  {
    s' := R.Apply(s, R.Looks(i));
  }

  lemma OpHere(l: Ledger, op: Op, s: R.State) returns (steps: seq<R.Step>, s': R.State)
    requires Valid(l.book) && Allowed(l, op) && ShowsAll(l, op.remote, s)
    ensures R.RunFrom(s, steps) == Some(s') && ShowsAll(Done(l, op), op.remote, s')
    ensures s'.errored == s.errored + Fails(l, op)
  {
    if op.Link? || op.Unlink? {
      steps, s' := LinkHere(l, op, s);
    } else {
      s' := StepHere(l, op, s);
      steps := [StepOf(l, op)];
      RunOne(s, StepOf(l, op));
    }
  }

  lemma StepHere(l: Ledger, op: Op, s: R.State) returns (s': R.State)
    requires Valid(l.book) && Allowed(l, op) && ShowsAll(l, op.remote, s) && !op.Link? && !op.Unlink?
    ensures R.Enabled(s, StepOf(l, op)) && s' == R.Apply(s, StepOf(l, op))
    ensures ShowsAll(Done(l, op), op.remote, s') && s'.errored == s.errored + Fails(l, op)
  {
    match op
    case Accept(r) => s' := AcceptHere(l, r, s);
    case Send(r) => s' := SendHere(l, r, s);
    case Look(r, i) => s' := LookHere(l, r, i, s);
    case Kill(r) => s' := KillHere(l, r, s);
    case Connect(_, _) => s' := WorkHere(l, op, s);
    case Disconnect(_, _) => s' := WorkHere(l, op, s);
    case End(_, _) => s' := WorkHere(l, op, s);
  }

  /** The channel that a failing receiver cancels. */
  function Fails(l: Ledger, op: Op): set<nat> {
    if op.Kill? && op.remote in l.book.shared then {l.book.shared[op.remote].chan} else {}
  }

  /** The channels of `r` that a receiver has failed on. */
  function FailedOn(ops: seq<Op>, r: Signatory): set<nat>
    requires After(ops).Some?
  {
    if ops == [] then {}
    else
      var init, op := ops[..|ops| - 1], ops[|ops| - 1];
      FailedOn(init, r) + if op.remote == r then Fails(After(init).value, op) else {}
  }

  lemma DoneIsValid(l: Ledger, op: Op)
    requires Valid(l.book) && Allowed(l, op)
    ensures Valid(Done(l, op).book)
  {
    BoundIsValid(l.book, op.remote);
    UnboundIsValid(l.book, op.remote);
  }

  /**
    Whatever a transport has been through, for any remotes, each remote has seen a run of its
    own machine: everything that holds of those runs holds of the maps of the transport.
   */
  lemma {:induction false} EveryHistoryIsARun(ops: seq<Op>, r: Signatory) returns (steps: seq<R.Step>, s: R.State)
    requires After(ops).Some?
    ensures R.Run(steps) == Some(s) && Valid(After(ops).value.book) && ShowsAll(After(ops).value, r, s)
    ensures s.errored == FailedOn(ops, r)
  {
    if ops == [] {
      steps, s := [], R.Init;
    } else {
      var init, op := ops[..|ops| - 1], ops[|ops| - 1];
      var l := After(init).value;
      var before, t := EveryHistoryIsARun(init, r);
      var more: seq<R.Step>;
      DoneIsValid(l, op);
      if r == op.remote {
        more, s := OpHere(l, op, t);
      } else {
        more, s := OpElsewhere(l, op, r, t);
      }
      R.RunConcat(R.Init, before, more);
      steps := before + more;
    }
  }

  // ----- what that means for the maps

  function CountWorkers(workers: seq<Worker>, p: Worker -> bool): nat {
    if workers == [] then 0 else CountWorkers(workers[1..], p) + if p(workers[0]) then 1 else 0
  }

  const Holding: Worker -> bool := (w: Worker) => w.holds && !w.over
  const Connecting: Worker -> bool := (w: Worker) => w.connected && !w.over

  lemma {:induction false} SameCounts(workers: seq<Worker>, tasks: seq<R.Task>)
    requires SameTasks(workers, tasks)
    ensures CountWorkers(workers, Holding) == R.Count(tasks, R.IsHolder)
    ensures CountWorkers(workers, Connecting) == R.Count(tasks, R.IsConnected)
  {
    if workers != [] {
      SameCounts(workers[1..], tasks[1..]);
    }
  }

  /**
    After every history: a channel counts the link and the goroutines that hold it, it is in the
    map exactly while there are any, connections are counted exactly, and of the channels made
    for a remote those that no receiver failed on are cancelled exactly when they have left.
   */
  lemma HistoryCountsHolders(ops: seq<Op>, r: Signatory)
    requires After(ops).Some?
    ensures var b, workers := After(ops).value.book, WorkersOf(After(ops).value, r);
            var holders := (if r in b.links then 1 else 0) + CountWorkers(workers, Holding);
            && (if r in b.shared then b.shared[r].rc else 0) == holders
            && ConnsOf(b.conns, r) == CountWorkers(workers, Connecting)
            && (forall k :: k in Made(b.owners, r) ==>
                  (k in b.cancelled <==> k in FailedOn(ops, r) || R.Found(SharedOf(b.shared, r)) != Some(k)))
  {
    var steps, s := EveryHistoryIsARun(ops, r);
    R.ChannelLivesWhileHeld(steps);
    SameCounts(WorkersOf(After(ops).value, r), s.tasks);
    var b := After(ops).value.book;
    assert forall k :: k in Made(b.owners, r) ==> (k in b.cancelled <==> k in s.cancelled);
  }
}
