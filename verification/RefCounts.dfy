/**
  Shared channels and who keeps them: links, outgoing sends and accepted connections.

  The state is that of one remote peer; the transport treats remotes independently. A task is
  a goroutine that dials or serves a connection: it may hold a binding of its own, or rely on
  a link that it saw when it started.
 */
module RefCounts {
  import opened Wrappers

  type Pos = n: nat | n > 0 witness 1

  /** The entry of a remote in the map of shared channels; channels are numbered as they are made. */
  datatype Shared = Shared(chan: nat, rc: Pos)

  /** A goroutine that linked or unlinked keeps the lock of the links while it binds or unbinds. */
  datatype Lock = Free | Linking | Unlinking

  /**
    A task that holds a binding of its own has bound `chan`; one that holds none saw a link
    when `seen` links had been removed.
   */
  datatype Task = Task(holds: bool, chan: nat, seen: nat, connected: bool, over: bool)

  /** A call of Send: the channel that was there when it chose its branch, and the one it looks up. */
  datatype Send = Send(chan: Option<nat>, looked: bool, found: Option<nat>)

  /**
    `next` numbers the channels of all remotes, `made` are those of this one. `unlinks` counts
    the links removed so far, `errored` holds the channels that a receiver failed on.
   */
  datatype State = State(
    linked: bool,
    lock: Lock,
    unlinks: nat,
    shared: Option<Shared>,
    next: nat,
    made: set<nat>,
    cancelled: set<nat>,
    errored: set<nat>,
    conns: nat,
    tasks: seq<Task>,
    sends: seq<Send>)

  const Init: State := State(false, Free, 0, None, 0, {}, {}, {}, 0, [], [])

  // ----- sections

  /** A new channel gets the number `next`. */
  function Bind(shared: Option<Shared>, next: nat): Option<Shared> {
    if shared.Some? then Some(shared.value.(rc := shared.value.rc + 1)) else Some(Shared(next, 1))
  }

  function Unbind(shared: Option<Shared>): Option<Shared> {
    if shared.None? || shared.value.rc == 1 then None
    else Some(shared.value.(rc := shared.value.rc - 1))
  }

  /** The channel that is cancelled because its last holder unbinds it. */
  function Released(shared: Option<Shared>): set<nat> {
    if shared.Some? && shared.value.rc == 1 then {shared.value.chan} else {}
  }

  /** The channel that Attach, Send and a failing receiver find in the map. */
  function Found(shared: Option<Shared>): Option<nat> {
    if shared.Some? then Some(shared.value.chan) else None
  }

  function Disconnect(conns: nat): nat {
    if conns > 0 then conns - 1 else 0
  }

  datatype Step =
    | Link
    | LinkEnds
    | Unlink
    | UnlinkEnds
    | AcceptUnlinked       // an accepted connection that binds
    | AcceptLinked         // an accepted connection that sees the link
    | SendUnlinked         // a send that binds, and the goroutine that dials for it
    | SendLinked           // a send that sees the link, and the goroutine that dials for it
    | SendConnected        // a send that sees a connection
    | Looks(i: nat)        // a send looks its channel up
    | Connects(t: nat)
    | Disconnects(t: nat)
    | Finishes(t: nat)
    | ReceiverFails
    | Elsewhere            // a channel is made for another remote

  predicate Active(s: State, t: nat) {
    t < |s.tasks| && !s.tasks[t].over
  }

  predicate Enabled(s: State, e: Step) {
    match e
    case Link => s.lock == Free
    case LinkEnds => s.lock == Linking
    case Unlink => s.lock == Free
    case UnlinkEnds => s.lock == Unlinking
    case AcceptUnlinked => true
    case AcceptLinked => s.lock == Free && s.linked
    case SendUnlinked => true
    case SendLinked => s.lock == Free && s.linked
    case SendConnected => s.conns > 0
    case Looks(i) => i < |s.sends| && !s.sends[i].looked
    case Connects(t) => Active(s, t) && !s.tasks[t].connected
    case Disconnects(t) => Active(s, t) && s.tasks[t].connected
    case Finishes(t) => Active(s, t) && !s.tasks[t].connected
    case ReceiverFails => true
    case Elsewhere => true
  }

  function Bound(s: State): State {
    if s.shared.Some? then s.(shared := Bind(s.shared, s.next))
    else s.(shared := Bind(s.shared, s.next), next := s.next + 1, made := s.made + {s.next})
  }

  function Unbound(s: State): State {
    s.(shared := Unbind(s.shared), cancelled := s.cancelled + Released(s.shared))
  }

  function Holder(s: State): Task
    requires s.shared.Some?
  {
    Task(true, s.shared.value.chan, 0, false, false)
  }

  function UnderLink(s: State): Task {
    Task(false, 0, s.unlinks, false, false)
  }

  function Sending(s: State): seq<Send> {
    s.sends + [Send(Found(s.shared), false, None)]
  }

  function Apply(s: State, e: Step): State
    requires Enabled(s, e)
  {
    match e
    case Link => if s.linked then s else Bound(s).(lock := Linking)
    case LinkEnds => s.(linked := true, lock := Free)
    case Unlink => if s.linked then Unbound(s).(lock := Unlinking, unlinks := s.unlinks + 1) else s
    case UnlinkEnds => s.(linked := false, lock := Free)
    case AcceptUnlinked => Bound(s).(tasks := s.tasks + [Holder(Bound(s))])
    case AcceptLinked => s.(tasks := s.tasks + [UnderLink(s)])
    case SendUnlinked => Bound(s).(tasks := s.tasks + [Holder(Bound(s))], sends := Sending(Bound(s)))
    case SendLinked => s.(tasks := s.tasks + [UnderLink(s)], sends := Sending(s))
    case SendConnected => s.(sends := Sending(s))
    case Looks(i) => s.(sends := s.sends[i := s.sends[i].(looked := true, found := Found(s.shared))])
    case Connects(t) => s.(conns := s.conns + 1, tasks := s.tasks[t := s.tasks[t].(connected := true)])
    case Disconnects(t) => s.(conns := Disconnect(s.conns), tasks := s.tasks[t := s.tasks[t].(connected := false)])
    case Finishes(t) =>
      (if s.tasks[t].holds then Unbound(s) else s).(tasks := s.tasks[t := s.tasks[t].(over := true)])
    case ReceiverFails =>
      if s.shared.Some?
      then s.(cancelled := s.cancelled + {s.shared.value.chan}, errored := s.errored + {s.shared.value.chan})
      else s
    case Elsewhere => s.(next := s.next + 1)
  }

  function RunFrom(s: State, steps: seq<Step>): Option<State> {
    if steps == [] then Some(s)
    else
      match RunFrom(s, steps[..|steps| - 1])
      case None => None
      case Some(t) => if Enabled(t, steps[|steps| - 1]) then Some(Apply(t, steps[|steps| - 1])) else None
  }

  function Run(steps: seq<Step>): Option<State> {
    RunFrom(Init, steps)
  }

  lemma {:induction false} RunConcat(s: State, a: seq<Step>, b: seq<Step>)
    ensures RunFrom(s, a + b) == match RunFrom(s, a) case None => None case Some(t) => RunFrom(t, b)
    decreases b
  {
    if b == [] {
      assert a + b == a;
    } else {
      var last := b[|b| - 1];
      assert (a + b)[..|a + b| - 1] == a + b[..|b| - 1] && (a + b)[|a + b| - 1] == last;
      RunConcat(s, a, b[..|b| - 1]);
    }
  }

  // ----- counting tasks

  function Count(tasks: seq<Task>, p: Task -> bool): nat {
    if tasks == [] then 0 else Count(tasks[1..], p) + if p(tasks[0]) then 1 else 0
  }

  lemma {:induction false} CountUpdate(tasks: seq<Task>, t: nat, x: Task, p: Task -> bool)
    requires t < |tasks|
    ensures Count(tasks[t := x], p) == Count(tasks, p) + (if p(x) then 1 else 0) - (if p(tasks[t]) then 1 else 0)
  {
    var tasks' := tasks[t := x];
    if t == 0 {
      assert tasks'[1..] == tasks[1..];
    } else {
      assert tasks'[1..] == tasks[1..][t - 1 := x];
      CountUpdate(tasks[1..], t - 1, x, p);
    }
  }

  lemma {:induction false} CountAppend(tasks: seq<Task>, x: Task, p: Task -> bool)
    ensures Count(tasks + [x], p) == Count(tasks, p) + if p(x) then 1 else 0
  {
    if tasks == [] {
      assert tasks + [x] == [x];
    } else {
      assert (tasks + [x])[1..] == tasks[1..] + [x];
      CountAppend(tasks[1..], x, p);
    }
  }

  lemma {:induction false} CountPositive(tasks: seq<Task>, p: Task -> bool)
    ensures Count(tasks, p) > 0 <==> exists t :: 0 <= t < |tasks| && p(tasks[t])
  {
    if tasks != [] {
      CountPositive(tasks[1..], p);
      assert forall t :: 1 <= t < |tasks| ==> tasks[t] == tasks[1..][t - 1];
      if t :| 0 <= t < |tasks[1..]| && p(tasks[1..][t]) {
        assert p(tasks[t + 1]);
      }
    }
  }

  const IsHolder: Task -> bool := (t: Task) => t.holds && !t.over
  const IsConnected: Task -> bool := (t: Task) => t.connected && !t.over

  /** The link is bound: from the start of linking to the start of unlinking. */
  predicate LinkHolds(s: State) {
    s.lock == Linking || (s.linked && s.lock == Free)
  }

  /** The link, if any, and the tasks that hold a binding of their own. */
  function Holders(s: State): nat {
    (if LinkHolds(s) then 1 else 0) + Count(s.tasks, IsHolder)
  }

  ghost predicate CountInv(s: State) {
    && (if s.shared.Some? then s.shared.value.rc else 0) == Holders(s)
    && s.conns == Count(s.tasks, IsConnected)
    && (s.lock == Linking ==> !s.linked)
  }

  /** Channels that were made and are not, or no longer, in use are cancelled; in use, only an error does it. */
  ghost predicate CancelInv(s: State) {
    && (s.shared.Some? ==> s.shared.value.chan in s.made)
    && (forall k :: k in s.made ==> k < s.next)
    && s.errored <= s.made
    && (forall k :: k in s.cancelled <==> k in s.errored || (k in s.made && Found(s.shared) != Some(k)))
  }

  ghost predicate TasksInv(s: State) {
    && (forall t :: 0 <= t < |s.tasks| && IsHolder(s.tasks[t]) ==> Found(s.shared) == Some(s.tasks[t].chan))
    && (forall t :: 0 <= t < |s.tasks| && !s.tasks[t].holds ==>
          s.tasks[t].seen <= s.unlinks && (!LinkHolds(s) ==> s.tasks[t].seen < s.unlinks))
  }

  ghost predicate Inv(s: State) {
    CountInv(s) && CancelInv(s) && TasksInv(s)
  }

  function One(b: bool): nat {
    if b then 1 else 0
  }

  lemma TaskMoves(s: State, t: nat, task: Task)
    requires t < |s.tasks|
    ensures var former, tasks := s.tasks[t], s.tasks[t := task];
            && Count(tasks, IsHolder) + One(IsHolder(former)) == Count(s.tasks, IsHolder) + One(IsHolder(task))
            && Count(tasks, IsConnected) + One(IsConnected(former)) ==
               Count(s.tasks, IsConnected) + One(IsConnected(task))
  {
    CountUpdate(s.tasks, t, task, IsHolder);
    CountUpdate(s.tasks, t, task, IsConnected);
  }

  lemma TaskStarts(s: State, task: Task)
    ensures Count(s.tasks + [task], IsHolder) == Count(s.tasks, IsHolder) + if IsHolder(task) then 1 else 0
    ensures Count(s.tasks + [task], IsConnected) == Count(s.tasks, IsConnected) + if IsConnected(task) then 1 else 0
  {
    CountAppend(s.tasks, task, IsHolder);
    CountAppend(s.tasks, task, IsConnected);
  }

  lemma CountStep(s: State, e: Step)
    requires Inv(s) && Enabled(s, e)
    ensures CountInv(Apply(s, e))
  {
    match e
    case AcceptUnlinked => TaskStarts(s, Holder(Bound(s)));
    case AcceptLinked => TaskStarts(s, UnderLink(s));
    case SendUnlinked => TaskStarts(s, Holder(Bound(s)));
    case SendLinked => TaskStarts(s, UnderLink(s));
    case Connects(t) => TaskMoves(s, t, s.tasks[t].(connected := true));
    case Disconnects(t) => TaskMoves(s, t, s.tasks[t].(connected := false));
    case Finishes(t) => TaskMoves(s, t, s.tasks[t].(over := true));
    case _ =>
  }

  lemma CancelStep(s: State, e: Step)
    requires Inv(s) && Enabled(s, e)
    ensures CancelInv(Apply(s, e))
  {
  }

  /** A holder that is still there when another one leaves keeps the channel in the map. */
  lemma OtherHolderKeeps(tasks: seq<Task>, t: nat)
    requires t < |tasks| && IsHolder(tasks[t])
    ensures Count(tasks, IsHolder) > 0
  {
    CountPositive(tasks, IsHolder);
  }

  lemma TasksStep(s: State, e: Step)
    requires Inv(s) && Enabled(s, e)
    ensures TasksInv(Apply(s, e))
  {
    CountStep(s, e);
    var s' := Apply(s, e);
    forall t | 0 <= t < |s'.tasks| && IsHolder(s'.tasks[t])
      ensures Found(s'.shared) == Some(s'.tasks[t].chan)
    {
      OtherHolderKeeps(s'.tasks, t);
      if t < |s.tasks| {
        assert IsHolder(s.tasks[t]);
      }
    }
  }

  lemma {:induction false} InvAlongRun(steps: seq<Step>)
    requires Run(steps).Some?
    ensures Inv(Run(steps).value)
  {
    if steps != [] {
      InvAlongRun(steps[..|steps| - 1]);
      var s, e := Run(steps[..|steps| - 1]).value, steps[|steps| - 1];
      CountStep(s, e);
      CancelStep(s, e);
      TasksStep(s, e);
    }
  }

  /**
    In every interleaving the count of a channel is its holders, a channel is in the map
    exactly while it has any, and of all channels ever made precisely those are cancelled
    that have lost their last holder or that a receiver failed on.
   */
  lemma ChannelLivesWhileHeld(steps: seq<Step>)
    requires Run(steps).Some?
    ensures var s := Run(steps).value;
            && (s.shared.Some? <==> Holders(s) > 0)
            && (s.shared.Some? ==> s.shared.value.rc == Holders(s))
            && (forall k :: k in s.cancelled <==> k in s.errored || (k in s.made && Found(s.shared) != Some(k)))
            && s.conns == Count(s.tasks, IsConnected)
  {
    InvAlongRun(steps);
  }

  /** While a task holds a binding, the channel found for its remote is the one that it bound. */
  lemma HolderFindsItsChannel(steps: seq<Step>, t: nat)
    requires Run(steps).Some? && Active(Run(steps).value, t) && Run(steps).value.tasks[t].holds
    ensures var s := Run(steps).value;
            var k := s.tasks[t].chan;
            Found(s.shared) == Some(k) && (k in s.cancelled <==> k in s.errored)
  {
    InvAlongRun(steps);
    assert IsHolder(Run(steps).value.tasks[t]);
  }

  /**
    A remote that is connected but has no channel is served by a task that started under a
    link, and that link has been removed since.
   */
  lemma ConnectedButUnboundFollowsUnlink(steps: seq<Step>)
    requires Run(steps).Some? && Run(steps).value.conns > 0 && Run(steps).value.shared.None?
    ensures var s := Run(steps).value;
            && (!s.linked || s.lock == Unlinking)
            && exists t :: 0 <= t < |s.tasks| && IsConnected(s.tasks[t])
                           && !s.tasks[t].holds && s.tasks[t].seen < s.unlinks
  {
    InvAlongRun(steps);
    var s := Run(steps).value;
    CountPositive(s.tasks, IsConnected);
    CountPositive(s.tasks, IsHolder);
    var t :| 0 <= t < |s.tasks| && IsConnected(s.tasks[t]);
    assert !IsHolder(s.tasks[t]);
  }

  // ----- what a send finds

  /** The state after `j` steps of a run. */
  function StateAt(steps: seq<Step>, j: nat): State
    requires j <= |steps|
  {
    if Run(steps[..j]).Some? then Run(steps[..j]).value else Init
  }

  lemma {:induction false} PrefixRuns(steps: seq<Step>, j: nat)
    requires Run(steps).Some? && j <= |steps|
    ensures Run(steps[..j]) == Some(StateAt(steps, j))
    decreases |steps|
  {
    if j == |steps| {
      assert steps[..j] == steps;
    } else {
      var init := steps[..|steps| - 1];
      assert init[..j] == steps[..j];
      PrefixRuns(init, j);
    }
  }

  /** One step of a run, as a step between two of its states. */
  lemma StateAfter(steps: seq<Step>, j: nat)
    requires Run(steps).Some? && j < |steps|
    ensures Enabled(StateAt(steps, j), steps[j]) && StateAt(steps, j + 1) == Apply(StateAt(steps, j), steps[j])
  {
    PrefixRuns(steps, j);
    PrefixRuns(steps, j + 1);
    assert steps[..j + 1][..j] == steps[..j];
  }

  lemma InvAt(steps: seq<Step>, j: nat)
    requires Run(steps).Some? && j <= |steps|
    ensures Inv(StateAt(steps, j))
  {
    PrefixRuns(steps, j);
    InvAlongRun(steps[..j]);
  }

  /** A channel stays in the map while the map has one, and once it has left it never comes back. */
  lemma FoundStep(s: State, e: Step, k: nat)
    requires Inv(s) && Enabled(s, e) && k < s.next
    ensures k < Apply(s, e).next
    ensures Found(Apply(s, e).shared) == Some(k) <==> Found(s.shared) == Some(k) && Apply(s, e).shared.Some?
  {
  }

  /** There is a holder in every state from the `i`th to the `j`th. */
  ghost predicate HeldThroughout(steps: seq<Step>, i: nat, j: nat)
    requires i <= j <= |steps|
  {
    forall l :: i <= l <= j ==> Holders(StateAt(steps, l)) > 0
  }

  /**
    A channel that is found after `i` steps is still the one found after `j` steps if and only
    if there was a holder all the time in between.
   */
  lemma {:induction false} FoundIffHeldThroughout(steps: seq<Step>, i: nat, j: nat, k: nat)
    requires Run(steps).Some? && i <= j <= |steps| && Found(StateAt(steps, i).shared) == Some(k)
    ensures k < StateAt(steps, j).next
    ensures Found(StateAt(steps, j).shared) == Some(k) <==> HeldThroughout(steps, i, j)
    decreases j - i
  {
    MappedIffHeld(steps, j);
    if i == j {
      HeldNow(steps, i);
    } else {
      FoundIffHeldThroughout(steps, i, j - 1, k);
      FoundAfter(steps, j - 1, k);
      HeldOneMore(steps, i, j);
    }
  }

  lemma HeldNow(steps: seq<Step>, i: nat)
    requires i <= |steps|
    ensures HeldThroughout(steps, i, i) <==> Holders(StateAt(steps, i)) > 0
  {
  }

  lemma MappedIffHeld(steps: seq<Step>, j: nat)
    requires Run(steps).Some? && j <= |steps|
    ensures var s := StateAt(steps, j);
            && (s.shared.Some? <==> Holders(s) > 0)
            && (s.shared.Some? ==> s.shared.value.chan < s.next)
  {
    InvAt(steps, j);
  }

  lemma FoundAfter(steps: seq<Step>, j: nat, k: nat)
    requires Run(steps).Some? && j < |steps| && k < StateAt(steps, j).next
    ensures var s, s' := StateAt(steps, j), StateAt(steps, j + 1);
            k < s'.next && (Found(s'.shared) == Some(k) <==> Found(s.shared) == Some(k) && s'.shared.Some?)
  {
    InvAt(steps, j);
    StateAfter(steps, j);
    FoundStep(StateAt(steps, j), steps[j], k);
  }

  lemma HeldOneMore(steps: seq<Step>, i: nat, j: nat)
    requires i < j <= |steps|
    ensures HeldThroughout(steps, i, j) <==> HeldThroughout(steps, i, j - 1) && Holders(StateAt(steps, j)) > 0
  {
  }

  predicate StartsSend(e: Step) {
    e.SendUnlinked? || e.SendLinked? || e.SendConnected?
  }

  lemma {:induction false} SendKeepsItsChannel(steps: seq<Step>, i: nat, j: nat, m: nat)
    requires Run(steps).Some? && i <= j <= |steps| && m < |StateAt(steps, i).sends|
    ensures m < |StateAt(steps, j).sends| && StateAt(steps, j).sends[m].chan == StateAt(steps, i).sends[m].chan
    decreases j - i
  {
    if i < j {
      SendKeepsItsChannel(steps, i, j - 1, m);
      StateAfter(steps, j - 1);
      SendStep(StateAt(steps, j - 1), steps[j - 1], m);
    }
  }

  lemma SendStep(s: State, e: Step, m: nat)
    requires Enabled(s, e) && m < |s.sends|
    ensures m < |Apply(s, e).sends| && Apply(s, e).sends[m].chan == s.sends[m].chan
  {
  }

  /**
    Send number `m` chose its branch in step `i` and looks its channel up in step `j`. If it
    bound the channel or saw the link there is one to begin with, and the lookup finds it if
    and only if the channel had a holder all the time in between.
   */
  lemma SendFindsItsChannelIff(steps: seq<Step>, i: nat, j: nat, m: nat)
    requires Run(steps).Some? && i < j < |steps| && StartsSend(steps[i]) && steps[j] == Looks(m)
    requires m == |StateAt(steps, i).sends|
    ensures m < |StateAt(steps, j + 1).sends|
    ensures var send := StateAt(steps, j + 1).sends[m];
            && send.looked
            && (steps[i].SendUnlinked? || steps[i].SendLinked? ==> send.chan.Some?)
            && (send.chan.Some? ==> (send.found == send.chan <==> HeldThroughout(steps, i + 1, j)))
  {
    InvAt(steps, i);
    StateAfter(steps, i);
    StateAfter(steps, j);
    SendKeepsItsChannel(steps, i + 1, j, m);
    var chan := StateAt(steps, i + 1).sends[m].chan;
    if chan.Some? {
      FoundIffHeldThroughout(steps, i + 1, j, chan.value);
    }
  }

  /**
    An unlinked send binds, hands the binding to the goroutine that dials, and only then looks
    the channel up: a dial that returns at once leaves the lookup with nothing.
   */
  lemma SendCanMissItsChannel() returns (steps: seq<Step>)
    ensures |steps| == 3 && steps[0] == SendUnlinked && steps[2] == Looks(0)
    ensures Run(steps).Some? && Run(steps).value.sends == [Send(Some(0), true, None)]
  {
    var s1 := Apply(Init, SendUnlinked);
    var s2 := Apply(s1, Finishes(0));
    steps := [SendUnlinked, Finishes(0), Looks(0)];
    assert steps[..2][..1][..0] == [] && Run(steps[..2][..1][..0]) == Some(Init);
    assert Run(steps[..2][..1]) == Some(s1);
    assert Run(steps[..2]) == Some(s2);
  }
}
