/** The client and the transport as code over their maps, one entry per remote peer. */
module Client {
  import opened Wrappers
  import opened Identity
  import R = RefCounts

  /**
    What a transport and its client keep. Channels are numbered in the order in which they are
    made, and `owners` lists the remotes that they were made for.
   */
  datatype Book = Book(
    links: set<Signatory>,
    shared: map<Signatory, R.Shared>,
    owners: seq<Signatory>,
    cancelled: set<nat>,
    conns: map<Signatory, nat>)

  const Blank: Book := Book({}, map[], [], {}, map[])

  function SharedOf(shared: map<Signatory, R.Shared>, remote: Signatory): Option<R.Shared> {
    if remote in shared then Some(shared[remote]) else None
  }

  function ConnsOf(conns: map<Signatory, nat>, remote: Signatory): nat {
    if remote in conns then conns[remote] else 0
  }

  /** The channels that were made for `remote`. */
  function Made(owners: seq<Signatory>, remote: Signatory): set<nat> {
    set k | 0 <= k < |owners| && owners[k] == remote
  }

  /** Channels in the map were made for their remote, and only channels that were made are cancelled. */
  ghost predicate Valid(b: Book) {
    && (forall r :: r in b.shared ==> b.shared[r].chan in Made(b.owners, r))
    && (forall k :: k in b.cancelled ==> k < |b.owners|)
  }

  // ----- what the locked sections do to the book

  function Bound(b: Book, remote: Signatory): Book {
    b.(shared := b.shared[remote := R.Bind(SharedOf(b.shared, remote), |b.owners|).value],
       owners := if remote in b.shared then b.owners else b.owners + [remote])
  }

  function Unbound(b: Book, remote: Signatory): Book {
    var shared := R.Unbind(SharedOf(b.shared, remote));
    b.(shared := if shared.Some? then b.shared[remote := shared.value] else b.shared - {remote},
       cancelled := b.cancelled + R.Released(SharedOf(b.shared, remote)))
  }

  function Linked(b: Book, remote: Signatory): Book {
    if remote in b.links then b else Bound(b, remote).(links := b.links + {remote})
  }

  function Unlinked(b: Book, remote: Signatory): Book {
    if remote in b.links then Unbound(b, remote).(links := b.links - {remote}) else b
  }

  function Connected(b: Book, remote: Signatory): Book {
    b.(conns := b.conns[remote := ConnsOf(b.conns, remote) + 1])
  }

  function Disconnected(b: Book, remote: Signatory): Book {
    var n := ConnsOf(b.conns, remote);
    b.(conns := if n == 0 then b.conns else if n == 1 then b.conns - {remote} else b.conns[remote := n - 1])
  }

  function Killed(b: Book, remote: Signatory): Book {
    b.(cancelled := b.cancelled + if remote in b.shared then {b.shared[remote].chan} else {})
  }

  /** A send to a remote with a known address. */
  function Sent(b: Book, remote: Signatory): Book {
    if ConnsOf(b.conns, remote) > 0 || remote in b.links then b else Bound(b, remote)
  }

  /** An accepted connection from its handshake to its end. */
  function Served(b: Book, remote: Signatory): Book {
    if remote in b.links then Disconnected(Connected(b, remote), remote)
    else Unbound(Disconnected(Connected(Bound(b, remote), remote), remote), remote)
  }

  // ----- the client and the transport as code

  class Client {
    var sharedChannels: map<Signatory, R.Shared>
    var owners: seq<Signatory>
    var cancelled: set<nat>

    constructor ()
      ensures sharedChannels == map[] && owners == [] && cancelled == {}
    {
      sharedChannels, owners, cancelled := map[], [], {};
    }

    ghost function View(): Book
      reads this
    {
      Book({}, sharedChannels, owners, cancelled, map[])
    }

    method Bind(remote: Signatory)
      modifies this
      ensures View() == Bound(old(View()), remote)
    {
      if remote in sharedChannels {
        var shared := sharedChannels[remote];
        sharedChannels := sharedChannels[remote := shared.(rc := shared.rc + 1)];
        return;
      }
      sharedChannels := sharedChannels[remote := R.Shared(|owners|, 1)];
      owners := owners + [remote];
    }

    /** Cancels and forgets the channel with its last holder. */
    method Unbind(remote: Signatory)
      modifies this
      ensures View() == Unbound(old(View()), remote)
    {
      if remote !in sharedChannels {
        return;
      }
      var shared := sharedChannels[remote];
      if shared.rc == 1 {
        cancelled := cancelled + {shared.chan};
        sharedChannels := sharedChannels - {remote};
        return;
      }
      sharedChannels := sharedChannels[remote := shared.(rc := shared.rc - 1)];
    }

    /** `None` stands for the panic of reading an entry that is not there. */
    method IsBound(remote: Signatory) returns (bound: Option<bool>)
      ensures bound == if remote in sharedChannels then Some(true) else None
    {
      if remote !in sharedChannels {
        return None;
      }
      return Some(sharedChannels[remote].rc > 0);
    }

    /** The lookup with which Attach and Send begin; without a channel they fail. */
    method Lookup(remote: Signatory) returns (chan: Option<nat>)
      ensures chan == R.Found(SharedOf(sharedChannels, remote))
    {
      if remote !in sharedChannels {
        return None;
      }
      return Some(sharedChannels[remote].chan);
    }

    /** What a failing receiver does: the channel stays in the map. */
    method Kill(remote: Signatory)
      modifies this
      ensures View() == Killed(old(View()), remote)
    {
      if remote in sharedChannels {
        cancelled := cancelled + {sharedChannels[remote].chan};
      }
    }
  }

  class Transport {
    const client: Client
    var links: set<Signatory>
    var conns: map<Signatory, nat>

    ghost function View(): Book
      reads this, client
    {
      client.View().(links := links, conns := conns)
    }

    constructor ()
      ensures fresh(client) && View() == Blank
    {
      client := new Client();
      links, conns := {}, map[];
    }

    /** Linking binds the channel once, however often it is asked for. */
    method Link(remote: Signatory)
      modifies this, client
      ensures View() == Linked(old(View()), remote)
    {
      if remote in links {
        return;
      }
      client.Bind(remote);
      links := links + {remote};
    }

    method Unlink(remote: Signatory)
      modifies this, client
      ensures View() == Unlinked(old(View()), remote)
    {
      if remote in links {
        client.Unbind(remote);
        links := links - {remote};
      }
    }

    method Connect(remote: Signatory)
      modifies this
      ensures View() == Connected(old(View()), remote)
    {
      conns := conns[remote := (if remote in conns then conns[remote] else 0) + 1];
    }

    /** Drops the entry with the last connection. */
    method Disconnect(remote: Signatory)
      modifies this
      ensures View() == Disconnected(old(View()), remote)
    {
      if remote in conns && conns[remote] > 0 {
        if conns[remote] == 1 {
          conns := conns - {remote};
        } else {
          conns := conns[remote := conns[remote] - 1];
        }
      }
    }

    /**
      A send up to its lookup, with the goroutine that dials still to come; `known` tells
      whether the table has an address. Nothing is bound when there is a connection or a link.
     */
    method Send(remote: Signatory, known: bool) returns (found: Option<nat>)
      modifies this, client
      ensures View() == if known then Sent(old(View()), remote) else old(View())
      ensures found == if known then R.Found(SharedOf(client.sharedChannels, remote)) else None
    {
      if !known {
        return None;
      }
      if !(remote in conns && conns[remote] > 0) && remote !in links {
        client.Bind(remote);
      }
      found := client.Lookup(remote);
    }

    /**
      The accept handler when nothing interrupts it. What it attaches to is the channel that a
      link or its own binding provides.
     */
    method Serve(remote: Signatory) returns (attached: Option<nat>)
      modifies this, client
      ensures View() == Served(old(View()), remote)
      ensures var b := if remote in old(links) then old(View()) else Bound(old(View()), remote);
              attached == R.Found(SharedOf(b.shared, remote))
    {
      var linked := remote in links;
      if !linked {
        client.Bind(remote);
      }
      Connect(remote);
      attached := client.Lookup(remote);
      Disconnect(remote);
      if !linked {
        client.Unbind(remote);
      }
    }
  }

  // ----- every remote sees a run of its own machine

  /** What the book holds about remote `r` is what `s` says, outside any link operation. */
  ghost predicate Shows(b: Book, r: Signatory, s: R.State) {
    && s.lock == R.Free && s.linked == (r in b.links)
    && s.shared == SharedOf(b.shared, r)
    && s.next == |b.owners| && s.made == Made(b.owners, r)
    && s.cancelled == b.cancelled * Made(b.owners, r)
    && s.conns == ConnsOf(b.conns, r)
  }

  /** The same for a client in the middle of a link operation. */
  ghost predicate ShowsBooked(b: Book, r: Signatory, s: R.State) {
    Shows(b, r, s.(lock := R.Free, linked := r in b.links))
  }

  lemma MadeAppend(owners: seq<Signatory>, remote: Signatory, r: Signatory)
    ensures Made(owners + [remote], r) == Made(owners, r) + if r == remote then {|owners|} else {}
  {
  }

  /** What one channel made for `remote` means to remote `r`. */
  function BindSteps(b: Book, remote: Signatory): seq<R.Step> {
    if remote in b.shared then [] else [R.Elsewhere]
  }

  lemma RunOne(s: R.State, e: R.Step)
    requires R.Enabled(s, e)
    ensures R.RunFrom(s, [e]) == Some(R.Apply(s, e))
  {
    assert [e][..0] == [];
    assert R.RunFrom(s, [e][..0]) == Some(s);
  }

  lemma RunThen(s: R.State, steps: seq<R.Step>, t: R.State, e: R.Step)
    requires R.RunFrom(s, steps) == Some(t) && R.Enabled(t, e)
    ensures R.RunFrom(s, steps + [e]) == Some(R.Apply(t, e))
  {
    assert (steps + [e])[..|steps|] == steps;
  }

  lemma BindShown(b: Book, remote: Signatory, s: R.State)
    requires Valid(b) && ShowsBooked(b, remote, s)
    ensures ShowsBooked(Bound(b, remote), remote, R.Bound(s))
  {
    MadeAppend(b.owners, remote, remote);
  }

  lemma BindElsewhere(b: Book, remote: Signatory, r: Signatory, s: R.State) returns (s': R.State)
    requires Shows(b, r, s) && r != remote
    ensures R.RunFrom(s, BindSteps(b, remote)) == Some(s') && Shows(Bound(b, remote), r, s')
    ensures s'.tasks == s.tasks && s'.sends == s.sends && s'.errored == s.errored
  {
    MadeAppend(b.owners, remote, r);
    if remote in b.shared {
      s' := s;
    } else {
      RunOne(s, R.Elsewhere);
      s' := R.Apply(s, R.Elsewhere);
    }
  }

  lemma UnbindShown(b: Book, remote: Signatory, s: R.State)
    requires Valid(b) && ShowsBooked(b, remote, s)
    ensures ShowsBooked(Unbound(b, remote), remote, R.Unbound(s))
  {
  }

  lemma UnbindElsewhere(b: Book, remote: Signatory, r: Signatory, s: R.State)
    requires Valid(b) && Shows(b, r, s) && r != remote
    ensures Shows(Unbound(b, remote), r, s)
  {
    var released := R.Released(SharedOf(b.shared, remote));
    assert released !! Made(b.owners, r);
    assert (b.cancelled + released) * Made(b.owners, r) == b.cancelled * Made(b.owners, r);
  }

  lemma BoundIsValid(b: Book, remote: Signatory)
    requires Valid(b)
    ensures Valid(Bound(b, remote))
  {
    var b' := Bound(b, remote);
    forall r | r in b'.shared
      ensures b'.shared[r].chan in Made(b'.owners, r)
    {
      MadeAppend(b.owners, remote, r);
    }
  }

  lemma UnboundIsValid(b: Book, remote: Signatory)
    requires Valid(b)
    ensures Valid(Unbound(b, remote))
  {
  }

  function LinkSteps(b: Book, remote: Signatory, r: Signatory): seq<R.Step> {
    if r == remote then if r in b.links then [R.Link] else [R.Link, R.LinkEnds]
    else if remote in b.links then [] else BindSteps(b, remote)
  }

  /** Link is, for every remote, a run of the machine of that remote. */
  lemma LinkIsARun(b: Book, remote: Signatory, r: Signatory, s: R.State) returns (s': R.State)
    requires Valid(b) && Shows(b, r, s)
    ensures Valid(Linked(b, remote))
    ensures R.RunFrom(s, LinkSteps(b, remote, r)) == Some(s') && Shows(Linked(b, remote), r, s')
    ensures s'.tasks == s.tasks && s'.sends == s.sends && s'.errored == s.errored
  {
    BoundIsValid(b, remote);
    if r != remote {
      s' := s;
      if remote !in b.links {
        s' := BindElsewhere(b, remote, r, s);
      }
    } else {
      RunOne(s, R.Link);
      s' := R.Apply(s, R.Link);
      if r !in b.links {
        BindShown(b, remote, s);
        RunThen(s, [R.Link], s', R.LinkEnds);
        assert [R.Link] + [R.LinkEnds] == LinkSteps(b, remote, r);
        s' := R.Apply(s', R.LinkEnds);
      }
    }
  }

  function UnlinkSteps(b: Book, remote: Signatory, r: Signatory): seq<R.Step> {
    if r != remote then [] else if r in b.links then [R.Unlink, R.UnlinkEnds] else [R.Unlink]
  }

  lemma UnlinkIsARun(b: Book, remote: Signatory, r: Signatory, s: R.State) returns (s': R.State)
    requires Valid(b) && Shows(b, r, s)
    ensures Valid(Unlinked(b, remote))
    ensures R.RunFrom(s, UnlinkSteps(b, remote, r)) == Some(s') && Shows(Unlinked(b, remote), r, s')
    ensures s'.tasks == s.tasks && s'.sends == s.sends && s'.errored == s.errored
  {
    UnboundIsValid(b, remote);
    if r != remote {
      s' := s;
      UnbindElsewhere(b, remote, r, s);
    } else {
      RunOne(s, R.Unlink);
      s' := R.Apply(s, R.Unlink);
      if r in b.links {
        UnbindShown(b, remote, s);
        RunThen(s, [R.Unlink], s', R.UnlinkEnds);
        assert [R.Unlink] + [R.UnlinkEnds] == UnlinkSteps(b, remote, r);
        s' := R.Apply(s', R.UnlinkEnds);
      }
    }
  }

  function OwnStep(remote: Signatory, r: Signatory, e: R.Step): seq<R.Step> {
    if r == remote then [e] else []
  }

  /** Connecting is the step of the task `t` that has the connection. */
  lemma ConnectIsARun(b: Book, remote: Signatory, r: Signatory, s: R.State, t: nat) returns (s': R.State)
    requires Valid(b) && Shows(b, r, s) && (r == remote ==> R.Enabled(s, R.Connects(t)))
    ensures Valid(Connected(b, remote))
    ensures R.RunFrom(s, OwnStep(remote, r, R.Connects(t))) == Some(s') && Shows(Connected(b, remote), r, s')
  {
    s' := s;
    if r == remote {
      RunOne(s, R.Connects(t));
      s' := R.Apply(s, R.Connects(t));
    }
  }

  lemma DisconnectIsARun(b: Book, remote: Signatory, r: Signatory, s: R.State, t: nat) returns (s': R.State)
    requires Valid(b) && Shows(b, r, s) && (r == remote ==> R.Enabled(s, R.Disconnects(t)))
    ensures Valid(Disconnected(b, remote))
    ensures R.RunFrom(s, OwnStep(remote, r, R.Disconnects(t))) == Some(s') && Shows(Disconnected(b, remote), r, s')
  {
    s' := s;
    if r == remote {
      RunOne(s, R.Disconnects(t));
      s' := R.Apply(s, R.Disconnects(t));
    }
  }

  lemma KillIsARun(b: Book, remote: Signatory, r: Signatory, s: R.State) returns (s': R.State)
    requires Valid(b) && Shows(b, r, s)
    ensures Valid(Killed(b, remote))
    ensures R.RunFrom(s, OwnStep(remote, r, R.ReceiverFails)) == Some(s') && Shows(Killed(b, remote), r, s')
  {
    s' := s;
    if r == remote {
      RunOne(s, R.ReceiverFails);
      s' := R.Apply(s, R.ReceiverFails);
    } else {
      KillElsewhere(b, remote, r, s);
    }
  }

  lemma KillElsewhere(b: Book, remote: Signatory, r: Signatory, s: R.State)
    requires Valid(b) && Shows(b, r, s) && r != remote
    ensures Shows(Killed(b, remote), r, s)
  {
    if remote in b.shared {
      assert b.shared[remote].chan !in Made(b.owners, r);
    }
  }

  /** The steps of an accept handler that nothing interrupts, whose task becomes number `t`. */
  function ServeSteps(b: Book, remote: Signatory, r: Signatory, t: nat): seq<R.Step> {
    if r == remote then
      [if r in b.links then R.AcceptLinked else R.AcceptUnlinked]
      + [R.Connects(t)] + [R.Disconnects(t)] + [R.Finishes(t)]
    else if remote in b.links then [] else BindSteps(b, remote)
  }

  lemma ServeElsewhere(b: Book, remote: Signatory, r: Signatory, s: R.State) returns (s': R.State)
    requires Valid(b) && Shows(b, r, s) && r != remote
    ensures R.RunFrom(s, ServeSteps(b, remote, r, |s.tasks|)) == Some(s') && Shows(Served(b, remote), r, s')
  {
    if remote in b.links {
      s' := s;
    } else {
      s' := BindElsewhere(b, remote, r, s);
      BoundIsValid(b, remote);
      UnbindElsewhere(Disconnected(Connected(Bound(b, remote), remote), remote), remote, r, s');
    }
  }

  lemma ServeStarts(b: Book, r: Signatory, s: R.State) returns (s': R.State)
    requires Valid(b) && Shows(b, r, s)
    ensures var b' := if r in b.links then b else Bound(b, r);
            var e := if r in b.links then R.AcceptLinked else R.AcceptUnlinked;
            && Valid(b') && R.RunFrom(s, [e]) == Some(s') && Shows(b', r, s')
            && |s'.tasks| == |s.tasks| + 1
            && R.Enabled(s', R.Connects(|s.tasks|)) && s'.tasks[|s.tasks|].holds == (r !in b.links)
  {
    var e := if r in b.links then R.AcceptLinked else R.AcceptUnlinked;
    RunOne(s, e);
    s' := R.Apply(s, e);
    if r !in b.links {
      BoundIsValid(b, r);
      BindShown(b, r, s);
    }
  }

  /** The end of a task that served or dialed, with the binding that it may hold. */
  lemma TaskEnds(b: Book, r: Signatory, s: R.State, t: nat)
    requires Valid(b) && Shows(b, r, s) && R.Enabled(s, R.Finishes(t))
    ensures var b' := if s.tasks[t].holds then Unbound(b, r) else b;
            Valid(b') && Shows(b', r, R.Apply(s, R.Finishes(t)))
  {
    if s.tasks[t].holds {
      UnboundIsValid(b, r);
      UnbindShown(b, r, s);
    }
  }

  lemma ServedIsValid(b: Book, remote: Signatory)
    requires Valid(b)
    ensures Valid(Served(b, remote))
  {
    if remote !in b.links {
      BoundIsValid(b, remote);
      UnboundIsValid(Disconnected(Connected(Bound(b, remote), remote), remote), remote);
    }
  }

  /** The accept handler is, for every remote, a run of the machine of that remote. */
  lemma ServeIsARun(b: Book, remote: Signatory, r: Signatory, s: R.State) returns (s': R.State)
    requires Valid(b) && Shows(b, r, s)
    ensures Valid(Served(b, remote))
    ensures R.RunFrom(s, ServeSteps(b, remote, r, |s.tasks|)) == Some(s') && Shows(Served(b, remote), r, s')
  {
    ServedIsValid(b, remote);
    if r != remote {
      s' := ServeElsewhere(b, remote, r, s);
    } else {
      var t := |s.tasks|;
      var e := if r in b.links then R.AcceptLinked else R.AcceptUnlinked;
      var s1 := ServeStarts(b, r, s);
      var b1 := if r in b.links then b else Bound(b, r);
      var s2 := ConnectIsARun(b1, r, r, s1, t);
      RunOne(s1, R.Connects(t));
      RunThen(s, [e], s1, R.Connects(t));
      var s3 := DisconnectIsARun(Connected(b1, r), r, r, s2, t);
      RunOne(s2, R.Disconnects(t));
      RunThen(s, [e] + [R.Connects(t)], s2, R.Disconnects(t));
      TaskEnds(Disconnected(Connected(b1, r), r), r, s3, t);
      RunThen(s, [e] + [R.Connects(t)] + [R.Disconnects(t)], s3, R.Finishes(t));
      s' := R.Apply(s3, R.Finishes(t));
    }
  }

  function SendStep(b: Book, remote: Signatory): R.Step {
    if ConnsOf(b.conns, remote) > 0 then R.SendConnected
    else if remote in b.links then R.SendLinked
    else R.SendUnlinked
  }

  /** The steps of a send that nothing interrupts, which becomes number `m`. */
  function SendSteps(b: Book, remote: Signatory, r: Signatory, m: nat): seq<R.Step> {
    if r == remote then [SendStep(b, remote)] + [R.Looks(m)]
    else if SendStep(b, remote).SendUnlinked? then BindSteps(b, remote)
    else []
  }

  /** A send is, for every remote, a run of the machine of that remote, with the same lookup. */
  lemma SendIsARun(b: Book, remote: Signatory, r: Signatory, s: R.State) returns (s': R.State)
    requires Valid(b) && Shows(b, r, s)
    ensures Valid(Sent(b, remote))
    ensures R.RunFrom(s, SendSteps(b, remote, r, |s.sends|)) == Some(s') && Shows(Sent(b, remote), r, s')
    ensures r == remote ==>
              && |s'.sends| == |s.sends| + 1
              && s'.sends[|s.sends|].found == R.Found(SharedOf(Sent(b, remote).shared, remote))
  {
    var e, m := SendStep(b, remote), |s.sends|;
    BoundIsValid(b, remote);
    if r == remote {
      if e.SendUnlinked? {
        BindShown(b, r, s);
      }
      var s1 := R.Apply(s, e);
      RunOne(s, e);
      RunThen(s, [e], s1, R.Looks(m));
      s' := R.Apply(s1, R.Looks(m));
    } else if e.SendUnlinked? {
      s' := BindElsewhere(b, remote, r, s);
    } else {
      s' := s;
    }
  }
}
