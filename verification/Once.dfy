/**
  The Once handshake between two peers that may open many connections at the same time.

  The peer with the greater identity decides, under its pool lock, whether a connection
  replaces the one it already keeps, and writes a one-byte verdict. The lesser peer obeys.
  `World` holds both peers; every mutex-protected section, close and write is one `Step`.
 */
module Once {
  import opened Wrappers
  import opened Bytes
  import opened Identity
  import opened BigEndian

  type Conn = nat

  datatype Entry = Entry(timestamp: int, conn: Conn)

  /** What a handler at the greater peer does next for its own connection. */
  datatype Decider =
    | Refusing             // about to write 0x00
    | Closing              // about to close its own connection
    | Replacing(former: Conn) // about to close the connection it replaced
    | Announcing           // about to write 0x01
    | Recovering           // the write of 0x01 failed
    | Returned
    | Panicked             // the recovery found no entry to close

  datatype Obeyer = Obeying | Settled

  datatype Event = Accepted(conn: Conn, stamp: int) | Dropped

  /**
    `closed` and `lesserClosed` are the connections that the handshake closed; `hungUp` and
    `lesserHungUp` are those that the callers of the handshake closed after it returned.
    `log`, `announced` and `obeyed` record history.
   */
  datatype World = World(
    minAge: int,
    now: int,
    pool: Option<Entry>,
    deciders: map<Conn, Decider>,
    closed: set<Conn>,
    hungUp: set<Conn>,
    log: seq<Event>,
    announced: set<Conn>,
    verdicts: map<Conn, bool>,
    lesserPool: Option<Entry>,
    obeyers: map<Conn, Obeyer>,
    lesserClosed: set<Conn>,
    lesserHungUp: set<Conn>,
    obeyed: seq<Conn>)

  datatype Step =
    | Decide(c: Conn, checkedAt: int, stampedAt: int)
    | Refuse(c: Conn, reached: bool)
    | CloseRefused(c: Conn)
    | CloseReplaced(c: Conn)
    | Announce(c: Conn, ok: bool, reached: bool)
    | Recover(c: Conn)
    | Panic(c: Conn)
    | ReadVerdict(c: Conn)
    | ReadFails(c: Conn)
    | Obey(c: Conn, at: int)
    | HangUp(c: Conn)
    | LesserHangUp(c: Conn)

  function Init(minAge: int, now: int): World {
    World(minAge, now, None, map[], {}, {}, [], {}, map[], None, map[], {}, {}, [])
  }

  predicate NeedsReplacement(existing: Option<Entry>, checkedAt: int, minAge: int) {
    existing.None? || checkedAt - existing.value.timestamp > minAge
  }

  predicate At(w: World, c: Conn, pc: Decider) {
    c in w.deciders && w.deciders[c] == pc
  }

  predicate Enabled(w: World, s: Step) {
    match s
    case Decide(c, checkedAt, stampedAt) => c !in w.deciders && w.now <= checkedAt <= stampedAt
    case Refuse(c, _) => At(w, c, Refusing)
    case CloseRefused(c) => At(w, c, Closing)
    case CloseReplaced(c) => c in w.deciders && w.deciders[c].Replacing?
    case Announce(c, ok, reached) => At(w, c, Announcing) && (ok ==> reached)
    case Recover(c) => At(w, c, Recovering) && w.pool.Some?
    case Panic(c) => At(w, c, Recovering) && w.pool.None?
    case ReadVerdict(c) => c in w.verdicts && c !in w.obeyers
    case ReadFails(c) => c !in w.obeyers
    case Obey(c, _) => c in w.obeyers && w.obeyers[c] == Obeying
    case HangUp(c) => At(w, c, Returned) || At(w, c, Panicked)
    case LesserHangUp(c) => c in w.obeyers && w.obeyers[c] == Settled
  }

  function Decided(w: World, c: Conn, checkedAt: int, stampedAt: int): World {
    if NeedsReplacement(w.pool, checkedAt, w.minAge) then
      var next := if w.pool.Some? then Replacing(w.pool.value.conn) else Announcing;
      w.(now := stampedAt,
         pool := Some(Entry(stampedAt, c)),
         deciders := w.deciders[c := next],
         log := w.log + [Accepted(c, stampedAt)])
    else
      w.(now := stampedAt, deciders := w.deciders[c := Refusing])
  }

  function Obeyed(w: World, c: Conn, at: int): World {
    w.(lesserClosed := w.lesserClosed + (if w.lesserPool.Some? then {w.lesserPool.value.conn} else {}),
       lesserPool := Some(Entry(at, c)),
       obeyers := w.obeyers[c := Settled],
       obeyed := w.obeyed + [c])
  }

  function Apply(w: World, s: Step): World
    requires Enabled(w, s)
  {
    match s
    case Decide(c, checkedAt, stampedAt) => Decided(w, c, checkedAt, stampedAt)
    case Refuse(c, reached) =>
      w.(deciders := w.deciders[c := Closing],
         verdicts := if reached then w.verdicts[c := false] else w.verdicts)
    case CloseRefused(c) => w.(deciders := w.deciders[c := Returned], closed := w.closed + {c})
    case CloseReplaced(c) =>
      w.(deciders := w.deciders[c := Announcing], closed := w.closed + {w.deciders[c].former})
    case Announce(c, ok, reached) =>
      w.(deciders := w.deciders[c := if ok then Returned else Recovering],
         verdicts := if reached then w.verdicts[c := true] else w.verdicts,
         announced := w.announced + {c})
    case Recover(c) =>
      w.(deciders := w.deciders[c := Returned],
         closed := w.closed + {w.pool.value.conn},
         pool := None,
         log := w.log + [Dropped])
    case Panic(c) => w.(deciders := w.deciders[c := Panicked])
    case ReadVerdict(c) =>
      w.(verdicts := w.verdicts - {c},
         obeyers := w.obeyers[c := if w.verdicts[c] then Obeying else Settled])
    case ReadFails(c) => w.(verdicts := w.verdicts - {c}, obeyers := w.obeyers[c := Settled])
    case Obey(c, at) => Obeyed(w, c, at)
    case HangUp(c) => w.(hungUp := w.hungUp + {c})
    case LesserHangUp(c) => w.(lesserHungUp := w.lesserHungUp + {c})
  }

  /** The world after a run, or `None` when some step of the run is not enabled. */
  function Run(w: World, steps: seq<Step>): Option<World>
    decreases steps
  {
    if steps == [] then Some(w)
    else if Enabled(w, steps[0]) then Run(Apply(w, steps[0]), steps[1..])
    else None
  }

  ghost predicate Reachable(w: World) {
    exists minAge, now, steps :: Run(Init(minAge, now), steps) == Some(w)
  }

  // ----- the invariant

  ghost function AcceptedConns(log: seq<Event>): set<Conn> {
    if log == [] then {}
    else
      var e := log[|log| - 1];
      AcceptedConns(log[..|log| - 1]) + (if e.Accepted? then {e.conn} else {})
  }

  lemma AcceptedConnsAppend(log: seq<Event>, e: Event)
    ensures AcceptedConns(log + [e]) == AcceptedConns(log) + (if e.Accepted? then {e.conn} else {})
  {
    assert (log + [e])[..|log|] == log;
  }

  predicate IsEntry(pool: Option<Entry>, c: Conn) {
    pool.Some? && pool.value.conn == c
  }

  /** Handler `h` at the greater peer is about to close connection `c`. */
  predicate ClosesNext(deciders: map<Conn, Decider>, h: Conn, c: Conn) {
    h in deciders && deciders[h] == Replacing(c)
  }

  ghost predicate HoldersInv(
    accepted: set<Conn>, pool: Option<Entry>, deciders: map<Conn, Decider>, closed: set<Conn>)
  {
    && accepted <= deciders.Keys
    && closed <= deciders.Keys
    && (pool.Some? ==> pool.value.conn in accepted && pool.value.conn !in closed)
    && (forall c :: c in accepted && c !in closed ==> IsEntry(pool, c) || exists h :: ClosesNext(deciders, h, c))
    && (forall h, c :: ClosesNext(deciders, h, c) ==> c in accepted && c !in closed && !IsEntry(pool, c))
    && (forall h, k, c :: ClosesNext(deciders, h, c) && ClosesNext(deciders, k, c) ==> h == k)
  }

  /** The handler has been refused and has yet to close its own connection. */
  predicate IsRefused(d: Decider) {
    d == Refusing || d == Closing
  }

  ghost predicate DecidersInv(accepted: set<Conn>, deciders: map<Conn, Decider>, closed: set<Conn>) {
    && (forall c :: c in deciders && c !in accepted ==>
          IsRefused(deciders[c]) || (deciders[c] == Returned && c in closed))
    && (forall c :: c in deciders && c in accepted ==> !IsRefused(deciders[c]))
  }

  ghost predicate VerdictsInv(w: World) {
    && w.announced <= AcceptedConns(w.log)
    && (forall c :: c in w.verdicts && w.verdicts[c] ==> c in w.announced)
    && (forall c :: c in w.obeyers && w.obeyers[c] == Obeying ==> c in w.announced)
    && (forall c :: c in w.obeyed ==> c in w.announced)
  }

  ghost predicate LesserInv(w: World) {
    && (forall c :: c in w.obeyed ==> c in w.obeyers && w.obeyers[c] == Settled)
    && (forall i, j :: 0 <= i < j < |w.obeyed| ==> w.obeyed[i] != w.obeyed[j])
    && (w.lesserPool.None? <==> w.obeyed == [])
    && (w.lesserPool.Some? ==>
          w.lesserPool.value.conn == w.obeyed[|w.obeyed| - 1] && w.lesserPool.value.conn !in w.lesserClosed)
    && (forall c :: c in w.obeyed ==> c in w.lesserClosed || IsEntry(w.lesserPool, c))
    && (forall c :: c in w.lesserClosed ==> c in w.obeyed)
  }

  /** Acceptances that follow each other directly are further apart than the minimum age. */
  ghost predicate Spaced(minAge: int, log: seq<Event>) {
    forall i :: 0 < i < |log| && log[i - 1].Accepted? && log[i].Accepted? ==>
                  log[i].stamp - log[i - 1].stamp > minAge
  }

  /** The latest event is an acceptance that is not older than `minAge` at time `t`. */
  predicate AcceptedWithin(log: seq<Event>, t: int, minAge: int) {
    log != [] && log[|log| - 1].Accepted? && t - log[|log| - 1].stamp <= minAge
  }

  /** Connection `c` was accepted at position `i` of the log. */
  predicate IssuedAt(log: seq<Event>, c: Conn, i: nat) {
    i < |log| && log[i].Accepted? && log[i].conn == c
  }

  ghost predicate TimeInv(w: World) {
    && Spaced(w.minAge, w.log)
    && (w.pool.Some? ==>
          |w.log| > 0 && w.log[|w.log| - 1] == Accepted(w.pool.value.conn, w.pool.value.timestamp))
    && (w.pool.None? ==> w.log == [] || w.log[|w.log| - 1] == Dropped)
  }

  /** No connection is accepted twice. */
  ghost predicate IssuedOnce(log: seq<Event>) {
    forall i: nat, j: nat, c :: IssuedAt(log, c, i) && IssuedAt(log, c, j) ==> i == j
  }

  ghost predicate Inv(w: World) {
    && HoldersInv(AcceptedConns(w.log), w.pool, w.deciders, w.closed)
    && DecidersInv(AcceptedConns(w.log), w.deciders, w.closed)
    && VerdictsInv(w) && LesserInv(w) && TimeInv(w) && IssuedOnce(w.log)
  }

  lemma HoldersAccept(
    accepted: set<Conn>, pool: Option<Entry>, deciders: map<Conn, Decider>, closed: set<Conn>, c: Conn, stamp: int)
    requires HoldersInv(accepted, pool, deciders, closed) && c !in deciders
    ensures var next := if pool.Some? then Replacing(pool.value.conn) else Announcing;
            HoldersInv(accepted + {c}, Some(Entry(stamp, c)), deciders[c := next], closed)
  {
    var deciders' := deciders[c := if pool.Some? then Replacing(pool.value.conn) else Announcing];
    assert forall h, d :: ClosesNext(deciders', h, d) ==> ClosesNext(deciders, h, d) || (h == c && IsEntry(pool, d));
    forall d | d in accepted && d !in closed
      ensures exists h :: ClosesNext(deciders', h, d)
    {
      if IsEntry(pool, d) {
        assert ClosesNext(deciders', c, d);
      } else {
        var h :| ClosesNext(deciders, h, d);
        assert ClosesNext(deciders', h, d);
      }
    }
  }

  lemma HoldersCloseReplaced(
    accepted: set<Conn>, pool: Option<Entry>, deciders: map<Conn, Decider>, closed: set<Conn>, c: Conn)
    requires HoldersInv(accepted, pool, deciders, closed) && c in deciders && deciders[c].Replacing?
    ensures HoldersInv(accepted, pool, deciders[c := Announcing], closed + {deciders[c].former})
  {
    var deciders' := deciders[c := Announcing];
    assert forall h, d :: ClosesNext(deciders', h, d) ==> ClosesNext(deciders, h, d);
    assert ClosesNext(deciders, c, deciders[c].former);
    forall d | d in accepted && d !in closed + {deciders[c].former}
      ensures IsEntry(pool, d) || exists h :: ClosesNext(deciders', h, d)
    {
      if !IsEntry(pool, d) {
        var h :| ClosesNext(deciders, h, d);
        assert ClosesNext(deciders', h, d);
      }
    }
  }

  /**
    Moving a handler that closes nothing next keeps every pending close; closing a connection
    that was never accepted, or closing and forgetting the pool entry, keeps them as well.
   */
  lemma HoldersMove(
    accepted: set<Conn>, pool: Option<Entry>, deciders: map<Conn, Decider>, closed: set<Conn>,
    c: Conn, next: Decider, gone: set<Conn>, pool': Option<Entry>)
    requires HoldersInv(accepted, pool, deciders, closed)
    requires c in deciders && !deciders[c].Replacing? && !next.Replacing?
    requires gone <= deciders.Keys
    requires (pool' == pool && gone !! accepted) || (pool.Some? && pool' == None && gone == {pool.value.conn})
    ensures HoldersInv(accepted, pool', deciders[c := next], closed + gone)
  {
    var deciders' := deciders[c := next];
    assert forall h, d :: ClosesNext(deciders', h, d) ==> ClosesNext(deciders, h, d);
    forall d | d in accepted && d !in closed + gone
      ensures IsEntry(pool', d) || exists h :: ClosesNext(deciders', h, d)
    {
      if !IsEntry(pool, d) {
        var h :| ClosesNext(deciders, h, d);
        assert ClosesNext(deciders', h, d);
      }
    }
  }

  lemma HoldersStep(w: World, s: Step)
    requires Inv(w) && Enabled(w, s)
    ensures var w' := Apply(w, s); HoldersInv(AcceptedConns(w'.log), w'.pool, w'.deciders, w'.closed)
  {
    var accepted := AcceptedConns(w.log);
    match s
    case Decide(c, checkedAt, stampedAt) =>
      AcceptedConnsAppend(w.log, Accepted(c, stampedAt));
      if NeedsReplacement(w.pool, checkedAt, w.minAge) {
        HoldersAccept(accepted, w.pool, w.deciders, w.closed, c, stampedAt);
      } else {
        HoldersRefuse(accepted, w.pool, w.deciders, w.closed, c);
      }
    case CloseReplaced(c) => HoldersCloseReplaced(accepted, w.pool, w.deciders, w.closed, c);
    case Recover(c) =>
      AcceptedConnsAppend(w.log, Dropped);
      HoldersMove(accepted, w.pool, w.deciders, w.closed, c, Returned, {w.pool.value.conn}, None);
    case CloseRefused(c) => HoldersMove(accepted, w.pool, w.deciders, w.closed, c, Returned, {c}, w.pool);
    case Panic(c) =>
      HoldersMove(accepted, w.pool, w.deciders, w.closed, c, Panicked, {}, w.pool);
      assert w.closed + {} == w.closed;
    case Refuse(c, _) =>
      HoldersMove(accepted, w.pool, w.deciders, w.closed, c, Closing, {}, w.pool);
      assert w.closed + {} == w.closed;
    case Announce(c, ok, _) =>
      HoldersMove(accepted, w.pool, w.deciders, w.closed, c, if ok then Returned else Recovering, {}, w.pool);
      assert w.closed + {} == w.closed;
    case _ =>
  }

  lemma HoldersRefuse(
    accepted: set<Conn>, pool: Option<Entry>, deciders: map<Conn, Decider>, closed: set<Conn>, c: Conn)
    requires HoldersInv(accepted, pool, deciders, closed) && c !in deciders
    ensures HoldersInv(accepted, pool, deciders[c := Refusing], closed)
  {
    var deciders' := deciders[c := Refusing];
    assert forall h, d :: ClosesNext(deciders', h, d) ==> ClosesNext(deciders, h, d);
    forall d | d in accepted && d !in closed
      ensures IsEntry(pool, d) || exists h :: ClosesNext(deciders', h, d)
    {
      if !IsEntry(pool, d) {
        var h :| ClosesNext(deciders, h, d);
        assert ClosesNext(deciders', h, d);
      }
    }
  }

  lemma AcceptedAfter(w: World, s: Step)
    requires Enabled(w, s)
    ensures AcceptedConns(Apply(w, s).log) ==
            AcceptedConns(w.log) +
            if s.Decide? && NeedsReplacement(w.pool, s.checkedAt, w.minAge) then {s.c} else {}
  {
    if s.Decide? {
      AcceptedConnsAppend(w.log, Accepted(s.c, s.stampedAt));
    } else if s.Recover? {
      AcceptedConnsAppend(w.log, Dropped);
    }
  }

  lemma DecidersStep(w: World, s: Step)
    requires Inv(w) && Enabled(w, s)
    ensures var w' := Apply(w, s); DecidersInv(AcceptedConns(w'.log), w'.deciders, w'.closed)
  {
    AcceptedAfter(w, s);
    var w', accepted := Apply(w, s), AcceptedConns(w.log);
    if s.Decide? || s.Refuse? || s.CloseRefused? || s.CloseReplaced? || s.Announce? || s.Recover? || s.Panic? {
      DecidersMove(accepted, w.deciders, w.closed, s.c, w'.deciders[s.c], AcceptedConns(w'.log), w'.closed);
    }
  }

  lemma DecidersMove(
    accepted: set<Conn>, deciders: map<Conn, Decider>, closed: set<Conn>,
    c: Conn, next: Decider, accepted': set<Conn>, closed': set<Conn>)
    requires DecidersInv(accepted, deciders, closed)
    requires accepted <= accepted' <= accepted + {c} && closed <= closed'
    requires c in accepted' ==> !IsRefused(next)
    requires c !in accepted' ==> IsRefused(next) || (next == Returned && c in closed')
    ensures DecidersInv(accepted', deciders[c := next], closed')
  {
  }

  lemma VerdictsStep(w: World, s: Step)
    requires Inv(w) && Enabled(w, s)
    ensures VerdictsInv(Apply(w, s))
  {
    AcceptedAfter(w, s);
  }

  lemma LesserStep(w: World, s: Step)
    requires Inv(w) && Enabled(w, s)
    ensures LesserInv(Apply(w, s))
  {
    var w' := Apply(w, s);
    if s.Obey? {
      assert s.c !in w.obeyed;
    } else {
      assert w'.obeyed == w.obeyed && w'.lesserPool == w.lesserPool && w'.lesserClosed == w.lesserClosed;
    }
  }

  lemma TimeStep(w: World, s: Step)
    requires Inv(w) && Enabled(w, s)
    ensures TimeInv(Apply(w, s))
  {
  }

  lemma IssuedOnceAppend(log: seq<Event>, e: Event)
    requires IssuedOnce(log) && (e.Accepted? ==> e.conn !in AcceptedConns(log))
    ensures IssuedOnce(log + [e])
  {
    var log' := log + [e];
    forall i: nat, j: nat, c | IssuedAt(log', c, i) && IssuedAt(log', c, j)
      ensures i == j
    {
      if i < |log| {
        assert IssuedAt(log, c, i);
        IssuedIsAccepted(log, c, i);
      }
      if j < |log| {
        assert IssuedAt(log, c, j);
        IssuedIsAccepted(log, c, j);
      }
    }
  }

  lemma IssuedStep(w: World, s: Step)
    requires Inv(w) && Enabled(w, s)
    ensures IssuedOnce(Apply(w, s).log)
  {
    if s.Decide? {
      IssuedOnceAppend(w.log, Accepted(s.c, s.stampedAt));
    } else if s.Recover? {
      IssuedOnceAppend(w.log, Dropped);
    }
  }

  /** The log lists exactly the accepted connections. */
  lemma {:induction false} IssuedIsAccepted(log: seq<Event>, c: Conn, i: nat)
    requires IssuedAt(log, c, i)
    ensures c in AcceptedConns(log)
  {
    if i < |log| - 1 {
      IssuedIsAccepted(log[..|log| - 1], c, i);
    }
  }

  lemma {:induction false} AcceptedIsIssued(log: seq<Event>, c: Conn) returns (i: nat)
    requires c in AcceptedConns(log)
    ensures IssuedAt(log, c, i)
  {
    var last := |log| - 1;
    if log[last].Accepted? && log[last].conn == c {
      i := last;
    } else {
      i := AcceptedIsIssued(log[..last], c);
    }
  }

  lemma {:induction false} InvAlongRun(w: World, steps: seq<Step>, w': World)
    requires Inv(w) && Run(w, steps) == Some(w')
    ensures Inv(w')
    decreases steps
  {
    if steps != [] {
      HoldersStep(w, steps[0]);
      DecidersStep(w, steps[0]);
      VerdictsStep(w, steps[0]);
      LesserStep(w, steps[0]);
      TimeStep(w, steps[0]);
      IssuedStep(w, steps[0]);
      InvAlongRun(Apply(w, steps[0]), steps[1..], w');
    }
  }

  lemma ReachableInv(w: World)
    requires Reachable(w)
    ensures Inv(w)
  {
    var minAge, now, steps :| Run(Init(minAge, now), steps) == Some(w);
    InvAlongRun(Init(minAge, now), steps, w);
  }

  // ----- what every interleaving guarantees

  /**
    A connection that the greater peer accepted and did not close is its pool entry, or
    exactly one handler is about to close it, and never both.
   */
  lemma AcceptedIsEntryOrHeldOnce(w: World, c: Conn)
    requires Reachable(w) && c in AcceptedConns(w.log) && c !in w.closed
    ensures IsEntry(w.pool, c) <==> !exists h :: ClosesNext(w.deciders, h, c)
    ensures forall h, k :: ClosesNext(w.deciders, h, c) && ClosesNext(w.deciders, k, c) ==> h == k
  {
    ReachableInv(w);
  }

  predicate Quiescent(w: World) {
    && (forall c :: c in w.deciders ==> w.deciders[c] == Returned || w.deciders[c] == Panicked)
    && w.verdicts == map[]
    && (forall c :: c in w.obeyers ==> w.obeyers[c] == Settled)
  }

  /** Neither end has closed `c`, as a handshake or as its caller. */
  predicate Open(w: World, c: Conn) {
    c !in w.closed + w.hungUp + w.lesserClosed + w.lesserHungUp
  }

  /** Once every handler has returned, at most one connection of the pair is left open. */
  lemma QuiescentAtMostOneOpen(w: World, c: Conn, d: Conn)
    requires Reachable(w) && Quiescent(w)
    requires c in w.deciders && Open(w, c) && d in w.deciders && Open(w, d)
    ensures c == d && IsEntry(w.pool, c)
  {
    ReachableInv(w);
  }

  /** The lesser peer only ever keeps what the greater peer accepted and announced. */
  lemma LesserKeepsOnlyAnnounced(w: World, c: Conn)
    requires Reachable(w) && c in w.obeyed
    ensures c in AcceptedConns(w.log) && c in w.announced
    ensures c !in w.lesserClosed <==> IsEntry(w.lesserPool, c)
  {
    ReachableInv(w);
  }

  /** Acceptances between two failed announcements are more than the minimum age apart. */
  lemma {:induction false} AcceptancesAreSpaced(w: World, i: nat, j: nat)
    requires Reachable(w) && w.minAge >= 0
    requires i < j < |w.log| && forall k :: i <= k <= j ==> w.log[k].Accepted?
    ensures w.log[j].stamp - w.log[i].stamp > w.minAge
    decreases j
  {
    ReachableInv(w);
    assert w.log[j].stamp - w.log[j - 1].stamp > w.minAge;
    if i < j - 1 {
      AcceptancesAreSpaced(w, i, j - 1);
    }
  }

  /**
    A decision accepts its connection if and only if no acceptance of at most the minimum age
    stands without a failed announcement since; otherwise it refuses it.
   */
  lemma AcceptsIffNoneRecent(w: World, c: Conn, checkedAt: int, stampedAt: int)
    requires Reachable(w) && Enabled(w, Decide(c, checkedAt, stampedAt))
    ensures var w' := Apply(w, Decide(c, checkedAt, stampedAt));
            if AcceptedWithin(w.log, checkedAt, w.minAge)
            then w'.log == w.log && w'.pool == w.pool && At(w', c, Refusing)
            else w'.log == w.log + [Accepted(c, stampedAt)] && IsEntry(w'.pool, c) && !At(w', c, Refusing)
  {
    ReachableInv(w);
  }

  /** The lesser peer handled the verdicts in the order in which they were issued. */
  ghost predicate HandledInOrder(w: World) {
    forall a, b, i, j :: 0 <= a < b < |w.obeyed| && IssuedAt(w.log, w.obeyed[a], i) && IssuedAt(w.log, w.obeyed[b], j)
                         ==> i < j
  }

  /** Handled in issue order, the lesser pool holds the latest acceptance that it was told of. */
  lemma InOrderKeepsLatest(w: World, c: Conn, i: nat, j: nat)
    requires Reachable(w) && HandledInOrder(w) && c in w.obeyed && w.lesserPool.Some?
    requires IssuedAt(w.log, c, i) && IssuedAt(w.log, w.lesserPool.value.conn, j)
    ensures c == w.lesserPool.value.conn || i < j
  {
    ReachableInv(w);
    var a :| 0 <= a < |w.obeyed| && w.obeyed[a] == c;
    var b := |w.obeyed| - 1;
    assert w.obeyed[b] == w.lesserPool.value.conn;
  }

  /** Both peers keep `c`, and neither handshake has closed it. */
  predicate Survives(w: World, c: Conn) {
    c in w.obeyed && c !in w.closed && c !in w.lesserClosed
  }

  /** The latest event at the greater peer is that it accepted `c`. */
  predicate LatestIs(log: seq<Event>, c: Conn) {
    log != [] && log[|log| - 1].Accepted? && log[|log| - 1].conn == c
  }

  /**
    Once every handler has returned, `c` is left alive by both handshakes exactly when its
    acceptance is the latest event at the greater peer, with no failed announcement since, and
    its verdict is the one that the lesser peer obeyed last.
   */
  lemma SurvivesIffLatestObeyedLast(w: World, c: Conn)
    requires Reachable(w) && Quiescent(w)
    ensures Survives(w, c) <==> LatestIs(w.log, c) && w.obeyed != [] && w.obeyed[|w.obeyed| - 1] == c
  {
    ReachableInv(w);
    if Survives(w, c) {
      assert IsEntry(w.pool, c) && IsEntry(w.lesserPool, c);
    }
    if LatestIs(w.log, c) && w.obeyed != [] && w.obeyed[|w.obeyed| - 1] == c {
      assert IsEntry(w.pool, c) && IsEntry(w.lesserPool, c);
    }
  }

  /** Obeyed in issue order, the latest acceptance is the last to be obeyed. */
  lemma InOrderLatestIsLast(w: World, c: Conn)
    requires Reachable(w) && HandledInOrder(w) && LatestIs(w.log, c) && c in w.obeyed
    ensures w.obeyed[|w.obeyed| - 1] == c
  {
    ReachableInv(w);
    var a :| 0 <= a < |w.obeyed| && w.obeyed[a] == c;
    var last := w.obeyed[|w.obeyed| - 1];
    assert last in w.obeyed;
    var j := AcceptedIsIssued(w.log, last);
    assert IssuedAt(w.log, w.obeyed[a], |w.log| - 1);
  }

  /**
    With verdicts handled in issue order, a connection survives if and only if the latest event
    at the greater peer is an acceptance and the lesser peer obeyed that one.
   */
  lemma InOrderSurvivorIff(w: World, c: Conn)
    requires Reachable(w) && Quiescent(w) && HandledInOrder(w)
    ensures Survives(w, c) <==> LatestIs(w.log, c) && c in w.obeyed
  {
    SurvivesIffLatestObeyedLast(w, c);
    if LatestIs(w.log, c) && c in w.obeyed {
      InOrderLatestIsLast(w, c);
    }
  }

  /**
    A handler whose announcement failed finds an entry if and only if the latest event at its
    peer is an acceptance: no other recovery has come since. The entry that it closes is its
    own if and only if its own acceptance is that latest event; otherwise its own connection
    has been closed already or is about to be, by exactly one other handler.
   */
  lemma RecoveryFindsEntryIff(w: World, c: Conn) returns (i: nat)
    requires Reachable(w) && At(w, c, Recovering)
    ensures IssuedAt(w.log, c, i)
    ensures w.pool.Some? <==> w.log[|w.log| - 1].Accepted?
    ensures IsEntry(w.pool, c) <==> i == |w.log| - 1
    ensures !IsEntry(w.pool, c) ==> c in w.closed || exists h :: ClosesNext(w.deciders, h, c) && h != c
  {
    ReachableInv(w);
    assert c in AcceptedConns(w.log);
    i := AcceptedIsIssued(w.log, c);
    if IsEntry(w.pool, c) {
      assert IssuedAt(w.log, c, |w.log| - 1);
    }
  }

  /** The recovery of a handler panics exactly when another recovery is the latest event. */
  lemma PanicsIffRecoveredSince(w: World, c: Conn)
    requires Reachable(w) && At(w, c, Recovering)
    ensures Enabled(w, Panic(c)) <==> w.log != [] && w.log[|w.log| - 1] == Dropped
    ensures Enabled(w, Panic(c)) <==> !Enabled(w, Recover(c))
  {
    var i := RecoveryFindsEntryIff(w, c);
  }

  lemma {:induction false} RunSnoc(w: World, steps: seq<Step>, s: Step)
    requires Run(w, steps).Some? && Enabled(Run(w, steps).value, s)
    ensures Run(w, steps + [s]) == Some(Apply(Run(w, steps).value, s))
    decreases steps
  {
    if steps == [] {
      assert steps + [s] == [s];
    } else {
      assert (steps + [s])[0] == steps[0] && (steps + [s])[1..] == steps[1..] + [s];
      RunSnoc(Apply(w, steps[0]), steps[1..], s);
    }
  }

  lemma ReachableStep(w: World, s: Step)
    requires Reachable(w) && Enabled(w, s)
    ensures Reachable(Apply(w, s))
  {
    var minAge, now, steps :| Run(Init(minAge, now), steps) == Some(w);
    RunSnoc(Init(minAge, now), steps, s);
  }

  lemma InitReachable(minAge: int, now: int)
    ensures Reachable(Init(minAge, now))
  {
    assert Run(Init(minAge, now), []) == Some(Init(minAge, now));
  }

  /**
    Handled out of issue order, two acceptances leave no connection: each peer has closed the
    one that the other keeps.
   */
  lemma OutOfOrderLeavesNone()
    ensures Reachable(OlderObeyed()) && Quiescent(OlderObeyed())
    ensures AcceptedConns(OlderObeyed().log) == {0, 1} && OlderObeyed().obeyed == [1, 0]
    ensures forall c :: c in OlderObeyed().deciders ==> !Open(OlderObeyed(), c)
  {
    OlderObeyedReachable();
    OlderObeyedIs();
    TwoAreAccepted();
  }

  lemma TwoAreAccepted()
    ensures AcceptedConns([Accepted(0, 0), Accepted(1, 61)]) == {0, 1}
  {
    AcceptedConnsAppend([], Accepted(0, 0));
    AcceptedConnsAppend([Accepted(0, 0)], Accepted(1, 61));
    assert [] + [Accepted(0, 0)] == [Accepted(0, 0)];
    assert [Accepted(0, 0)] + [Accepted(1, 61)] == [Accepted(0, 0), Accepted(1, 61)];
  }

  lemma OlderObeyedIs()
    ensures var w := OlderObeyed();
            && w.log == [Accepted(0, 0), Accepted(1, 61)] && w.obeyed == [1, 0]
            && w.deciders == map[0 := Returned, 1 := Returned] && w.closed == {0} && w.lesserClosed == {1}
            && w.verdicts == map[] && w.obeyers == map[0 := Settled, 1 := Settled]
  {
  }

  lemma OlderObeyedReachable()
    ensures Reachable(OlderObeyed())
  {
    TwoAnnouncedReachable();
    ReachableStep(TwoAnnounced(), ReadVerdict(1));
    ReachableStep(BothRead(), Obey(1, 0));
    ReachableStep(NewerObeyed(), Obey(0, 0));
  }

  /** The first acceptance is announced and read; the second has just been decided. */
  function SecondDecided(): World {
    World(60, 61, Some(Entry(61, 1)), map[0 := Returned, 1 := Replacing(0)], {}, {},
          [Accepted(0, 0), Accepted(1, 61)], {0}, map[], None, map[0 := Obeying], {}, {}, [])
  }

  function TwoAnnounced(): World {
    SecondDecided().(deciders := map[0 := Returned, 1 := Returned], closed := {0}, announced := {0, 1},
                     verdicts := map[1 := true])
  }

  function BothRead(): World {
    Apply(TwoAnnounced(), ReadVerdict(1))
  }

  function NewerObeyed(): World {
    Apply(BothRead(), Obey(1, 0))
  }

  function OlderObeyed(): World {
    Apply(NewerObeyed(), Obey(0, 0))
  }

  lemma SecondDecidedReachable()
    ensures Reachable(SecondDecided())
  {
    FirstReadReachable();
    ReachableStep(FirstRead(), Decide(1, 61, 61));
    assert Apply(FirstRead(), Decide(1, 61, 61)) == SecondDecided();
  }

  /** The first acceptance is announced and read. */
  function FirstRead(): World {
    World(60, 0, Some(Entry(0, 0)), map[0 := Returned], {}, {},
          [Accepted(0, 0)], {0}, map[], None, map[0 := Obeying], {}, {}, [])
  }

  lemma FirstReadReachable()
    ensures Reachable(FirstRead())
  {
    var w0 := Init(60, 0);
    InitReachable(60, 0);
    var w1 := Apply(w0, Decide(0, 0, 0));
    ReachableStep(w0, Decide(0, 0, 0));
    var w2 := Apply(w1, Announce(0, true, true));
    ReachableStep(w1, Announce(0, true, true));
    ReachableStep(w2, ReadVerdict(0));
    assert Apply(w2, ReadVerdict(0)) == FirstRead();
  }

  lemma TwoAnnouncedReachable()
    ensures Reachable(TwoAnnounced())
  {
    SecondDecidedReachable();
    var w1 := Apply(SecondDecided(), CloseReplaced(1));
    ReachableStep(SecondDecided(), CloseReplaced(1));
    ReachableStep(w1, Announce(1, true, true));
    assert Apply(w1, Announce(1, true, true)) == TwoAnnounced();
  }

  /**
    When two announcements fail one after the other, the second recovery finds no entry: the
    step at handshake/once.go:118 has nothing to close. The first one closed an entry that was
    not its own.
   */
  lemma SecondRecoveryFindsNoEntry() returns (w: World, c: Conn)
    ensures Reachable(w) && Enabled(w, Panic(c)) && w.closed == {0, 1} && w.hungUp == {}
  {
    var w3 := FirstFailsSecondDecided();
    var w4 := Apply(w3, CloseReplaced(1));
    ReachableStep(w3, CloseReplaced(1));
    var w5 := Apply(w4, Announce(1, false, false));
    ReachableStep(w4, Announce(1, false, false));
    w, c := Apply(w5, Recover(0)), 1;
    ReachableStep(w5, Recover(0));
  }

  lemma FirstFailsSecondDecided() returns (w: World)
    ensures Reachable(w) && w.pool == Some(Entry(61, 1)) && w.closed == {} && w.hungUp == {}
    ensures w.deciders == map[0 := Recovering, 1 := Replacing(0)]
  {
    var w0 := Init(60, 0);
    InitReachable(60, 0);
    var w1 := Apply(w0, Decide(0, 0, 0));
    ReachableStep(w0, Decide(0, 0, 0));
    var w2 := Apply(w1, Announce(0, false, false));
    ReachableStep(w1, Announce(0, false, false));
    w := Apply(w2, Decide(1, 61, 61));
    ReachableStep(w2, Decide(1, 61, 61));
  }

  // ----- the handler as code, and the steps it takes when nothing interrupts it

  datatype Outcome = Outcome(pool: Option<Entry>, closed: set<Conn>, kept: bool, sent: Option<Byte>)

  function ConnOf(pool: Option<Entry>): set<Conn> {
    if pool.Some? then {pool.value.conn} else {}
  }

  /** The deciding handler from start to end, for a write that succeeds exactly when `wrote`. */
  function DecideAlone(
    pool: Option<Entry>, closed: set<Conn>, minAge: int, c: Conn, checkedAt: int, stampedAt: int, wrote: bool): Outcome
  {
    if !NeedsReplacement(pool, checkedAt, minAge) then Outcome(pool, closed + {c}, false, Some(0))
    else if wrote then Outcome(Some(Entry(stampedAt, c)), closed + ConnOf(pool), true, Some(1))
    else Outcome(None, closed + ConnOf(pool) + {c}, false, Some(1))
  }

  /** The obeying handler; `verdict` is the byte read, if the read succeeded. */
  function ObeyAlone(pool: Option<Entry>, closed: set<Conn>, c: Conn, verdict: Option<Byte>, at: int): Outcome {
    if verdict.None? || verdict.value == 0 then Outcome(pool, closed, false, None)
    else Outcome(Some(Entry(at, c)), closed + ConnOf(pool), true, None)
  }

  /** Nothing is kept, or what is kept is older than the minimum age. */
  predicate MayReplace(pool: Option<Entry>, checkedAt: int, minAge: int) {
    pool.Some? ==> checkedAt - pool.value.timestamp > minAge
  }

  /** The byte that a deciding handler sends: 1 for an acceptance and 0 for a refusal. */
  lemma VerdictByteIs(
    pool: Option<Entry>, closed: set<Conn>, minAge: int, c: Conn, checkedAt: int, stampedAt: int, wrote: bool)
    ensures var o := DecideAlone(pool, closed, minAge, c, checkedAt, stampedAt, wrote);
            && o.sent == Some(if MayReplace(pool, checkedAt, minAge) then 1 else 0)
            && (o.kept <==> o.sent == Some(1) && wrote)
            && (c !in closed && (pool.Some? ==> pool.value.conn != c) ==> (c in o.closed <==> !o.kept))
  {
  }

  /**
    The two handlers of a connection agree through the byte itself: when the byte that the
    greater peer sends is the one that the lesser peer reads, both keep the connection or
    neither does, whatever their pools and clocks.
   */
  lemma HandlersAgree(
    pool: Option<Entry>, closed: set<Conn>, minAge: int, c: Conn, checkedAt: int, stampedAt: int,
    lesserPool: Option<Entry>, lesserClosed: set<Conn>, at: int)
    ensures var g := DecideAlone(pool, closed, minAge, c, checkedAt, stampedAt, true);
            var l := ObeyAlone(lesserPool, lesserClosed, c, g.sent, at);
            && (g.kept <==> l.kept)
            && (g.kept ==> g.pool == Some(Entry(stampedAt, c)) && l.pool == Some(Entry(at, c)))
            && (!g.kept ==> g.pool == pool && l.pool == lesserPool)
  {
  }

  function EntryOf(conns: map<Signatory, Entry>, remote: Signatory): Option<Entry> {
    if remote in conns then Some(conns[remote]) else None
  }

  class OncePool {
    const minimumExpiryAge: int
    var conns: map<Signatory, Entry>
    /** The connections on which this pool has called Close. */
    var closed: set<Conn>

    constructor (minimumExpiryAge: int)
      ensures this.minimumExpiryAge == minimumExpiryAge && conns == map[] && closed == {}
    {
      this.minimumExpiryAge := minimumExpiryAge;
      conns := map[];
      closed := {};
    }

    /** One locked section: keep `conn` when nothing is kept, or what is kept is old enough. */
    method Decide(remote: Signatory, conn: Conn, checkedAt: int, stampedAt: int)
      returns (existing: Option<Entry>, replaced: bool)
      modifies this`conns
      ensures existing == EntryOf(old(conns), remote)
      ensures replaced == NeedsReplacement(existing, checkedAt, minimumExpiryAge)
      ensures conns == if replaced then old(conns)[remote := Entry(stampedAt, conn)] else old(conns)
    {
      existing := if remote in conns then Some(conns[remote]) else None;
      replaced := existing.None? || checkedAt - existing.value.timestamp > minimumExpiryAge;
      if replaced {
        conns := conns[remote := Entry(stampedAt, conn)];
      }
    }

    /** One locked section: close and forget whatever connection is kept for `remote`. */
    method Recover(remote: Signatory)
      requires remote in conns
      modifies this
      ensures conns == old(conns) - {remote}
      ensures closed == old(closed) + {old(conns)[remote].conn}
    {
      closed := closed + {conns[remote].conn};
      conns := conns - {remote};
    }

    /** One locked section: close what is kept for `remote` and keep `conn` instead. */
    method Obey(remote: Signatory, conn: Conn, at: int)
      modifies this
      ensures conns == old(conns)[remote := Entry(at, conn)]
      ensures closed == old(closed) + ConnOf(EntryOf(old(conns), remote))
    {
      if remote in conns {
        closed := closed + {conns[remote].conn};
      }
      conns := conns[remote := Entry(at, conn)];
    }

    /**
      The handshake after the inner handshake has named `remote`. The greater peer follows
      `DecideAlone`, the lesser peer `ObeyAlone`, and no other remote is touched.
     */
    method Handshake(
      self: Signatory, remote: Signatory, conn: Conn, verdict: Option<Byte>, at: int,
      checkedAt: int, stampedAt: int, wrote: bool)
      returns (kept: bool, sent: Option<Byte>)
      modifies this
      ensures conns - {remote} == old(conns) - {remote}
      ensures var pool := EntryOf(old(conns), remote);
              Outcome(EntryOf(conns, remote), closed, kept, sent) ==
              match Compare(self, remote)
              case Same => Outcome(pool, old(closed), true, None)
              case Less => ObeyAlone(pool, old(closed), conn, verdict, at)
              case Greater => DecideAlone(pool, old(closed), minimumExpiryAge, conn, checkedAt, stampedAt, wrote)
      ensures sent == if Value(self) <= Value(remote) then None
                      else Some(if MayReplace(EntryOf(old(conns), remote), checkedAt, minimumExpiryAge) then 1 else 0)
      ensures Value(self) < Value(remote) ==> (kept <==> verdict.Some? && verdict.value != 0)
    {
      CompareIsNumeric(self, remote);
      kept, sent := false, None;
      var order := Compare(self, remote);
      if order == Same {
        kept := true;
        return;
      }
      if order == Less {
        if verdict.None? || verdict.value == 0 {
          return;
        }
        Obey(remote, conn, at);
        kept := true;
        return;
      }
      var existing, replaced := Decide(remote, conn, checkedAt, stampedAt);
      if !replaced {
        sent := Some(0);
        closed := closed + {conn};
        return;
      }
      if existing.Some? {
        closed := closed + {existing.value.conn};
      }
      sent := Some(1);
      if !wrote {
        Recover(remote);
        return;
      }
      kept := true;
    }
  }

  /** The steps that the deciding handler of `c` takes from `w` when nothing interrupts it. */
  function AloneSteps(w: World, c: Conn, checkedAt: int, stampedAt: int, wrote: bool): seq<Step> {
    [Decide(c, checkedAt, stampedAt)] + AfterDeciding(w.pool, NeedsReplacement(w.pool, checkedAt, w.minAge), c, wrote)
  }

  function AfterDeciding(pool: Option<Entry>, accepts: bool, c: Conn, wrote: bool): seq<Step> {
    if !accepts then [Refuse(c, wrote), CloseRefused(c)]
    else if pool.Some? then [CloseReplaced(c)] + AnnounceSteps(c, wrote)
    else AnnounceSteps(c, wrote)
  }

  /** An uninterrupted handler is one of the runs, and leaves what `DecideAlone` says. */
  lemma DecideAloneIsARun(w: World, c: Conn, checkedAt: int, stampedAt: int, wrote: bool)
    requires c !in w.deciders && w.now <= checkedAt <= stampedAt
    ensures var r := Run(w, AloneSteps(w, c, checkedAt, stampedAt, wrote));
            var o := DecideAlone(w.pool, w.closed, w.minAge, c, checkedAt, stampedAt, wrote);
            && r.Some? && At(r.value, c, Returned)
            && r.value.pool == o.pool && r.value.closed == o.closed
            && (wrote ==> c in r.value.verdicts && o.sent == Some(if r.value.verdicts[c] then 1 else 0))
            && (wrote ==> r.value.verdicts[c] == o.kept)
  {
    var w1, accepts := Decided(w, c, checkedAt, stampedAt), NeedsReplacement(w.pool, checkedAt, w.minAge);
    RunFirst(w, Decide(c, checkedAt, stampedAt), AfterDeciding(w.pool, accepts, c, wrote));
    if !accepts {
      RefusalIsARun(w1, c, wrote);
    } else if w.pool.Some? {
      ReplacementIsARun(w1, c, w.pool.value.conn, wrote);
    } else {
      AnnouncementIsARun(w1, c, wrote);
    }
  }

  lemma RunFirst(w: World, s: Step, rest: seq<Step>)
    requires Enabled(w, s)
    ensures Run(w, [s] + rest) == Run(Apply(w, s), rest)
  {
    assert ([s] + rest)[1..] == rest;
  }

  lemma ReplacementIsARun(w: World, c: Conn, former: Conn, wrote: bool)
    requires At(w, c, Replacing(former)) && IsEntry(w.pool, c)
    ensures var r := Run(w, [CloseReplaced(c)] + AnnounceSteps(c, wrote));
            && r.Some? && At(r.value, c, Returned)
            && r.value.pool == (if wrote then w.pool else None)
            && r.value.closed == w.closed + {former} + (if wrote then {} else {c})
            && (wrote ==> c in r.value.verdicts && r.value.verdicts[c])
  {
    RunFirst(w, CloseReplaced(c), AnnounceSteps(c, wrote));
    AnnouncementIsARun(Apply(w, CloseReplaced(c)), c, wrote);
  }

  function AnnounceSteps(c: Conn, wrote: bool): seq<Step> {
    [Announce(c, wrote, wrote)] + if wrote then [] else [Recover(c)]
  }

  lemma RefusalIsARun(w: World, c: Conn, wrote: bool)
    requires At(w, c, Refusing)
    ensures var r := Run(w, [Refuse(c, wrote), CloseRefused(c)]);
            && r.Some? && At(r.value, c, Returned) && r.value.pool == w.pool && r.value.closed == w.closed + {c}
            && (wrote ==> c in r.value.verdicts && !r.value.verdicts[c])
  {
    var steps := [Refuse(c, wrote), CloseRefused(c)];
    var w1 := Apply(w, Refuse(c, wrote));
    RunCons(w, steps);
    RunCons(w1, steps[1..]);
    assert Run(Apply(w1, CloseRefused(c)), []) == Some(Apply(w1, CloseRefused(c)));
  }

  lemma AnnouncementIsARun(w: World, c: Conn, wrote: bool)
    requires At(w, c, Announcing) && IsEntry(w.pool, c)
    ensures var r := Run(w, AnnounceSteps(c, wrote));
            && r.Some? && At(r.value, c, Returned)
            && r.value.pool == (if wrote then w.pool else None)
            && r.value.closed == w.closed + (if wrote then {} else {c})
            && (wrote ==> c in r.value.verdicts && r.value.verdicts[c])
  {
    var steps := AnnounceSteps(c, wrote);
    var w1 := Apply(w, steps[0]);
    RunCons(w, steps);
    if wrote {
      assert Run(w1, []) == Some(w1);
    } else {
      RunCons(w1, steps[1..]);
      assert Run(Apply(w1, Recover(c)), []) == Some(Apply(w1, Recover(c)));
    }
  }

  /** The steps that the obeying handler of `c` takes when nothing interrupts it. */
  function ObeySteps(w: World, c: Conn, at: int): seq<Step> {
    [ReadVerdict(c)] + if c in w.verdicts && w.verdicts[c] then [Obey(c, at)] else []
  }

  /** So is an uninterrupted handler at the lesser peer, which leaves what `ObeyAlone` says. */
  lemma ObeyAloneIsARun(w: World, c: Conn, verdict: Byte, at: int)
    requires c in w.verdicts && c !in w.obeyers && w.verdicts[c] == (verdict != 0)
    ensures var r := Run(w, ObeySteps(w, c, at));
            var o := ObeyAlone(w.lesserPool, w.lesserClosed, c, Some(verdict), at);
            && r.Some? && c in r.value.obeyers && r.value.obeyers[c] == Settled
            && r.value.lesserPool == o.pool && r.value.lesserClosed == o.closed
            && r.value.obeyed == w.obeyed + (if o.kept then [c] else [])
            && r.value.pool == w.pool && r.value.closed == w.closed
  {
    var steps := ObeySteps(w, c, at);
    var w1 := Apply(w, steps[0]);
    RunCons(w, steps);
    if |steps| > 1 {
      RunCons(w1, steps[1..]);
      assert Run(Apply(w1, steps[1]), steps[2..]) == Some(Apply(w1, steps[1]));
    }
  }

  lemma RunCons(w: World, steps: seq<Step>)
    requires steps != [] && Enabled(w, steps[0])
    ensures Run(w, steps) == Run(Apply(w, steps[0]), steps[1..])
    ensures |steps| > 1 ==> steps[1..][0] == steps[1] && steps[1..][1..] == steps[2..]
    ensures |steps| > 2 ==> steps[2..][0] == steps[2] && steps[2..][1..] == steps[3..]
  {
  }
}
