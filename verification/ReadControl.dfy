/**
  The control flow of one reader: the points of its loop at which a choice is made, and the
  four ways out, each of which closes the quit channel itself.
 */
module ReadControl {
  import opened Wrappers

  datatype Point = AtDecode | AtRateLimit | AtUnmarshal | AtSyncData | AtDelivery | Returned

  datatype Move =
    | DecodeFails
    | Decoded
    | RateExceeded
    | WithinRate
    | UnmarshalFails
    | Plain                // unmarshalled, and no synchronisation
    | WantsSyncData        // unmarshalled, and a synchronisation
    | SyncDataFails
    | SyncDataRead
    | ContextDone
    | Delivered

  function Next(p: Point, m: Move): Option<Point> {
    match (p, m)
    case (AtDecode, DecodeFails) => Some(Returned)
    case (AtDecode, Decoded) => Some(AtRateLimit)
    case (AtRateLimit, RateExceeded) => Some(Returned)
    case (AtRateLimit, WithinRate) => Some(AtUnmarshal)
    case (AtUnmarshal, UnmarshalFails) => Some(AtDecode)
    case (AtUnmarshal, Plain) => Some(AtDelivery)
    case (AtUnmarshal, WantsSyncData) => Some(AtSyncData)
    case (AtSyncData, SyncDataFails) => Some(Returned)
    case (AtSyncData, SyncDataRead) => Some(AtDelivery)
    case (AtDelivery, ContextDone) => Some(Returned)
    case (AtDelivery, Delivered) => Some(AtDecode)
    case _ => None
  }

  /** The moves that close the quit channel. */
  predicate Closes(m: Move) {
    m.DecodeFails? || m.RateExceeded? || m.SyncDataFails? || m.ContextDone?
  }

  function One(b: bool): nat {
    if b then 1 else 0
  }

  /** The point that a reader reaches by `moves` from the start of its loop. */
  function Follow(moves: seq<Move>): Option<Point> {
    if moves == [] then Some(AtDecode)
    else
      match Follow(moves[..|moves| - 1])
      case None => None
      case Some(p) => Next(p, moves[|moves| - 1])
  }

  function CloseCount(moves: seq<Move>): nat {
    if moves == [] then 0 else CloseCount(moves[..|moves| - 1]) + One(Closes(moves[|moves| - 1]))
  }

  function Deliveries(moves: seq<Move>): nat {
    if moves == [] then 0 else Deliveries(moves[..|moves| - 1]) + One(moves[|moves| - 1].Delivered?)
  }

  lemma FollowOne(moves: seq<Move>, m: Move)
    ensures Follow(moves + [m]) == match Follow(moves) case None => None case Some(p) => Next(p, m)
    ensures CloseCount(moves + [m]) == CloseCount(moves) + One(Closes(m))
    ensures Deliveries(moves + [m]) == Deliveries(moves) + One(m.Delivered?)
  {
    assert (moves + [m])[..|moves|] == moves;
  }

  // ----- the ways through one turn of the loop

  datatype Way =
    | NoFrame
    | TooFast
    | Unreadable
    | NoSyncData
    | Cancelled(sync: bool)
    | Delivery(sync: bool)

  /** The ways that end in an exit. */
  predicate Leaves(way: Way) {
    !way.Unreadable? && !way.Delivery?
  }

  function MovesOf(way: Way): seq<Move> {
    match way
    case NoFrame => [] + [DecodeFails]
    case TooFast => UpToRateLimit() + [RateExceeded]
    case Unreadable => UpToUnmarshal() + [UnmarshalFails]
    case NoSyncData => UpToSyncData() + [SyncDataFails]
    case Cancelled(sync) => UpToDelivery(sync) + [ContextDone]
    case Delivery(sync) => UpToDelivery(sync) + [Delivered]
  }

  /** `moves` leads to `p` without closing or delivering anything. */
  predicate Quietly(moves: seq<Move>, p: Point) {
    Follow(moves) == Some(p) && CloseCount(moves) == 0 && Deliveries(moves) == 0
  }

  lemma QuietMove(moves: seq<Move>, p: Point, m: Move, q: Point)
    requires Quietly(moves, p) && Next(p, m) == Some(q) && !Closes(m) && !m.Delivered?
    ensures Quietly(moves + [m], q)
  {
    FollowOne(moves, m);
  }

  /** The moves of a turn up to each of its choices. */
  function UpToRateLimit(): seq<Move> {
    [] + [Decoded]
  }

  function UpToUnmarshal(): seq<Move> {
    UpToRateLimit() + [WithinRate]
  }

  function UpToSyncData(): seq<Move> {
    UpToUnmarshal() + [WantsSyncData]
  }

  function UpToDelivery(sync: bool): seq<Move> {
    if sync then UpToSyncData() + [SyncDataRead] else UpToUnmarshal() + [Plain]
  }

  lemma QuietUpToUnmarshal()
    ensures Quietly([], AtDecode) && Quietly(UpToRateLimit(), AtRateLimit) && Quietly(UpToUnmarshal(), AtUnmarshal)
  {
    QuietMove([], AtDecode, Decoded, AtRateLimit);
    QuietMove(UpToRateLimit(), AtRateLimit, WithinRate, AtUnmarshal);
  }

  lemma QuietUpToDelivery(sync: bool)
    ensures Quietly(UpToSyncData(), AtSyncData) && Quietly(UpToDelivery(sync), AtDelivery)
  {
    QuietUpToUnmarshal();
    QuietMove(UpToUnmarshal(), AtUnmarshal, WantsSyncData, AtSyncData);
    if sync {
      QuietMove(UpToSyncData(), AtSyncData, SyncDataRead, AtDelivery);
    } else {
      QuietMove(UpToUnmarshal(), AtUnmarshal, Plain, AtDelivery);
    }
  }

  /** What `way` comes to: where it leads, and whether it closes or delivers. */
  ghost predicate Leads(moves: seq<Move>, p: Point, closes: bool, delivers: bool) {
    Follow(moves) == Some(p) && CloseCount(moves) == One(closes) && Deliveries(moves) == One(delivers)
  }

  lemma LastMove(moves: seq<Move>, p: Point, m: Move, q: Point)
    requires Quietly(moves, p) && Next(p, m) == Some(q)
    ensures Leads(moves + [m], q, Closes(m), m.Delivered?)
  {
    FollowOne(moves, m);
  }

  /** Each way leads back to the start of the loop or out of it; the exits close once. */
  lemma WayLeads(way: Way)
    ensures Leads(MovesOf(way), if Leaves(way) then Returned else AtDecode, Leaves(way), way.Delivery?)
  {
    if way.NoFrame? || way.TooFast? || way.Unreadable? {
      EarlyWayLeads(way);
    } else {
      QuietUpToDelivery(if way.NoSyncData? then true else way.sync);
      match way
      case NoSyncData => LastMove(UpToSyncData(), AtSyncData, SyncDataFails, Returned);
      case Cancelled(sync) => LastMove(UpToDelivery(sync), AtDelivery, ContextDone, Returned);
      case Delivery(sync) => LastMove(UpToDelivery(sync), AtDelivery, Delivered, AtDecode);
    }
  }

  lemma EarlyWayLeads(way: Way)
    requires way.NoFrame? || way.TooFast? || way.Unreadable?
    ensures Leads(MovesOf(way), if Leaves(way) then Returned else AtDecode, Leaves(way), false)
  {
    QuietUpToUnmarshal();
    match way
    case NoFrame => LastMove([], AtDecode, DecodeFails, Returned);
    case TooFast => LastMove(UpToRateLimit(), AtRateLimit, RateExceeded, Returned);
    case Unreadable => LastMove(UpToUnmarshal(), AtUnmarshal, UnmarshalFails, AtDecode);
  }

  /** A way that leads back to the start of the loop can be followed by any other. */
  lemma {:induction false} FollowConcat(a: seq<Move>, b: seq<Move>)
    requires Follow(a) == Some(AtDecode)
    ensures Follow(a + b) == Follow(b)
    ensures CloseCount(a + b) == CloseCount(a) + CloseCount(b)
    ensures Deliveries(a + b) == Deliveries(a) + Deliveries(b)
    decreases b
  {
    if b == [] {
      assert a + b == a;
    } else {
      var init, last := b[..|b| - 1], b[|b| - 1];
      FollowConcat(a, init);
      assert a + b == (a + init) + [last];
      FollowOne(a + init, last);
    }
  }

  /** Whatever way a reader takes, it has closed its quit channel once if it has returned, and else not. */
  lemma {:induction false} ClosedOnceReturned(moves: seq<Move>)
    requires Follow(moves).Some?
    ensures CloseCount(moves) == One(Follow(moves) == Some(Returned))
  {
    if moves != [] {
      ClosedOnceReturned(moves[..|moves| - 1]);
    }
  }
}
