/**
  The in-memory routing table: the peers with a known address, kept sorted by XOR distance
  from the local peer, and the expiry times of peers that could not be reached.
 */
module Table {
  import opened Identity
  import opened Distance
  import opened BigEndian

  type Address = string

  datatype Expiry = Expiry(minimumExpiryAge: int, timestamp: int)

  datatype Table = Table(
    sorted: seq<Signatory>,
    addrs: map<Signatory, Address>,
    expiry: map<Signatory, Expiry>)

  const Empty: Table := Table([], map[], map[])

  // ----- the sorted list

  ghost predicate IsSorted(self: Signatory, s: seq<Signatory>) {
    forall i, j :: 0 <= i < j < |s| ==> Dist(self, s[i]) < Dist(self, s[j])
  }

  /** The position behind every leading entry that `p` is not closer than. */
  function Rank(self: Signatory, s: seq<Signatory>, p: Signatory): (i: nat)
    ensures i <= |s|
  {
    if s == [] || Dist(self, p) < Dist(self, s[0]) then 0 else 1 + Rank(self, s[1..], p)
  }

  lemma {:induction false} RankSplits(self: Signatory, s: seq<Signatory>, p: Signatory)
    ensures var i := Rank(self, s, p);
            && (forall k :: 0 <= k < i ==> Dist(self, s[k]) <= Dist(self, p))
            && (i < |s| ==> Dist(self, p) < Dist(self, s[i]))
  {
    if s != [] && !(Dist(self, p) < Dist(self, s[0])) {
      RankSplits(self, s[1..], p);
      assert forall k :: 1 <= k < |s| ==> s[k] == s[1..][k - 1];
    }
  }

  function Inserted(self: Signatory, s: seq<Signatory>, p: Signatory): seq<Signatory> {
    var i := Rank(self, s, p);
    s[..i] + [p] + s[i..]
  }

  /** What deletion does: drop the entry in front of the rank, whichever that is. */
  function Deleted(self: Signatory, s: seq<Signatory>, p: Signatory): seq<Signatory> {
    var i := Rank(self, s, p);
    if i == 0 then s else Without(s, i - 1)
  }

  function Without(s: seq<Signatory>, i: nat): seq<Signatory>
    requires i < |s|
  {
    s[..i] + s[i + 1..]
  }

  function Elements(s: seq<Signatory>): set<Signatory> {
    set i | 0 <= i < |s| :: s[i]
  }

  lemma EmptyElements(s: seq<Signatory>)
    ensures Elements(s) == {} <==> s == []
  {
    if s != [] {
      assert s[0] in Elements(s);
    }
  }

  /** A set of peers has one sorted list only. */
  lemma {:induction false} SortedIsUnique(self: Signatory, s: seq<Signatory>, t: seq<Signatory>)
    requires IsSorted(self, s) && IsSorted(self, t) && Elements(s) == Elements(t)
    ensures s == t
  {
    EmptyElements(s);
    EmptyElements(t);
    if s != [] {
      assert s[0] in Elements(t) && t[0] in Elements(s);
      assert s[0] == t[0];
      DropFirst(self, s);
      DropFirst(self, t);
      SortedIsUnique(self, s[1..], t[1..]);
      assert s == [s[0]] + s[1..] && t == [t[0]] + t[1..];
    }
  }

  lemma DropFirst(self: Signatory, s: seq<Signatory>)
    requires s != [] && IsSorted(self, s)
    ensures IsSorted(self, s[1..]) && Elements(s[1..]) == Elements(s) - {s[0]}
  {
    forall p | p in Elements(s) - {s[0]}
      ensures p in Elements(s[1..])
    {
      var i :| 0 <= i < |s| && s[i] == p;
      assert s[1..][i - 1] == p;
    }
  }

  lemma InsertedOrder(self: Signatory, s: seq<Signatory>, p: Signatory)
    requires IsSorted(self, s) && p !in s
    ensures IsSorted(self, Inserted(self, s, p))
  {
    var i := Rank(self, s, p);
    RankSplits(self, s, p);
    forall k | 0 <= k < i
      ensures Dist(self, s[k]) < Dist(self, p)
    {
      DistIsInjective(self, s[k], p);
    }
    SpliceIsSorted(self, s, i, p);
  }

  lemma SpliceIsSorted(self: Signatory, s: seq<Signatory>, i: nat, p: Signatory)
    requires IsSorted(self, s) && i <= |s|
    requires forall k :: 0 <= k < i ==> Dist(self, s[k]) < Dist(self, p)
    requires i < |s| ==> Dist(self, p) < Dist(self, s[i])
    ensures IsSorted(self, s[..i] + [p] + s[i..])
  {
    var t := s[..i] + [p] + s[i..];
    forall a, b | 0 <= a < b < |t|
      ensures Dist(self, t[a]) < Dist(self, t[b])
    {
      assert t[a] == if a < i then s[a] else if a == i then p else s[a - 1];
      assert t[b] == if b < i then s[b] else if b == i then p else s[b - 1];
    }
  }

  lemma ElementsConcat(a: seq<Signatory>, b: seq<Signatory>)
    ensures Elements(a + b) == Elements(a) + Elements(b)
  {
    forall p | p in Elements(a) + Elements(b)
      ensures p in Elements(a + b)
    {
      if p in Elements(a) {
        var i :| 0 <= i < |a| && a[i] == p;
        assert (a + b)[i] == p;
      } else {
        var i :| 0 <= i < |b| && b[i] == p;
        assert (a + b)[|a| + i] == p;
      }
    }
  }

  lemma ElementsOfOne(p: Signatory)
    ensures Elements([p]) == {p}
  {
    assert [p][0] == p;
  }

  lemma ElementsAround(s: seq<Signatory>, i: nat, mid: seq<Signatory>)
    requires i <= |s|
    ensures Elements(s[..i] + mid + s[i..]) == Elements(s) + Elements(mid)
  {
    ElementsConcat(s[..i] + mid, s[i..]);
    ElementsConcat(s[..i], mid);
    ElementsConcat(s[..i], s[i..]);
    assert s == s[..i] + s[i..];
  }

  lemma InsertedIsSorted(self: Signatory, s: seq<Signatory>, p: Signatory)
    requires IsSorted(self, s) && p !in Elements(s)
    ensures IsSorted(self, Inserted(self, s, p)) && Elements(Inserted(self, s, p)) == Elements(s) + {p}
  {
    assert p !in s;
    InsertedOrder(self, s, p);
    ElementsAround(s, Rank(self, s, p), [p]);
    ElementsOfOne(p);
  }

  lemma RemovalIsSorted(self: Signatory, s: seq<Signatory>, i: nat)
    requires IsSorted(self, s) && i < |s|
    ensures IsSorted(self, Without(s, i))
    ensures Elements(Without(s, i)) == Elements(s) - {s[i]}
  {
    var t := Without(s, i);
    forall a, b | 0 <= a < b < |t|
      ensures Dist(self, t[a]) < Dist(self, t[b])
    {
      assert t[a] == s[if a < i then a else a + 1] && t[b] == s[if b < i then b else b + 1];
    }
    assert s == (s[..i] + [s[i]]) + s[i + 1..];
    ElementsConcat(s[..i] + [s[i]], s[i + 1..]);
    ElementsConcat(s[..i], [s[i]]);
    ElementsConcat(s[..i], s[i + 1..]);
    ElementsOfOne(s[i]);
    NotElsewhere(self, s, i);
  }

  lemma NotElsewhere(self: Signatory, s: seq<Signatory>, i: nat)
    requires IsSorted(self, s) && i < |s|
    ensures s[i] !in Elements(s[..i]) && s[i] !in Elements(s[i + 1..])
  {
  }

  lemma RankOfPresent(self: Signatory, s: seq<Signatory>, p: Signatory)
    requires IsSorted(self, s)
    ensures p in Elements(s) <==> Rank(self, s, p) > 0 && s[Rank(self, s, p) - 1] == p
  {
    RankSplits(self, s, p);
    if p in Elements(s) {
      var k :| 0 <= k < |s| && s[k] == p;
      var i := Rank(self, s, p);
      assert k < i;
      DistIsInjective(self, s[i - 1], p);
    }
  }

  lemma DeletedIsSorted(self: Signatory, s: seq<Signatory>, p: Signatory)
    requires IsSorted(self, s)
    ensures IsSorted(self, Deleted(self, s, p))
    ensures var i := Rank(self, s, p);
            Elements(Deleted(self, s, p)) == if i == 0 then Elements(s) else Elements(s) - {s[i - 1]}
  {
    var i := Rank(self, s, p);
    if i > 0 {
      assert Deleted(self, s, p) == Without(s, i - 1);
      RemovalIsSorted(self, s, i - 1);
    } else {
      assert Deleted(self, s, p) == s;
    }
  }

  // ----- the table

  function AddPeer(self: Signatory, t: Table, p: Signatory, a: Address): Table {
    if p == self then t
    else
      t.(addrs := t.addrs[p := a],
         sorted := if p in t.addrs then t.sorted else Inserted(self, t.sorted, p))
  }

  function DeletePeer(self: Signatory, t: Table, p: Signatory): Table {
    t.(addrs := t.addrs - {p}, sorted := Deleted(self, t.sorted, p))
  }

  predicate IsExpired(t: Table, p: Signatory, now: int) {
    p in t.expiry && now - t.expiry[p].timestamp > t.expiry[p].minimumExpiryAge
  }

  function HandleExpired(self: Signatory, t: Table, p: Signatory, now: int): Table {
    if IsExpired(t, p, now) then
      var t' := DeletePeer(self, t, p);
      t'.(expiry := t.expiry - {p})
    else t
  }

  function AddExpiry(t: Table, p: Signatory, duration: int, now: int): Table {
    if p in t.addrs && p !in t.expiry then t.(expiry := t.expiry[p := Expiry(duration, now)]) else t
  }

  function DeleteExpiry(t: Table, p: Signatory): Table {
    t.(expiry := t.expiry - {p})
  }

  /** List and map hold the same peers, the list in order of distance, and never the local one. */
  ghost predicate Agrees(self: Signatory, t: Table) {
    IsSorted(self, t.sorted) && Elements(t.sorted) == t.addrs.Keys && self !in t.addrs
  }

  ghost predicate Inv(self: Signatory, t: Table) {
    Agrees(self, t) && t.expiry.Keys <= t.addrs.Keys
  }

  lemma AddPeerKeepsInv(self: Signatory, t: Table, p: Signatory, a: Address)
    requires Inv(self, t)
    ensures Inv(self, AddPeer(self, t, p, a))
  {
    if p != self && p !in t.addrs {
      InsertedIsSorted(self, t.sorted, p);
    }
  }

  /** No peer of the table is closer than `p`. */
  ghost predicate NoneCloser(self: Signatory, t: Table, p: Signatory) {
    forall q :: q in t.addrs ==> Dist(self, p) < Dist(self, q)
  }

  lemma RankZeroIffNoneCloser(self: Signatory, t: Table, p: Signatory)
    requires Agrees(self, t)
    ensures Rank(self, t.sorted, p) == 0 <==> NoneCloser(self, t, p)
  {
    var i := Rank(self, t.sorted, p);
    RankSplits(self, t.sorted, p);
    if i == 0 {
      forall q | q in t.addrs
        ensures Dist(self, p) < Dist(self, q)
      {
        assert q in Elements(t.sorted);
        var k :| 0 <= k < |t.sorted| && t.sorted[k] == q;
        assert Dist(self, t.sorted[0]) <= Dist(self, q);
      }
    } else {
      assert t.sorted[i - 1] in Elements(t.sorted);
    }
  }

  lemma DeleteElements(self: Signatory, s: seq<Signatory>, keys: set<Signatory>, p: Signatory)
    requires IsSorted(self, s) && Elements(s) == keys
    ensures IsSorted(self, Deleted(self, s, p))
    ensures Elements(Deleted(self, s, p)) == keys - {p} <==> p in keys || Rank(self, s, p) == 0
  {
    var i := Rank(self, s, p);
    RankOfPresent(self, s, p);
    DeletedIsSorted(self, s, p);
    if i > 0 {
      assert s[i - 1] in keys;
      assert keys - {s[i - 1]} == keys - {p} <==> s[i - 1] == p || (p !in keys && s[i - 1] !in keys);
    } else {
      assert keys - {p} == keys;
    }
  }

  /**
    Deleting a peer keeps the table consistent if and only if the peer is in it, or lies in
    front of all its peers, and has no expiry entry. Deleting any other absent peer drops its
    predecessor from the list and leaves it in the map.
   */
  lemma DeleteKeepsInvIff(self: Signatory, t: Table, p: Signatory)
    requires Inv(self, t)
    ensures Agrees(self, DeletePeer(self, t, p)) <==> p in t.addrs || NoneCloser(self, t, p)
    ensures Inv(self, DeletePeer(self, t, p)) <==> (p in t.addrs || NoneCloser(self, t, p)) && p !in t.expiry
  {
    RankZeroIffNoneCloser(self, t, p);
    DeleteElements(self, t.sorted, t.addrs.Keys, p);
    assert DeletePeer(self, t, p).addrs.Keys == t.addrs.Keys - {p};
  }

  /** Three peers, the second of them closer to the first than the third. */
  lemma PeersInOrder() returns (self: Signatory, near: Signatory, far: Signatory)
    ensures near != self && far != self && Dist(self, near) < Dist(self, far)
  {
    self := seq(32, _ => 0);
    near, far := self[0 := 1], self[0 := 2];
    var x, y := Xor(self, near), Xor(self, far);
    assert x[0] == 1 && y[0] == 2;
    FirstDifferenceDecides(x, y, 0);
  }

  /** Deleting a peer that was never added takes a nearer one off the list and leaves it in the map. */
  lemma AbsentDeleteBreaksTable() returns (self: Signatory, near: Signatory, far: Signatory)
    ensures var t := AddPeer(self, Empty, near, "a");
            && Inv(self, t) && far !in t.addrs
            && DeletePeer(self, t, far).sorted == [] && near in DeletePeer(self, t, far).addrs
            && !Agrees(self, DeletePeer(self, t, far))
  {
    self, near, far := PeersInOrder();
    var t := AddPeer(self, Empty, near, "a");
    EmptyElements([]);
    AddPeerKeepsInv(self, Empty, near, "a");
    assert t.sorted == [near] && [near][1..] == [];
    assert Rank(self, [near], far) == 1 + Rank(self, [near][1..], far);
    EmptyElements(DeletePeer(self, t, far).sorted);
  }

  datatype Op =
    | Add(p: Signatory, a: Address)
    | Expire(p: Signatory, duration: int, now: int)
    | Handle(p: Signatory, now: int)
    | Forgive(p: Signatory)
    | Delete(p: Signatory)

  function Apply(self: Signatory, t: Table, op: Op): Table {
    match op
    case Add(p, a) => AddPeer(self, t, p, a)
    case Expire(p, duration, now) => AddExpiry(t, p, duration, now)
    case Handle(p, now) => HandleExpired(self, t, p, now)
    case Forgive(p) => DeleteExpiry(t, p)
    case Delete(p) => DeletePeer(self, t, p)
  }

  function Run(self: Signatory, ops: seq<Op>): Table {
    if ops == [] then Empty else Apply(self, Run(self, ops[..|ops| - 1]), ops[|ops| - 1])
  }

  /** Direct deletions are of peers that are present and have no expiry entry. */
  predicate DeletesPresent(self: Signatory, ops: seq<Op>) {
    forall i :: 0 <= i < |ops| && ops[i].Delete? ==>
                  var t := Run(self, ops[..i]); ops[i].p in t.addrs && ops[i].p !in t.expiry
  }

  /** Every run of the table's operations keeps list, map and expiry entries in step. */
  lemma {:induction false} RunKeepsInv(self: Signatory, ops: seq<Op>)
    requires DeletesPresent(self, ops)
    ensures Inv(self, Run(self, ops))
  {
    if ops != [] {
      var init, op := ops[..|ops| - 1], ops[|ops| - 1];
      assert forall i :: 0 <= i < |init| ==> init[..i] == ops[..i];
      RunKeepsInv(self, init);
      var t := Run(self, init);
      match op
      case Add(p, a) => AddPeerKeepsInv(self, t, p, a);
      case Handle(p, now) => DeleteKeepsInvIff(self, t, p);
      case Delete(p) => DeleteKeepsInvIff(self, t, p);
      case _ =>
    }
  }

  // ----- expiry and addresses over runs

  lemma {:induction false} RunConcat(self: Signatory, a: seq<Op>, b: seq<Op>)
    ensures Run(self, a + b) == ApplyAll(self, Run(self, a), b)
    decreases b
  {
    if b == [] {
      assert a + b == a;
    } else {
      var init, last := b[..|b| - 1], b[|b| - 1];
      assert (a + b)[..|a + b| - 1] == a + init && (a + b)[|a + b| - 1] == last;
      RunConcat(self, a, init);
    }
  }

  function ApplyAll(self: Signatory, t: Table, ops: seq<Op>): Table {
    if ops == [] then t else Apply(self, ApplyAll(self, t, ops[..|ops| - 1]), ops[|ops| - 1])
  }

  /** The operation can neither remove `p` nor its expiry entry. */
  predicate Spares(op: Op, p: Signatory) {
    op.p == p ==> !op.Forgive? && !op.Delete? && !op.Handle?
  }

  /** An expiry entry stays as it was first recorded, whatever is added or recorded since. */
  lemma {:induction false} EntryStays(self: Signatory, t: Table, ops: seq<Op>, p: Signatory)
    requires p in t.addrs && p in t.expiry && forall i :: 0 <= i < |ops| ==> Spares(ops[i], p)
    ensures var t' := ApplyAll(self, t, ops);
            p in t'.addrs && p in t'.expiry && t'.expiry[p] == t.expiry[p]
  {
    if ops != [] {
      EntryStays(self, t, ops[..|ops| - 1], p);
    }
  }

  /**
    A peer without an expiry entry is given `d` at time `t0`. Whatever else happens, as long as it
    is neither forgiven, deleted nor handled, handling it at time `t1` removes it if and only if
    more than `d` has passed since `t0`; recording it again in between changes nothing.
   */
  lemma ExpiresIffOlder(
    self: Signatory, before: seq<Op>, p: Signatory, d: int, t0: int, between: seq<Op>, t1: int)
    requires p in Run(self, before).addrs && p !in Run(self, before).expiry
    requires forall i :: 0 <= i < |between| ==> Spares(between[i], p)
    ensures var t := Run(self, before + ([Expire(p, d, t0)] + between + [Handle(p, t1)]));
            && (p in t.addrs <==> t1 - t0 <= d)
            && (p in t.expiry <==> t1 - t0 <= d)
  {
    var t := Run(self, before);
    var ops := [Expire(p, d, t0)] + between + [Handle(p, t1)];
    RunConcat(self, before, ops);
    var recorded := AddExpiry(t, p, d, t0);
    EntryStays(self, recorded, between, p);
    FirstThenAll(self, t, Expire(p, d, t0), between);
    assert ops[..|ops| - 1] == [Expire(p, d, t0)] + between;
  }

  lemma {:induction false} FirstThenAll(self: Signatory, t: Table, op: Op, ops: seq<Op>)
    ensures ApplyAll(self, t, [op] + ops) == ApplyAll(self, Apply(self, t, op), ops)
  {
    if ops == [] {
      assert [op] + ops == [op] && [op][..0] == [];
      assert ApplyAll(self, t, [op][..0]) == t;
    } else {
      var init, last := ops[..|ops| - 1], ops[|ops| - 1];
      assert ([op] + ops)[..|ops|] == [op] + init;
      FirstThenAll(self, t, op, init);
    }
  }

  lemma {:induction false} StaysForgiven(self: Signatory, t: Table, ops: seq<Op>, p: Signatory)
    requires p in t.addrs && p !in t.expiry
    requires forall i :: 0 <= i < |ops| && ops[i].p == p ==> !ops[i].Expire? && !ops[i].Delete?
    ensures p in ApplyAll(self, t, ops).addrs && p !in ApplyAll(self, t, ops).expiry
  {
    if ops != [] {
      StaysForgiven(self, t, ops[..|ops| - 1], p);
    }
  }

  /** A peer that was forgiven is not removed, however late it is handled, until it is recorded anew. */
  lemma ForgivenPeerStays(self: Signatory, before: seq<Op>, p: Signatory, after: seq<Op>)
    requires p in Run(self, before).addrs
    requires forall i :: 0 <= i < |after| && after[i].p == p ==> !after[i].Expire? && !after[i].Delete?
    ensures p in Run(self, before + ([Forgive(p)] + after)).addrs
  {
    var t := Run(self, before);
    RunConcat(self, before, [Forgive(p)] + after);
    FirstThenAll(self, t, Forgive(p), after);
    StaysForgiven(self, DeleteExpiry(t, p), after, p);
  }

  lemma {:induction false} AddressStays(self: Signatory, t: Table, ops: seq<Op>, p: Signatory)
    requires p in t.addrs && forall i :: 0 <= i < |ops| && ops[i].Add? ==> ops[i].p != p
    ensures p in ApplyAll(self, t, ops).addrs ==> ApplyAll(self, t, ops).addrs[p] == t.addrs[p]
  {
    if ops != [] {
      AddressStays(self, t, ops[..|ops| - 1], p);
    }
  }

  /** The address of a peer that is still in the table is the one added last. */
  lemma LatestAddressWins(self: Signatory, before: seq<Op>, p: Signatory, a: Address, after: seq<Op>)
    requires p != self && forall i :: 0 <= i < |after| && after[i].Add? ==> after[i].p != p
    ensures var t := Run(self, before + ([Add(p, a)] + after));
            && (p in t.addrs ==> t.addrs[p] == a)
            && (after == [] ==> p in t.addrs)
  {
    RunConcat(self, before, [Add(p, a)] + after);
    FirstThenAll(self, Run(self, before), Add(p, a), after);
    AddressStays(self, AddPeer(self, Run(self, before), p, a), after, p);
  }

  function Min(a: int, b: int): int {
    if a < b then a else b
  }

  function Closest(t: Table, n: int): seq<Signatory> {
    if n <= 0 then [] else t.sorted[..Min(n, |t.sorted|)]
  }

  lemma {:induction false} SortedHasNoRepeats(self: Signatory, s: seq<Signatory>)
    requires IsSorted(self, s)
    ensures |Elements(s)| == |s|
  {
    if s != [] {
      DropFirst(self, s);
      SortedHasNoRepeats(self, s[1..]);
      assert s[0] in Elements(s) && s[0] !in Elements(s[1..]);
      assert Elements(s) == Elements(s[1..]) + {s[0]};
    }
  }

  lemma PrefixIsClosest(self: Signatory, s: seq<Signatory>, k: nat)
    requires IsSorted(self, s) && k <= |s|
    ensures IsSorted(self, s[..k]) && Elements(s[..k]) <= Elements(s)
    ensures forall p, q :: p in Elements(s[..k]) && q in Elements(s) - Elements(s[..k]) ==>
                             Dist(self, p) < Dist(self, q)
  {
    assert s == s[..k] + s[k..];
    ElementsConcat(s[..k], s[k..]);
    forall p, q | p in Elements(s[..k]) && q in Elements(s) - Elements(s[..k])
      ensures Dist(self, p) < Dist(self, q)
    {
      var i :| 0 <= i < k && s[..k][i] == p;
      assert q in Elements(s[k..]);
      var j :| 0 <= j < |s| - k && s[k..][j] == q;
      assert s[k + j] == q;
    }
  }

  /** After any run, the first `n` entries are exactly the `n` closest peers, nearest first. */
  lemma PeersAreTheClosest(self: Signatory, ops: seq<Op>, n: int)
    requires DeletesPresent(self, ops)
    ensures var t := Run(self, ops);
            var r := Closest(t, n);
            && |r| == (if n <= 0 then 0 else Min(n, |t.addrs.Keys|))
            && IsSorted(self, r) && Elements(r) <= t.addrs.Keys
            && forall p, q :: p in Elements(r) && q in t.addrs.Keys - Elements(r) ==> Dist(self, p) < Dist(self, q)
  {
    RunKeepsInv(self, ops);
    var t := Run(self, ops);
    SortedHasNoRepeats(self, t.sorted);
    PrefixIsClosest(self, t.sorted, if n <= 0 then 0 else Min(n, |t.sorted|));
    assert t.sorted[..0] == [];
  }

  // ----- searching and sampling

  lemma {:induction false} RankIs(self: Signatory, s: seq<Signatory>, p: Signatory, i: nat)
    requires i <= |s|
    requires forall k :: 0 <= k < i ==> Dist(self, s[k]) <= Dist(self, p)
    requires forall k :: i <= k < |s| ==> Dist(self, p) < Dist(self, s[k])
    ensures i == Rank(self, s, p)
  {
    if i > 0 {
      assert Dist(self, s[0]) <= Dist(self, p);
      RankIs(self, s[1..], p, i - 1);
    }
  }

  predicate Distinct<T(==)>(s: seq<T>) {
    forall i, j :: 0 <= i < j < |s| ==> s[i] != s[j]
  }

  /** The peers at the given positions. */
  function At(s: seq<Signatory>, indices: seq<nat>): seq<Signatory>
    requires forall i :: 0 <= i < |indices| ==> indices[i] < |s|
  {
    seq(|indices|, i requires 0 <= i < |indices| => s[indices[i]])
  }

  /** Distinct positions of a sorted list hold distinct peers. */
  lemma AtIsDistinct(self: Signatory, s: seq<Signatory>, indices: seq<nat>)
    requires IsSorted(self, s) && Distinct(indices)
    requires forall i :: 0 <= i < |indices| ==> indices[i] < |s|
    ensures Distinct(At(s, indices))
  {
    var r := At(s, indices);
    forall i, j | 0 <= i < j < |r|
      ensures r[i] != r[j]
    {
      var a, b := indices[i], indices[j];
      assert a != b;
      assert Dist(self, s[a]) < Dist(self, s[b]) || Dist(self, s[b]) < Dist(self, s[a]);
    }
  }
}
