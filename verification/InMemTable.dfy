/** The routing table as code: every method does to the fields what its function in `Table` says. */
module InMemTable {
  import opened Identity
  import opened Distance
  import T = Table

  class InMemTable {
    const self: Signatory
    var sorted: seq<Signatory>
    var addrsBySignatory: map<Signatory, T.Address>
    var expiryBySignatory: map<Signatory, T.Expiry>

    ghost function View(): T.Table
      reads this
    {
      T.Table(sorted, addrsBySignatory, expiryBySignatory)
    }

    ghost predicate Valid()
      reads this
    {
      T.Inv(self, View())
    }

    constructor (self: Signatory)
      ensures this.self == self && View() == T.Empty && Valid()
    {
      this.self := self;
      sorted, addrsBySignatory, expiryBySignatory := [], map[], map[];
    }

    /** Binary search for the first entry that `peerID` is closer than. */
    method Search(peerID: Signatory) returns (i: nat)
      requires T.IsSorted(self, sorted)
      ensures i == T.Rank(self, sorted, peerID)
    {
      i := 0;
      var j := |sorted|;
      while i < j
        invariant i <= j <= |sorted|
        invariant forall k :: 0 <= k < i ==> Dist(self, sorted[k]) <= Dist(self, peerID)
        invariant forall k :: j <= k < |sorted| ==> Dist(self, peerID) < Dist(self, sorted[k])
      {
        var h := (i + j) / 2;
        var closer := IsCloser(self, peerID, sorted[h]);
        if !closer {
          i := h + 1;
        } else {
          j := h;
        }
      }
      T.RankIs(self, sorted, peerID, i);
    }

    method AddPeer(peerID: Signatory, peerAddr: T.Address)
      requires Valid()
      modifies this
      ensures Valid() && View() == T.AddPeer(self, old(View()), peerID, peerAddr)
    {
      T.AddPeerKeepsInv(self, View(), peerID, peerAddr);
      if peerID == self {
        return;
      }
      var ok := peerID in addrsBySignatory;
      addrsBySignatory := addrsBySignatory[peerID := peerAddr];
      if !ok {
        var i := Search(peerID);
        sorted := sorted[..i] + [peerID] + sorted[i..];
      }
    }

    method DeletePeer(peerID: Signatory)
      requires Valid()
      modifies this
      ensures View() == T.DeletePeer(self, old(View()), peerID)
      ensures T.Agrees(self, View()) <==> peerID in old(addrsBySignatory) || T.NoneCloser(self, old(View()), peerID)
      ensures Valid() <==> T.Agrees(self, View()) && peerID !in old(expiryBySignatory)
    {
      T.DeleteKeepsInvIff(self, View(), peerID);
      addrsBySignatory := addrsBySignatory - {peerID};
      var i := Search(peerID);
      var removeIndex := i as int - 1;
      if removeIndex >= 0 {
        sorted := sorted[..removeIndex] + sorted[removeIndex + 1..];
      }
    }

    method HandleExpired(peerID: Signatory, now: int) returns (expired: bool)
      requires Valid()
      modifies this
      ensures Valid() && View() == T.HandleExpired(self, old(View()), peerID, now)
      ensures expired == T.IsExpired(old(View()), peerID, now)
    {
      if peerID !in expiryBySignatory {
        return false;
      }
      var expiry := expiryBySignatory[peerID];
      expired := now - expiry.timestamp > expiry.minimumExpiryAge;
      if expired {
        DeletePeer(peerID);
        expiryBySignatory := expiryBySignatory - {peerID};
      }
    }

    method AddExpiry(peerID: Signatory, duration: int, now: int)
      requires Valid()
      modifies this
      ensures Valid() && View() == T.AddExpiry(old(View()), peerID, duration, now)
    {
      if peerID !in addrsBySignatory || peerID in expiryBySignatory {
        return;
      }
      expiryBySignatory := expiryBySignatory[peerID := T.Expiry(duration, now)];
    }

    method DeleteExpiry(peerID: Signatory)
      requires Valid()
      modifies this
      ensures Valid() && View() == T.DeleteExpiry(old(View()), peerID)
    {
      expiryBySignatory := expiryBySignatory - {peerID};
    }

    method Peers(n: int) returns (sigs: seq<Signatory>)
      requires Valid()
      ensures sigs == T.Closest(View(), n)
    {
      if n <= 0 {
        return [];
      }
      sigs := [];
      while |sigs| < n && |sigs| < |sorted|
        invariant |sigs| <= n && sigs <= sorted
        decreases |sorted| - |sigs|
      {
        sigs := sigs + [sorted[|sigs|]];
      }
    }

    /**
      A sample of `n` peers. `perm` is the random permutation that the small case uses; the
      draws of Floyd's algorithm are any numbers below their bound, which is never zero.
     */
    method RandomPeers(n: int, perm: seq<nat>) returns (sigs: seq<Signatory>)
      requires Valid()
      requires |perm| == |sorted| && T.Distinct(perm) && forall i :: 0 <= i < |perm| ==> perm[i] < |sorted|
      ensures |sigs| == if n <= 0 then 0 else T.Min(n, |sorted|)
      ensures T.Distinct(sigs) && T.Elements(sigs) <= addrsBySignatory.Keys
    {
      var m := |sorted|;
      if n <= 0 {
        return [];
      }
      if n >= m {
        T.AtIsDistinct(self, sorted, seq(m, i => i));
        assert T.At(sorted, seq(m, i => i)) == sorted;
        return sorted;
      }
      var indices: seq<nat>;
      if m <= 10000 || n >= m / 50 {
        indices := perm[..n];
      } else {
        indices := Floyd(m, n);
      }
      T.AtIsDistinct(self, sorted, indices);
      sigs := T.At(sorted, indices);
      forall p | p in T.Elements(sigs)
        ensures p in addrsBySignatory
      {
        var i :| 0 <= i < |sigs| && sigs[i] == p;
        assert sorted[indices[i]] in T.Elements(sorted);
      }
    }
  }

  /**
    Floyd's sampling of `n` out of `m` indices. An index drawn before is replaced by the loop
    variable, which is larger than every index chosen so far and hence always fresh.
   */
  method Floyd(m: nat, n: nat) returns (indices: seq<nat>)
    requires 0 < n < m
    ensures |indices| == n && T.Distinct(indices)
    ensures forall i :: 0 <= i < n ==> indices[i] < m
  {
    indices := [];
    for i := m - n to m
      invariant |indices| == i - (m - n) && T.Distinct(indices)
      invariant forall k :: 0 <= k < |indices| ==> indices[k] < i
    {
      var index: nat :| index < i;
      if index !in indices {
        indices := indices + [index];
      } else {
        indices := indices + [i];
      }
    }
  }
}
