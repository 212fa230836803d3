/** XOR distance between signatories, as a number and as the byte-wise comparison computes it. */
module Distance {
  import opened Bytes
  import opened Identity
  import opened BigEndian

  function Xor(a: Signatory, b: Signatory): Signatory {
    seq(32, i requires 0 <= i < 32 => XorByte(a[i], b[i]))
  }

  /** The distance from `self` to `p`: the 256-bit number that their bytes XOR to. */
  function Dist(self: Signatory, p: Signatory): nat {
    Value(Xor(self, p))
  }

  /** Distances are distinct: only one signatory lies at each. */
  lemma DistIsInjective(self: Signatory, p: Signatory, q: Signatory)
    ensures Dist(self, p) == Dist(self, q) <==> p == q
  {
    if Dist(self, p) == Dist(self, q) {
      DigitsOfValue(Xor(self, p));
      DigitsOfValue(Xor(self, q));
      assert Xor(self, p) == Xor(self, q);
      forall i | 0 <= i < 32
        ensures p[i] == q[i]
      {
        assert Xor(self, p)[i] == Xor(self, q)[i];
        BitXorCancels(self[i] as int, p[i] as int, q[i] as int);
      }
    }
  }

  /** Comparing byte by byte, the first difference deciding, is comparing the numbers. */
  method IsCloser(self: Signatory, fst: Signatory, snd: Signatory) returns (closer: bool)
    ensures closer <==> Dist(self, fst) < Dist(self, snd)
  {
    ghost var x, y := Xor(self, fst), Xor(self, snd);
    for b := 0 to 32
      invariant x[..b] == y[..b]
    {
      var d1 := XorByte(self[b], fst[b]);
      var d2 := XorByte(self[b], snd[b]);
      if d1 < d2 {
        FirstDifferenceDecides(x, y, b);
        return true;
      }
      if d2 < d1 {
        FirstDifferenceDecides(y, x, b);
        return false;
      }
    }
    assert x == x[..32] == y[..32] == y;
    return false;
  }
}
