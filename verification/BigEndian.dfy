/** Big-endian byte strings and the numbers that they stand for. */
module BigEndian {
  import opened Bytes

  function Pow256(k: nat): (p: nat)
    ensures p > 0
  {
    if k == 0 then 1 else 256 * Pow256(k - 1)
  }

  /** The number whose big-endian digits are `b`. */
  function Value(b: seq<Byte>): nat {
    if b == [] then 0 else 256 * Value(b[..|b| - 1]) + b[|b| - 1] as int
  }

  /** The last `k` big-endian digits of `n`. */
  function Digits(n: nat, k: nat): (b: seq<Byte>)
    ensures |b| == k
  {
    if k == 0 then [] else Digits(n / 256, k - 1) + [(n % 256) as Byte]
  }

  lemma ModStep(n: nat, p: nat)
    requires p > 0
    ensures 256 * (n / 256 % p) + n % 256 == n % (256 * p)
  {
    var q, r := n / 256, n % 256;
    var qq, qr := q / p, q % p;
    assert q == qq * p + qr;
    assert n == 256 * (qq * p) + (256 * qr + r);
    assert 256 * (qq * p) == (256 * p) * qq;
    assert 0 <= 256 * qr + r < 256 * p;
    RemainderIs(n, 256 * p, qq, 256 * qr + r);
  }

  lemma RemainderIs(n: nat, d: nat, q: nat, r: nat)
    requires d > 0 && n == d * q + r && r < d
    ensures n % d == r && n / d == q
  {
    if n / d < q {
      MulLess(d, n / d, q);
      assert false;
    } else if q < n / d {
      MulLess(d, q, n / d);
      assert false;
    }
  }

  lemma MulLess(d: nat, a: nat, b: nat)
    requires a < b
    ensures d * a + d <= d * b
  {
    assert d * (a + 1) <= d * b;
  }

  /** Reading the digits back gives the number, as far as that many digits reach. */
  lemma {:induction false} ValueOfDigits(n: nat, k: nat)
    ensures Value(Digits(n, k)) == n % Pow256(k)
    decreases k
  {
    if k != 0 {
      ValueOfDigits(n / 256, k - 1);
      ValueSnoc(Digits(n / 256, k - 1), (n % 256) as Byte);
      ModStep(n, Pow256(k - 1));
    }
  }

  lemma ValueSnoc(b: seq<Byte>, digit: Byte)
    ensures Value(b + [digit]) == 256 * Value(b) + digit as int
  {
    assert (b + [digit])[..|b|] == b;
  }

  lemma DigitsReadBack(n: nat, k: nat)
    requires n < Pow256(k)
    ensures Value(Digits(n, k)) == n
  {
    ValueOfDigits(n, k);
    RemainderIs(n, Pow256(k), 0, n);
  }

  lemma {:induction false} ValueIsBounded(b: seq<Byte>)
    ensures Value(b) < Pow256(|b|)
  {
    if b != [] {
      ValueIsBounded(b[..|b| - 1]);
    }
  }

  /** Byte strings of one length are equal exactly when their numbers are. */
  lemma {:induction false} DigitsOfValue(b: seq<Byte>)
    ensures Digits(Value(b), |b|) == b
  {
    if b != [] {
      var init, last := b[..|b| - 1], b[|b| - 1];
      DigitsOfValue(init);
      var n := Value(b);
      assert n == 256 * Value(init) + last as int;
      assert n / 256 == Value(init) && n % 256 == last as int;
      assert b == init + [last];
    }
  }

  /** The first byte in which two strings of one length differ decides which number is smaller. */
  lemma {:induction false} FirstDifferenceDecides(a: seq<Byte>, b: seq<Byte>, i: nat)
    requires i < |a| == |b| && a[..i] == b[..i] && a[i] < b[i]
    ensures Value(a) < Value(b)
  {
    var n := |a| - 1;
    var a', b' := a[..n], b[..n];
    if i == n {
      assert a' == b';
    } else {
      assert a'[..i] == a[..i] && b'[..i] == b[..i];
      FirstDifferenceDecides(a', b', i);
      assert 256 * Value(a') + 256 <= 256 * Value(b');
    }
  }
}
