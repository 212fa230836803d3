/** Big integers as fixed-width big-endian bytes, as the handshake sends public keys. */
module Ecies {
  import opened Wrappers
  import opened Bytes
  import opened BigEndian

  /** The absolute value of a big integer is kept as words of `size` bytes, least significant first. */
  function WordsValue(words: seq<nat>, size: nat): nat {
    if words == [] then 0 else words[0] + Pow256(size) * WordsValue(words[1..], size)
  }

  predicate AreWords(words: seq<nat>, size: nat) {
    forall i :: 0 <= i < |words| ==> words[i] < Pow256(size)
  }

  lemma {:induction false} ValueCons(x: Byte, b: seq<Byte>)
    ensures Value([x] + b) == x as int * Pow256(|b|) + Value(b)
  {
    if b == [] {
      assert [x] + b == [x];
      assert [x][..0] == [] && Value([x][..0]) == 0;
    } else {
      var init, last := b[..|b| - 1], b[|b| - 1];
      ValueCons(x, init);
      assert [x] + b == ([x] + init) + [last] && b == init + [last];
      ValueSnoc([x] + init, last);
      ValueSnoc(init, last);
      MulSwap(x as int, Pow256(|init|));
    }
  }

  lemma MulSwap(x: int, p: int)
    ensures 256 * (x * p) == x * (256 * p)
  {
  }

  lemma {:induction false} ZerosInFront(z: seq<Byte>, b: seq<Byte>)
    requires forall i :: 0 <= i < |z| ==> z[i] == 0
    ensures Value(z + b) == Value(b)
  {
    if z == [] {
      assert z + b == b;
    } else {
      assert z + b == [z[0]] + (z[1..] + b);
      ValueCons(z[0], z[1..] + b);
      ZerosInFront(z[1..], b);
    }
  }

  /** One byte moved from the rest of the value into the buffer. */
  lemma MoveByte(total: nat, done: seq<Byte>, rest: nat)
    requires total == Value(done) + Pow256(|done|) * rest
    ensures total == Value([(rest % 256) as Byte] + done) + Pow256(|done| + 1) * (rest / 256)
  {
    var p, low, high := Pow256(|done|), rest % 256, rest / 256;
    ValueCons(low as Byte, done);
    MulSplit(p, rest, low, high);
    assert Pow256(|done| + 1) == 256 * p;
  }

  lemma MulSplit(p: nat, rest: nat, low: nat, high: nat)
    requires rest == low + 256 * high
    ensures p * rest == low * p + (256 * p) * high
  {
    assert p * rest == p * low + p * (256 * high);
    MulSwap(p, high);
    MulRegroup(p, high);
  }

  lemma MulRegroup(p: int, high: int)
    ensures 256 * (p * high) == (256 * p) * high
  {
  }

  /** Taking the low byte off a word, with the later words behind it. */
  lemma LowByte(d: nat, size: nat, later: nat)
    requires size > 0
    ensures (d + Pow256(size) * later) % 256 == d % 256
    ensures (d + Pow256(size) * later) / 256 == d / 256 + Pow256(size - 1) * later
    ensures d < Pow256(size) ==> d / 256 < Pow256(size - 1)
  {
    var p := Pow256(size - 1);
    assert Pow256(size) * later == 256 * (p * later) by {
      assert (256 * p) * later == 256 * (p * later);
    }
  }

  /** The state of the loops: `i` bytes are left, and `rest` is the value still to be written. */
  ghost predicate Written(buf: seq<Byte>, i: nat, total: nat, rest: nat) {
    && i <= |buf|
    && (forall k :: 0 <= k < i ==> buf[k] == 0)
    && total == Value(buf[i..]) + Pow256(|buf| - i) * rest
  }

  /** One turn of the inner loop. */
  lemma WriteByte(before: seq<Byte>, after: seq<Byte>, i: nat, total: nat, d: nat, left: nat, later: nat)
    requires 0 < i && left > 0 && Written(before, i, total, d + Pow256(left) * later)
    requires after == before[i - 1 := (d % 256) as Byte]
    ensures Written(after, i - 1, total, d / 256 + Pow256(left - 1) * later)
    ensures d < Pow256(left) ==> d / 256 < Pow256(left - 1)
  {
    LowByte(d, left, later);
    MoveByte(total, before[i..], d + Pow256(left) * later);
    assert after[i - 1..] == [(d % 256) as Byte] + before[i..];
  }

  /** The inner loop: the bytes of one word, as long as there is room. */
  method WriteWord(word: nat, size: nat, buf: array<Byte>, start: nat, ghost total: nat, ghost later: nat)
    returns (i: nat, ghost rest: nat)
    requires word < Pow256(size)
    requires Written(buf[..], start, total, word + Pow256(size) * later)
    modifies buf
    ensures Written(buf[..], i, total, rest)
    ensures i > 0 ==> rest == later
  {
    i := start;
    var d: nat := word;
    var left: nat := size;
    while left > 0 && i > 0
      invariant d < Pow256(left)
      invariant Written(buf[..], i, total, d + Pow256(left) * later)
    {
      ghost var before := buf[..];
      WriteByte(before, before[i - 1 := (d % 256) as Byte], i, total, d, left, later);
      i := i - 1;
      buf[i] := (d % 256) as Byte;
      assert buf[..] == before[i := (d % 256) as Byte];
      d := d / 256;
      left := left - 1;
    }
    rest := d + Pow256(left) * later;
  }

  /**
    Into a zeroed buffer of any length, the loop writes the value of any number of words,
    reduced to what the buffer can hold.
   */
  method ReadBits(words: seq<nat>, size: nat, buf: array<Byte>)
    requires AreWords(words, size) && forall k :: 0 <= k < buf.Length ==> buf[k] == 0
    modifies buf
    ensures Value(buf[..]) == WordsValue(words, size) % Pow256(buf.Length)
  {
    ghost var total := WordsValue(words, size);
    var i: nat := buf.Length;
    ghost var rest: nat := total;
    assert buf[..][i..] == [];
    for w := 0 to |words|
      invariant Written(buf[..], i, total, rest)
      invariant i > 0 ==> rest == WordsValue(words[w..], size)
    {
      if i > 0 {
        assert words[w..][0] == words[w] && words[w..][1..] == words[w + 1..];
        i, rest := WriteWord(words[w], size, buf, i, total, WordsValue(words[w + 1..], size));
      }
    }
    ReadBitsResult(buf[..], i, total, rest);
  }

  lemma ReadBitsResult(b: seq<Byte>, i: nat, total: nat, rest: nat)
    requires Written(b, i, total, rest) && (i > 0 ==> rest == 0)
    ensures Value(b) == total % Pow256(|b|)
  {
    assert b == b[..i] + b[i..];
    ZerosInFront(b[..i], b[i..]);
    ValueIsBounded(b);
    if i > 0 {
      assert total == Value(b);
      RemainderIs(total, Pow256(|b|), 0, Value(b));
    } else {
      assert b[0..] == b;
      RemainderIs(total, Pow256(|b|), rest, Value(b));
    }
  }

  // ----- padding to 32 bytes

  function BitLen(x: nat): nat {
    if x == 0 then 0 else 1 + BitLen(x / 2)
  }

  lemma {:induction false} BitLenBounds(x: nat, k: nat)
    ensures BitLen(x) <= k <==> x < Pow2(k)
    decreases x
  {
    if x > 0 {
      if k > 0 {
        BitLenBounds(x / 2, k - 1);
        assert Pow2(k) == 2 * Pow2(k - 1);
      }
    }
  }

  lemma {:induction false} Pow256IsPow2(k: nat)
    ensures Pow256(k) == Pow2(8 * k)
  {
    if k > 0 {
      Pow256IsPow2(k - 1);
      var n: nat := 8 * (k - 1);
      assert Pow2(n + 8) == 256 * Pow2(n) by {
        EightMore(n);
      }
    }
  }

  lemma EightMore(n: nat)
    ensures Pow2(n + 8) == 256 * Pow2(n)
  {
    assert Pow2(n + 1) == 2 * Pow2(n);
    assert Pow2(n + 2) == 2 * Pow2(n + 1);
    assert Pow2(n + 3) == 2 * Pow2(n + 2);
    assert Pow2(n + 4) == 2 * Pow2(n + 3);
    assert Pow2(n + 5) == 2 * Pow2(n + 4);
    assert Pow2(n + 6) == 2 * Pow2(n + 5);
    assert Pow2(n + 7) == 2 * Pow2(n + 6);
    assert Pow2(n + 8) == 2 * Pow2(n + 7);
  }

  /** The 32 bytes sent for `x`, or `None` for the panic of a number that is found too big. */
  function Padded(x: nat): Option<seq<Byte>> {
    if BitLen(x) / 8 > 32 then None else Some(Digits(x, 32))
  }

  method PaddedTo32(words: seq<nat>, size: nat) returns (r: Option<seq<Byte>>)
    requires AreWords(words, size)
    ensures r == Padded(WordsValue(words, size))
  {
    if BitLen(WordsValue(words, size)) / 8 > 32 {
      return None;
    }
    var ret := new Byte[32](_ => 0);
    ReadBits(words, size, ret);
    SameDigits(WordsValue(words, size), ret[..], 32);
    return Some(ret[..]);
  }

  lemma SameDigits(x: nat, b: seq<Byte>, k: nat)
    requires |b| == k && Value(b) == x % Pow256(k)
    ensures b == Digits(x, k)
  {
    ValueOfDigits(x, k);
    DigitsOfValue(b);
    DigitsOfValue(Digits(x, k));
  }

  lemma {:induction false} Pow2Grows(a: nat, b: nat)
    requires a < b
    ensures Pow2(a) < Pow2(b)
  {
    if a + 1 < b {
      Pow2Grows(a, b - 1);
    }
  }

  /** Keeping the remainder loses nothing exactly when the number is below the modulus. */
  lemma RemainderKeepsIff(x: nat, m: nat)
    requires m > 0
    ensures x % m == x <==> x < m
  {
    if x < m {
      RemainderIs(x, m, 0, x);
    }
  }

  /** A number of `bytes` digits reads back as its remainder modulo a power of two. */
  lemma DigitsKeepRemainder(x: nat, bytes: nat)
    ensures Value(Digits(x, bytes)) == x % Pow2(8 * bytes)
  {
    ValueOfDigits(x, bytes);
    Pow256IsPow2(bytes);
  }

  /** A limit of `bytes` on the whole bytes of a bit length admits seven bits more. */
  lemma RefusedIff(x: nat, bytes: nat)
    ensures BitLen(x) / 8 > bytes <==> x >= Pow2(8 * bytes + 7)
  {
    BitLenBounds(x, 8 * bytes + 7);
  }

  /** A padding to `bytes` bytes that refuses numbers of more than `8 * bytes + 7` bits. */
  lemma PaddingReadsBack(x: nat, bytes: nat)
    ensures BitLen(x) / 8 > bytes <==> x >= Pow2(8 * bytes + 7)
    ensures Value(Digits(x, bytes)) == x % Pow2(8 * bytes)
    ensures Value(Digits(x, bytes)) == x <==> x < Pow2(8 * bytes)
    ensures Pow2(8 * bytes) < Pow2(8 * bytes + 7)
  {
    RefusedIff(x, bytes);
    DigitsKeepRemainder(x, bytes);
    RemainderKeepsIff(x, Pow2(8 * bytes));
    Pow2Grows(8 * bytes, 8 * bytes + 7);
  }

  /**
    Reading the bytes back gives the number if and only if it is below 2^256. Numbers from
    2^256 up to 2^263 are neither refused nor kept: their upper bits are dropped.
   */
  lemma PaddedReadsBackIff(x: nat)
    ensures Padded(x).None? <==> x >= Pow2(263)
    ensures Padded(x).Some? ==> Value(Padded(x).value) == x % Pow2(256)
    ensures (Padded(x).Some? && Value(Padded(x).value) == x) <==> x < Pow2(256)
  {
    PaddingReadsBack(x, 32);
  }
}
