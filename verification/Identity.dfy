/** Peer identities: 32-byte signatories and the byte-wise order between them. */
module Identity {
  import opened Bytes
  import opened BigEndian

  type Signatory = s: seq<Byte> | |s| == 32 witness seq(32, _ => 0)

  /** The three-way result of comparing two byte strings, first difference first. */
  datatype Order = Less | Same | Greater

  function Compare(a: seq<Byte>, b: seq<Byte>): Order {
    if a == [] && b == [] then Same
    else if a == [] then Less
    else if b == [] then Greater
    else if a[0] < b[0] then Less
    else if b[0] < a[0] then Greater
    else Compare(a[1..], b[1..])
  }

  function Flip(o: Order): Order {
    match o
    case Less => Greater
    case Same => Same
    case Greater => Less
  }

  /** The two ends of a connection see opposite orders, and `Same` only when they are equal. */
  lemma {:induction false} CompareIsAntisymmetric(a: seq<Byte>, b: seq<Byte>)
    ensures Compare(b, a) == Flip(Compare(a, b))
    ensures Compare(a, b) == Same <==> a == b
  {
    if a != [] && b != [] {
      CompareIsAntisymmetric(a[1..], b[1..]);
      assert a == [a[0]] + a[1..] && b == [b[0]] + b[1..];
    }
  }

  /** The first difference is what makes one of two identities the lesser. */
  lemma {:induction false} LessDiffers(a: seq<Byte>, b: seq<Byte>) returns (i: nat)
    requires |a| == |b| && Compare(a, b) == Less
    ensures i < |a| && a[..i] == b[..i] && a[i] < b[i]
  {
    if a[0] < b[0] {
      i := 0;
    } else {
      var k := LessDiffers(a[1..], b[1..]);
      i := k + 1;
      assert a[..i] == [a[0]] + a[1..][..k] && b[..i] == [b[0]] + b[1..][..k];
    }
  }

  /** Identities compare as the numbers that their bytes spell, most significant first. */
  lemma CompareIsNumeric(a: Signatory, b: Signatory)
    ensures Compare(a, b) == Less <==> Value(a) < Value(b)
    ensures Compare(a, b) == Greater <==> Value(a) > Value(b)
    ensures Compare(a, b) == Same <==> Value(a) == Value(b)
  {
    CompareIsAntisymmetric(a, b);
    if Compare(a, b) == Less {
      var i := LessDiffers(a, b);
      FirstDifferenceDecides(a, b, i);
    } else if Compare(a, b) == Greater {
      var i := LessDiffers(b, a);
      FirstDifferenceDecides(b, a, i);
    }
  }
}
