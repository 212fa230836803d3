/** Network addresses as text: printing them and reading them back. */
module Address {
  import opened Wrappers
  import opened Bytes
  import opened Base64

  const UINT64: nat := 0x1_0000_0000_0000_0000

  type Uint64 = n: nat | n < UINT64

  type Signature = s: seq<Byte> | |s| == 65 witness seq(65, _ => 0)

  const TCP: Byte := 1
  const UDP: Byte := 2
  const WEB_SOCKET: Byte := 3

  datatype Address = Address(protocol: Byte, value: string, nonce: Uint64, signature: Signature)

  function ProtocolName(p: Byte): string {
    if p == TCP then "tcp" else if p == UDP then "udp" else if p == WEB_SOCKET then "ws" else "unknown"
  }

  function ProtocolNamed(name: string): Option<Byte> {
    if name == "tcp" then Some(TCP)
    else if name == "udp" then Some(UDP)
    else if name == "ws" then Some(WEB_SOCKET)
    else None
  }

  /** The numbers of the protocols and their names. */
  lemma ProtocolNumbers(p: Byte)
    ensures ProtocolName(1) == "tcp" && ProtocolName(2) == "udp" && ProtocolName(3) == "ws"
    ensures p == 0 || p > 3 ==> ProtocolName(p) == "unknown" && ProtocolNamed(ProtocolName(p)) == None
    ensures 1 <= p <= 3 ==> ProtocolNamed(ProtocolName(p)) == Some(p)
  {
  }

  // ----- numbers

  function Decimal(n: nat): string {
    if n < 10 then [('0' as int + n) as char] else Decimal(n / 10) + [('0' as int + n % 10) as char]
  }

  /** The number that a string of digits spells, if it has nothing but digits. */
  function Spelled(s: string): Option<nat> {
    if s == [] then Some(0)
    else
      var c := s[|s| - 1];
      match Spelled(s[..|s| - 1])
      case None => None
      case Some(n) => if '0' <= c <= '9' then Some(10 * n + (c as int - '0' as int)) else None
  }

  /** Decimal, unsigned, at most 64 bits. */
  function ParseUint(s: string): Option<Uint64> {
    match Spelled(s)
    case None => None
    case Some(n) => if s == [] || n >= UINT64 then None else Some(n)
  }

  lemma {:induction false} DecimalReadsBack(n: nat)
    ensures Decimal(n) != [] && Spelled(Decimal(n)) == Some(n) && '/' !in Decimal(n)
  {
    if n < 10 {
      var c := ('0' as int + n) as char;
      assert [c][..0] == [] && Spelled([c][..0]) == Some(0);
    } else {
      DecimalReadsBack(n / 10);
      var c := ('0' as int + n % 10) as char;
      assert (Decimal(n / 10) + [c])[..|Decimal(n / 10)|] == Decimal(n / 10);
    }
  }

  /** Printed numbers are read exactly up to 64 bits. */
  lemma ParsesIff64Bits(n: nat)
    ensures ParseUint(Decimal(n)) == if n < 18446744073709551616 then Some(n) else None
  {
    DecimalReadsBack(n);
  }

  /** Decimal digits, most significant first. */
  lemma KnownDecimals()
    ensures Decimal(0) == "0" && Decimal(407) == "407"
  {
    assert Decimal(4) == "4" && Decimal(40) == "40";
  }

  // ----- splitting at slashes

  function Split(s: string): (parts: seq<string>)
    ensures |parts| >= 1
  {
    if s == [] then [[]]
    else
      var rest := Split(s[1..]);
      if s[0] == '/' then [[]] + rest else [[s[0]] + rest[0]] + rest[1..]
  }

  lemma {:induction false} SplitFirst(x: string, rest: string)
    requires '/' !in x
    ensures Split(x + "/" + rest) == [x] + Split(rest)
  {
    var s := x + "/" + rest;
    if x == [] {
      assert s[1..] == rest;
    } else {
      assert s[1..] == x[1..] + "/" + rest;
      SplitFirst(x[1..], rest);
      assert [x[0]] + x[1..] == x;
    }
  }

  lemma {:induction false} SplitWhole(x: string)
    requires '/' !in x
    ensures Split(x) == [x]
  {
    if x != [] {
      SplitWhole(x[1..]);
      assert [x[0]] + x[1..] == x;
    }
  }

  lemma {:induction false} SplitCounts(a: string, b: string)
    ensures |Split(a + "/" + b)| == |Split(a)| + |Split(b)|
  {
    var s := a + "/" + b;
    if a == [] {
      assert s[1..] == b;
    } else {
      assert s[1..] == a[1..] + "/" + b;
      SplitCounts(a[1..], b);
    }
  }

  lemma {:induction false} SplitWithSlash(a: string)
    ensures |Split(a)| == 1 <==> '/' !in a
  {
    if a != [] {
      SplitWithSlash(a[1..]);
      assert a == [a[0]] + a[1..];
    }
  }

  lemma {:induction false} PartsHaveNoSlash(s: string, i: nat)
    requires i < |Split(s)|
    ensures '/' !in Split(s)[i]
  {
    if s != [] {
      var rest := Split(s[1..]);
      if s[0] == '/' {
        if i > 0 {
          PartsHaveNoSlash(s[1..], i - 1);
        }
      } else {
        PartsHaveNoSlash(s[1..], i);
      }
    }
  }

  // ----- addresses

  function Body(a: Address): string {
    ProtocolName(a.protocol) + "/" + (a.value + "/" + (Decimal(a.nonce) + "/" + Encode(a.signature)))
  }

  function String(a: Address): string {
    "/" + Body(a)
  }

  function ReadParts(parts: seq<string>): Result<Address> {
    if |parts| != 4 then Err
    else
      match (ProtocolNamed(parts[0]), ParseUint(parts[2]), Decode(parts[3]))
      case (Some(protocol), Some(nonce), Some(signature)) =>
        if |signature| != 65 then Err else Ok(Address(protocol, parts[1], nonce, signature))
      case _ => Err
  }

  function DecodeString(s: string): Result<Address> {
    ReadParts(Split(if s != [] && s[0] == '/' then s[1..] else s))
  }

  predicate HasName(p: Byte) {
    p == TCP || p == UDP || p == WEB_SOCKET
  }

  lemma TailSplits(a: Address)
    ensures Split(Decimal(a.nonce) + "/" + Encode(a.signature)) == [Decimal(a.nonce), Encode(a.signature)]
  {
    DecimalReadsBack(a.nonce);
    EncodeReadsBack(a.signature);
    SplitFirst(Decimal(a.nonce), Encode(a.signature));
    SplitWhole(Encode(a.signature));
  }

  lemma BodySplits(a: Address)
    ensures |Split(Body(a))| == 4 <==> '/' !in a.value
    ensures '/' !in a.value ==>
              Split(Body(a)) == [ProtocolName(a.protocol), a.value, Decimal(a.nonce), Encode(a.signature)]
  {
    var tail := Decimal(a.nonce) + "/" + Encode(a.signature);
    TailSplits(a);
    SplitFirst(ProtocolName(a.protocol), a.value + "/" + tail);
    SplitCounts(a.value, tail);
    SplitWithSlash(a.value);
    if '/' !in a.value {
      SplitFirst(a.value, tail);
    }
  }

  /**
    Reading back a printed address gives the same address if and only if its protocol is one
    of those with a name and its value has no slash; otherwise it fails.
   */
  lemma PrintedReadsBackIff(a: Address)
    ensures DecodeString(String(a)) == if HasName(a.protocol) && '/' !in a.value then Ok(a) else Err
  {
    assert String(a)[1..] == Body(a);
    BodySplits(a);
    DecimalReadsBack(a.nonce);
    EncodeReadsBack(a.signature);
  }

  /** Protocol, value, nonce and signature stand in this order behind slashes. */
  lemma PrintedParts(a: Address)
    requires '/' !in a.value
    ensures Split(String(a)) == ["", ProtocolName(a.protocol), a.value, Decimal(a.nonce), Encode(a.signature)]
  {
    assert String(a)[0] == '/' && String(a)[1..] == Body(a);
    BodySplits(a);
  }

  /** One leading slash may be left out. */
  lemma LeadingSlashIsOptional(s: string)
    requires s == [] || s[0] != '/'
    ensures DecodeString("/" + s) == DecodeString(s)
  {
    assert ("/" + s)[1..] == s;
  }

  /** Every address that was read from text survives being printed and read again. */
  lemma ReadIsStable(s: string)
    ensures DecodeString(s).Ok? ==> DecodeString(String(DecodeString(s).value)) == DecodeString(s)
  {
    var t := if s != [] && s[0] == '/' then s[1..] else s;
    if DecodeString(s).Ok? {
      PartsHaveNoSlash(t, 1);
      PrintedReadsBackIff(DecodeString(s).value);
    }
  }
}
