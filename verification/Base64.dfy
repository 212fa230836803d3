/** Unpadded base64 with the URL-safe alphabet (section 5 of RFC 4648). */
module Base64 {
  import opened Wrappers
  import opened Bytes

  type Sextet = x: int | 0 <= x < 64

  function Letter(v: Sextet): char {
    if v < 26 then ('A' as int + v) as char
    else if v < 52 then ('a' as int + (v - 26)) as char
    else if v < 62 then ('0' as int + (v - 52)) as char
    else if v == 62 then '-'
    else '_'
  }

  function SextetOf(c: char): Option<Sextet> {
    if 'A' <= c <= 'Z' then Some(c as int - 'A' as int)
    else if 'a' <= c <= 'z' then Some(c as int - 'a' as int + 26)
    else if '0' <= c <= '9' then Some(c as int - '0' as int + 52)
    else if c == '-' then Some(62)
    else if c == '_' then Some(63)
    else None
  }

  lemma LetterReadsBack(v: Sextet)
    ensures SextetOf(Letter(v)) == Some(v)
    ensures Letter(v) != '/' && Letter(v) != '\r' && Letter(v) != '\n'
  {
  }

  function High(a: Byte): Sextet {
    a as int / 4
  }

  function Upper(a: Byte, b: Byte): Sextet {
    a as int % 4 * 16 + b as int / 16
  }

  function Lower(b: Byte, c: Byte): Sextet {
    b as int % 16 * 4 + c as int / 64
  }

  function Low(c: Byte): Sextet {
    c as int % 64
  }

  /** The sextets of three bytes at a time; missing bytes count as zero. */
  function Sextets(b: seq<Byte>): seq<Sextet>
    decreases |b|
  {
    if b == [] then []
    else if |b| == 1 then [High(b[0]), Upper(b[0], 0)]
    else if |b| == 2 then [High(b[0]), Upper(b[0], b[1]), Lower(b[1], 0)]
    else [High(b[0]), Upper(b[0], b[1]), Lower(b[1], b[2]), Low(b[2])] + Sextets(b[3..])
  }

  function Letters(v: seq<Sextet>): string {
    seq(|v|, i requires 0 <= i < |v| => Letter(v[i]))
  }

  function Encode(b: seq<Byte>): string {
    Letters(Sextets(b))
  }

  /** Line breaks are skipped; any other character outside the alphabet fails. */
  function ReadLetters(s: string): Option<seq<Sextet>> {
    if s == [] then Some([])
    else if s[0] == '\r' || s[0] == '\n' then ReadLetters(s[1..])
    else
      match (SextetOf(s[0]), ReadLetters(s[1..]))
      case (Some(v), Some(rest)) => Some([v] + rest)
      case _ => None
  }

  function First(a: Sextet, b: Sextet): Byte {
    (a as int * 4 + b as int / 16) as Byte
  }

  function Second(b: Sextet, c: Sextet): Byte {
    (b as int % 16 * 16 + c as int / 4) as Byte
  }

  function Third(c: Sextet, d: Sextet): Byte {
    (c as int % 4 * 64 + d as int) as Byte
  }

  /** The bytes of a run of sextets; a single left-over one fails, left-over bits are dropped. */
  function Octets(v: seq<Sextet>): Option<seq<Byte>>
    decreases |v|
  {
    if v == [] then Some([])
    else if |v| == 1 then None
    else if |v| == 2 then Some([First(v[0], v[1])])
    else if |v| == 3 then Some([First(v[0], v[1]), Second(v[1], v[2])])
    else
      match Octets(v[4..])
      case None => None
      case Some(rest) => Some([First(v[0], v[1]), Second(v[1], v[2]), Third(v[2], v[3])] + rest)
  }

  function Decode(s: string): Option<seq<Byte>> {
    match ReadLetters(s)
    case None => None
    case Some(v) => Octets(v)
  }

  lemma {:induction false} LettersReadBack(v: seq<Sextet>)
    ensures ReadLetters(Letters(v)) == Some(v)
    ensures '/' !in Letters(v)
    decreases |v|
  {
    if v != [] {
      LetterReadsBack(v[0]);
      LettersReadBack(v[1..]);
      assert Letters(v)[1..] == Letters(v[1..]);
      assert Letters(v) == [Letter(v[0])] + Letters(v[1..]);
      assert v == [v[0]] + v[1..];
    }
  }

  /** Three bytes come back out of the four sextets that they were spread over. */
  lemma BytesComeBack(a: Byte, b: Byte, c: Byte)
    ensures First(High(a), Upper(a, b)) == a
    ensures Second(Upper(a, b), Lower(b, c)) == b
    ensures Third(Lower(b, c), Low(c)) == c
  {
    var m, n, o := a as int, b as int, c as int;
    assert (m % 4 * 16 + n / 16) / 16 == m % 4 && (m % 4 * 16 + n / 16) % 16 == n / 16;
    assert (n % 16 * 4 + o / 64) / 4 == n % 16 && (n % 16 * 4 + o / 64) % 4 == o / 64;
  }

  lemma OctetsOfTwo(v: seq<Sextet>)
    requires |v| == 2
    ensures Octets(v) == Some([First(v[0], v[1])])
  {
  }

  lemma OneReadsBack(a: Byte, zero: Byte)
    requires zero == 0
    ensures Octets([High(a), Upper(a, zero)]) == Some([a])
  {
    OctetsOfTwo([High(a), Upper(a, zero)]);
    BytesComeBack(a, zero, zero);
  }

  lemma TwoReadBack(a: Byte, b: Byte)
    ensures Octets([High(a), Upper(a, b), Lower(b, 0)]) == Some([a, b])
  {
    BytesComeBack(a, b, 0);
  }

  lemma ThreeReadBack(a: Byte, b: Byte, c: Byte, rest: seq<Sextet>, bytes: seq<Byte>)
    requires Octets(rest) == Some(bytes)
    ensures Octets([High(a), Upper(a, b), Lower(b, c), Low(c)] + rest) == Some([a, b, c] + bytes)
  {
    BytesComeBack(a, b, c);
    var v := [High(a), Upper(a, b), Lower(b, c), Low(c)] + rest;
    assert v[4..] == rest;
    assert Octets(v) == Some([First(v[0], v[1]), Second(v[1], v[2]), Third(v[2], v[3])] + bytes);
  }

  lemma SextetsUnfold(b: seq<Byte>)
    ensures |b| == 1 ==> Sextets(b) == [High(b[0]), Upper(b[0], 0)]
    ensures |b| == 2 ==> Sextets(b) == [High(b[0]), Upper(b[0], b[1]), Lower(b[1], 0)]
    ensures |b| > 2 ==>
              Sextets(b) == [High(b[0]), Upper(b[0], b[1]), Lower(b[1], b[2]), Low(b[2])] + Sextets(b[3..])
  {
  }

  lemma {:induction false} SextetsReadBack(b: seq<Byte>)
    ensures Octets(Sextets(b)) == Some(b)
    decreases |b|
  {
    SextetsUnfold(b);
    if |b| == 1 {
      OneReadsBack(b[0], 0);
      assert b == [b[0]];
    } else if |b| == 2 {
      TwoReadBack(b[0], b[1]);
      assert b == [b[0], b[1]];
    } else if |b| > 2 {
      SextetsReadBack(b[3..]);
      ThreeReadBack(b[0], b[1], b[2], Sextets(b[3..]), b[3..]);
      assert b == [b[0], b[1], b[2]] + b[3..];
    }
  }

  /** A whole number of bytes comes from any number of sextets but one more than a multiple of four. */
  lemma {:induction false} OctetsFailIff(v: seq<Sextet>)
    ensures Octets(v).None? <==> |v| % 4 == 1
    decreases |v|
  {
    if |v| >= 4 {
      OctetsFailIff(v[4..]);
      OctetsOfMore(v);
      FourLess(|v|);
    } else {
      OctetsOfFew(v);
    }
  }

  lemma OctetsOfFew(v: seq<Sextet>)
    requires |v| < 4
    ensures Octets(v).None? <==> |v| == 1
  {
  }

  lemma OctetsOfMore(v: seq<Sextet>)
    requires |v| >= 4
    ensures Octets(v).None? <==> Octets(v[4..]).None?
  {
  }

  lemma FourLess(n: nat)
    requires n >= 4
    ensures n % 4 == (n - 4) % 4
  {
  }

  /** Line breaks may stand anywhere. */
  lemma {:induction false} LineBreaksAreSkipped(a: string, b: string)
    ensures ReadLetters(a + "\n" + b) == ReadLetters(a + b) && ReadLetters(a + "\r" + b) == ReadLetters(a + b)
  {
    if a == [] {
      assert (a + "\n" + b)[1..] == b && (a + "\r" + b)[1..] == b && a + b == b;
    } else {
      LineBreaksAreSkipped(a[1..], b);
      assert (a + "\n" + b)[1..] == a[1..] + "\n" + b && (a + "\r" + b)[1..] == a[1..] + "\r" + b;
      assert (a + b)[1..] == a[1..] + b;
    }
  }

  /** Any other character outside the alphabet is refused. */
  lemma {:induction false} ForeignCharactersFail(s: string, i: nat)
    requires i < |s| && SextetOf(s[i]).None? && s[i] != '\n' && s[i] != '\r'
    ensures ReadLetters(s) == None && Decode(s) == None
  {
    if i > 0 {
      ForeignCharactersFail(s[1..], i - 1);
    }
  }

  /** Test vectors of section 10 of RFC 4648, without padding, and the two letters of section 5. */
  lemma KnownEncodings()
    ensures Encode([]) == "" && Encode([0x66]) == "Zg" && Encode([0x66, 0x6F]) == "Zm8"
    ensures Encode([0x66, 0x6F, 0x6F]) == "Zm9v" && Encode([0xFB, 0xF0]) == "-_A"
  {
    SextetsUnfold([0x66]);
    SextetsUnfold([0x66, 0x6F]);
    var foo: seq<Byte> := [0x66, 0x6F, 0x6F];
    SextetsUnfold(foo);
    assert foo[3..] == [];
    SextetsUnfold([0xFB, 0xF0]);
  }

  /** Decoding undoes encoding for byte strings of every length, and encoding never uses a slash. */
  lemma EncodeReadsBack(b: seq<Byte>)
    ensures Decode(Encode(b)) == Some(b) && '/' !in Encode(b)
  {
    LettersReadBack(Sextets(b));
    SextetsReadBack(b);
  }
}
