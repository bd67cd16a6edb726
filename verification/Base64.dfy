/** Go's base64.RawStdEncoding: the alphabet of section 4 of RFC 4648, with the padding
    omitted as section 3.2 allows.
 */
module Base64 {
  import opened GoStrings

  type Octet = x: nat | x < 256
  type Sextet = x: nat | x < 64

  // ---- the regrouping of bits

  function First(a: Octet): Sextet { a / 4 }
  function Second(a: Octet, b: Octet): Sextet { a % 4 * 16 + b / 16 }
  function Third(b: Octet, c: Octet): Sextet { b % 16 * 4 + c / 64 }
  function Fourth(c: Octet): Sextet { c % 64 }

  function High(p: Sextet, q: Sextet): Octet { p * 4 + q / 16 }
  function Middle(q: Sextet, u: Sextet): Octet { q % 16 * 16 + u / 4 }
  function Low(u: Sextet, v: Sextet): Octet { u % 4 * 64 + v }

  lemma Regroup(a: Octet, b: Octet, c: Octet)
    ensures High(First(a), Second(a, b)) == a
    ensures Middle(Second(a, b), Third(b, c)) == b
    ensures Low(Third(b, c), Fourth(c)) == c
  {
  }

  /** Three octets make four sextets; one or two octets left over make two or three. */
  function Sextets(s: seq<Octet>): seq<Sextet>
    decreases |s|
  {
    if s == [] then []
    else if |s| == 1 then [First(s[0]), Second(s[0], 0)]
    else if |s| == 2 then [First(s[0]), Second(s[0], s[1]), Third(s[1], 0)]
    else [First(s[0]), Second(s[0], s[1]), Third(s[1], s[2]), Fourth(s[2])] + Sextets(s[3..])
  }

  /** None when a single sextet is left over. The unused low bits of the last sextet are
      ignored: the decoder is not strict. */
  function Octets(t: seq<Sextet>): Option<seq<Octet>>
    decreases |t|
  {
    if t == [] then Some([])
    else if |t| == 1 then None
    else if |t| == 2 then Some([High(t[0], t[1])])
    else if |t| == 3 then Some([High(t[0], t[1]), Middle(t[1], t[2])])
    else match Octets(t[4..])
      case None => None
      case Some(rest) => Some([High(t[0], t[1]), Middle(t[1], t[2]), Low(t[2], t[3])] + rest)
  }

  lemma OctetsQuad(p: Sextet, q: Sextet, u: Sextet, v: Sextet, rest: seq<Sextet>)
    requires Octets(rest).Some?
    ensures Octets([p, q, u, v] + rest) == Some([High(p, q), Middle(q, u), Low(u, v)] + Octets(rest).value)
  {
    assert ([p, q, u, v] + rest)[4..] == rest;
  }

  lemma OneOctet(a: Octet, zero: Octet)
    ensures Octets([First(a), Second(a, zero)]) == Some([a])
  {
    Regroup(a, zero, zero);
  }

  lemma TwoOctets(a: Octet, b: Octet, zero: Octet)
    ensures Octets([First(a), Second(a, b), Third(b, zero)]) == Some([a, b])
  {
    Regroup(a, b, zero);
  }

  lemma ThreeOctets(a: Octet, b: Octet, c: Octet, rest: seq<Sextet>)
    requires Octets(rest).Some?
    ensures Octets([First(a), Second(a, b), Third(b, c), Fourth(c)] + rest) == Some([a, b, c] + Octets(rest).value)
  {
    Regroup(a, b, c);
    OctetsQuad(First(a), Second(a, b), Third(b, c), Fourth(c), rest);
  }

  lemma {:induction false} OctetsSextets(s: seq<Octet>)
    ensures Octets(Sextets(s)) == Some(s)
    decreases |s|
  {
    if |s| == 1 {
      OneOctet(s[0], 0);
      assert s == [s[0]];
    } else if |s| == 2 {
      TwoOctets(s[0], s[1], 0);
      assert s == [s[0], s[1]];
    } else if |s| >= 3 {
      OctetsSextets(s[3..]);
      ThreeOctets(s[0], s[1], s[2], Sextets(s[3..]));
      assert s == [s[0], s[1], s[2]] + s[3..];
    }
  }

  // ---- the alphabet

  function Digit(i: Sextet): (c: char)
    ensures IsDigit(c) && ValueOf(c) == i
  {
    if i < 26 then ('A' as int + i) as char
    else if i < 52 then ('a' as int + i - 26) as char
    else if i < 62 then ('0' as int + i - 52) as char
    else if i == 62 then '+' else '/'
  }

  predicate IsDigit(c: char) {
    'A' <= c <= 'Z' || 'a' <= c <= 'z' || '0' <= c <= '9' || c == '+' || c == '/'
  }

  function ValueOf(c: char): Sextet
    requires IsDigit(c)
  {
    if 'A' <= c <= 'Z' then c as int - 'A' as int
    else if 'a' <= c <= 'z' then c as int - 'a' as int + 26
    else if '0' <= c <= '9' then c as int - '0' as int + 52
    else if c == '+' then 62 else 63
  }

  predicate AllDigits(t: string) {
    forall i :: 0 <= i < |t| ==> IsDigit(t[i])
  }

  // ---- encoding and decoding

  function Bytes(s: string): (b: seq<Octet>)
    ensures |b| == |s|
  {
    seq(|s|, i requires 0 <= i < |s| => s[i] as int % 256)
  }

  function Encode(s: string): (t: string)
    ensures AllDigits(t)
  {
    var x := Sextets(Bytes(s));
    seq(|x|, i requires 0 <= i < |x| => Digit(x[i]))
  }

  /** The decoder skips line ends anywhere in its input. */
  function StripLineEnds(t: string): (r: string)
    ensures AllDigits(t) ==> r == t
  {
    if t == "" then ""
    else if t[0] == '\n' || t[0] == '\r' then StripLineEnds(t[1..])
    else [t[0]] + StripLineEnds(t[1..])
  }

  function Values(t: string): (x: seq<Sextet>)
    requires AllDigits(t)
    ensures |x| == |t|
  {
    seq(|t|, i requires 0 <= i < |t| => ValueOf(t[i]))
  }

  function Decode(t: string): (r: Option<string>)
  {
    var s := StripLineEnds(t);
    if !AllDigits(s) then None
    else match Octets(Values(s))
      case None => None
      case Some(b) => Some(Chars(b))
  }

  function Chars(b: seq<Octet>): (s: string)
    ensures |s| == |b|
  {
    seq(|b|, i requires 0 <= i < |b| => b[i] as char)
  }

  lemma CharsBytes(s: string)
    requires IsByteString(s)
    ensures Chars(Bytes(s)) == s
  {
    forall i | 0 <= i < |s| ensures Chars(Bytes(s))[i] == s[i] {
      assert Bytes(s)[i] == s[i] as int;
    }
  }

  lemma ValuesEncode(s: string)
    ensures Values(Encode(s)) == Sextets(Bytes(s))
  {
  }

  /** Decoding undoes encoding on every byte string. */
  lemma DecodeEncode(s: string)
    requires IsByteString(s)
    ensures Decode(Encode(s)) == Some(s)
  {
    OctetsSextets(Bytes(s));
    ValuesEncode(s);
    CharsBytes(s);
  }

  // ---- the text bit by bit

  /** The low n bits, highest first. */
  function Bits(p: nat, n: nat): (b: seq<nat>)
    ensures |b| == n
  {
    if n == 0 then [] else Bits(p / 2, n - 1) + [p % 2]
  }

  function OctetBits(a: Octet): seq<nat> { Bits(a, 8) }
  function SextetBits(p: Sextet): seq<nat> { Bits(p, 6) }

  function Pow2(k: nat): nat {
    if k == 0 then 1 else 2 * Pow2(k - 1)
  }

  lemma Halve(p: nat, z: nat, bit: nat)
    requires p == 2 * z + bit && bit < 2
    ensures p / 2 == z && p % 2 == bit
  {
  }

  /** A number of n bits in front of one of k. */
  lemma {:induction false} BitsConcat(x: nat, y: nat, n: nat, k: nat)
    requires y < Pow2(k)
    ensures Bits(x * Pow2(k) + y, n + k) == Bits(x, n) + Bits(y, k)
  {
    if k == 0 {
      assert x * Pow2(0) + y == x;
    } else {
      var z := x * Pow2(k - 1) + y / 2;
      assert x * Pow2(k) == 2 * (x * Pow2(k - 1));
      assert y == 2 * (y / 2) + y % 2;
      Halve(x * Pow2(k) + y, z, y % 2);
      BitsConcat(x, y / 2, n, k - 1);
    }
  }

  lemma Powers()
    ensures Pow2(2) == 4 && Pow2(4) == 16 && Pow2(6) == 64
  {
    assert Pow2(0) == 1 && Pow2(1) == 2 && Pow2(3) == 8 && Pow2(5) == 32;
  }

  function AllOctetBits(s: seq<Octet>): seq<nat> {
    if s == [] then [] else OctetBits(s[0]) + AllOctetBits(s[1..])
  }

  function AllSextetBits(t: seq<Sextet>): seq<nat> {
    if t == [] then [] else SextetBits(t[0]) + AllSextetBits(t[1..])
  }

  lemma OctetParts(a: Octet)
    ensures OctetBits(a) == Bits(a / 4, 6) + Bits(a % 4, 2)
    ensures OctetBits(a) == Bits(a / 16, 4) + Bits(a % 16, 4)
    ensures OctetBits(a) == Bits(a / 64, 2) + Bits(a % 64, 6)
  {
    hide Bits;
    Powers();
    BitsConcat(a / 4, a % 4, 6, 2);
    BitsConcat(a / 16, a % 16, 4, 4);
    BitsConcat(a / 64, a % 64, 2, 6);
  }

  lemma FirstBits(a: Octet)
    ensures SextetBits(First(a)) == OctetBits(a)[..6]
  {
    hide Bits;
    OctetParts(a);
  }

  lemma SecondBits(a: Octet, b: Octet)
    ensures SextetBits(Second(a, b)) == OctetBits(a)[6..] + OctetBits(b)[..4]
  {
    hide Bits;
    OctetParts(a);
    OctetParts(b);
    Powers();
    BitsConcat(a % 4, b / 16, 2, 4);
  }

  lemma ThirdBits(b: Octet, c: Octet)
    ensures SextetBits(Third(b, c)) == OctetBits(b)[4..] + OctetBits(c)[..2]
  {
    hide Bits;
    OctetParts(b);
    OctetParts(c);
    Powers();
    BitsConcat(b % 16, c / 64, 4, 2);
  }

  lemma FourthBits(c: Octet)
    ensures SextetBits(Fourth(c)) == OctetBits(c)[2..]
  {
    hide Bits;
    OctetParts(c);
  }

  lemma ZeroBits()
    ensures OctetBits(0) == [0, 0, 0, 0, 0, 0, 0, 0]
  {
    assert Bits(0, 1) == [0] && Bits(0, 2) == [0, 0] && Bits(0, 3) == [0, 0, 0] && Bits(0, 4) == [0, 0, 0, 0];
    assert Bits(0, 5) == [0, 0, 0, 0, 0] && Bits(0, 6) == [0, 0, 0, 0, 0, 0] && Bits(0, 7) == [0, 0, 0, 0, 0, 0, 0];
  }

  /** How many unused bits the last sextet has. */
  function Unused(n: nat): nat {
    if n % 3 == 1 then 4 else if n % 3 == 2 then 2 else 0
  }

  function Zeros(n: nat): seq<nat> {
    seq(n, i => 0)
  }

  lemma GroupBits(s: seq<Octet>)
    requires |s| >= 3
    ensures AllSextetBits([First(s[0]), Second(s[0], s[1]), Third(s[1], s[2]), Fourth(s[2])])
         == OctetBits(s[0]) + OctetBits(s[1]) + OctetBits(s[2])
  {
    hide SextetBits, OctetBits, First, Second, Third, Fourth;
    FirstBits(s[0]);
    SecondBits(s[0], s[1]);
    ThirdBits(s[1], s[2]);
    FourthBits(s[2]);
    var t := [First(s[0]), Second(s[0], s[1]), Third(s[1], s[2]), Fourth(s[2])];
    FourSextets(t);
    Cut8(s[0]);
    Cut8(s[1]);
    Cut8(s[2]);
  }

  lemma Cut8(a: Octet)
    ensures |OctetBits(a)| == 8
  {
  }

  lemma SextetsCons(p: Sextet, rest: seq<Sextet>)
    ensures AllSextetBits([p] + rest) == SextetBits(p) + AllSextetBits(rest)
  {
    hide SextetBits;
    assert ([p] + rest)[1..] == rest;
  }

  lemma FourSextets(t: seq<Sextet>)
    requires |t| == 4
    ensures AllSextetBits(t) == SextetBits(t[0]) + SextetBits(t[1]) + SextetBits(t[2]) + SextetBits(t[3])
  {
    hide SextetBits, AllSextetBits;
    NoSextets();
    SextetsCons(t[3], []);
    SextetsCons(t[2], [t[3]]);
    SextetsCons(t[1], [t[2], t[3]]);
    SextetsCons(t[0], [t[1], t[2], t[3]]);
    assert [t[3]] + [] == [t[3]] && [t[2]] + [t[3]] == [t[2], t[3]] && [t[1]] + [t[2], t[3]] == [t[1], t[2], t[3]];
    assert [t[0]] + [t[1], t[2], t[3]] == t;
  }

  lemma NoSextets()
    ensures AllSextetBits([]) == [] && AllOctetBits([]) == []
  {
  }

  lemma OctetsCons(a: Octet, rest: seq<Octet>)
    ensures AllOctetBits([a] + rest) == OctetBits(a) + AllOctetBits(rest)
  {
    hide OctetBits;
    assert ([a] + rest)[1..] == rest;
  }

  lemma LastOne(a: Octet)
    ensures AllSextetBits([First(a), Second(a, 0)]) == AllOctetBits([a]) + Zeros(4)
  {
    hide SextetBits, OctetBits, First, Second, AllSextetBits, AllOctetBits;
    FirstBits(a);
    SecondBits(a, 0);
    ZeroBits();
    Cut8(a);
    NoSextets();
    SextetsCons(Second(a, 0), []);
    SextetsCons(First(a), [Second(a, 0)]);
    OctetsCons(a, []);
    assert [Second(a, 0)] + [] == [Second(a, 0)] && [First(a)] + [Second(a, 0)] == [First(a), Second(a, 0)] && [a] + [] == [a];
    assert OctetBits(0)[..4] == Zeros(4);
  }

  lemma LastTwo(a: Octet, b: Octet)
    ensures AllSextetBits([First(a), Second(a, b), Third(b, 0)]) == AllOctetBits([a, b]) + Zeros(2)
  {
    hide SextetBits, OctetBits, First, Second, Third, AllSextetBits, AllOctetBits;
    FirstBits(a);
    SecondBits(a, b);
    ThirdBits(b, 0);
    ZeroBits();
    Cut8(a);
    Cut8(b);
    NoSextets();
    SextetsCons(Third(b, 0), []);
    SextetsCons(Second(a, b), [Third(b, 0)]);
    SextetsCons(First(a), [Second(a, b), Third(b, 0)]);
    OctetsCons(b, []);
    OctetsCons(a, [b]);
    assert [Third(b, 0)] + [] == [Third(b, 0)] && [Second(a, b)] + [Third(b, 0)] == [Second(a, b), Third(b, 0)];
    assert [First(a)] + [Second(a, b), Third(b, 0)] == [First(a), Second(a, b), Third(b, 0)] && [b] + [] == [b] && [a] + [b] == [a, b];
    assert OctetBits(0)[..2] == Zeros(2);
  }

  lemma {:induction false} SextetBitsConcat(t: seq<Sextet>, u: seq<Sextet>)
    ensures AllSextetBits(t + u) == AllSextetBits(t) + AllSextetBits(u)
  {
    hide SextetBits;
    if t == [] {
      assert t + u == u;
    } else {
      assert (t + u)[1..] == t[1..] + u;
      SextetBitsConcat(t[1..], u);
    }
  }

  /** Main result: the sextets are the bits of the octets, six at a time, highest first, and the
      unused bits of the last one are zero (sections 3.5 and 4 of RFC 4648). */
  lemma {:induction false} SextetsAreBits(s: seq<Octet>)
    ensures AllSextetBits(Sextets(s)) == AllOctetBits(s) + Zeros(Unused(|s|))
    decreases |s|
  {
    hide SextetBits, OctetBits, First, Second, Third, Fourth, AllOctetBits, AllSextetBits;
    if s == [] {
      NoSextets();
    } else if |s| == 1 {
      LastOne(s[0]);
      assert s == [s[0]];
    } else if |s| == 2 {
      LastTwo(s[0], s[1]);
      assert s == [s[0], s[1]];
    } else {
      var t := [First(s[0]), Second(s[0], s[1]), Third(s[1], s[2]), Fourth(s[2])];
      SextetsAreBits(s[3..]);
      GroupBits(s);
      SextetBitsConcat(t, Sextets(s[3..]));
      OctetsCons(s[2], s[3..]);
      OctetsCons(s[1], s[2..]);
      OctetsCons(s[0], s[1..]);
      assert [s[2]] + s[3..] == s[2..] && [s[1]] + s[2..] == s[1..] && [s[0]] + s[1..] == s;
      assert Unused(|s[3..]|) == Unused(|s|);
    }
  }

  const ALPHABET := "ABCDEFGHIJKLMNOPQRSTUVWXYZ" + "abcdefghijklmnopqrstuvwxyz" + "0123456789+/"

  lemma UpperDigits(i: Sextet)
    requires i < 26
    ensures Digit(i) == "ABCDEFGHIJKLMNOPQRSTUVWXYZ"[i]
  {
  }

  lemma LowerDigits(i: Sextet)
    requires 26 <= i < 52
    ensures Digit(i) == "abcdefghijklmnopqrstuvwxyz"[i - 26]
  {
  }

  lemma OtherDigits(i: Sextet)
    requires 52 <= i
    ensures Digit(i) == "0123456789+/"[i - 52]
  {
  }

  /** Main result: the digits are those of table 1 of RFC 4648. */
  lemma DigitsOfTable(i: Sextet)
    ensures |ALPHABET| == 64 && Digit(i) == ALPHABET[i]
  {
    hide Digit;
    if i < 26 { UpperDigits(i); } else if i < 52 { LowerDigits(i); } else { OtherDigits(i); }
  }
}
