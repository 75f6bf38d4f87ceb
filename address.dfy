/**
 * The random address generators of the service worker. Every
 * `Math.random()` draw is a parameter: an IPv4 attempt is four draws, an IPv6
 * address is one coin for its first digit and 31 hex-digit draws.
 */
module Address {
  import opened Text
  import opened IpValidation

  // ---------------------------------------------------------------------
  // IPv4: rejection sampling

  /**
   * The four draws of one IPv4 attempt, each `Math.floor(Math.random() * n)`
   * for n = 223, 256, 256 and 254.
   */
  datatype Ipv4Draw = Ipv4Draw(a: nat, b: nat, c: nat, d: nat)

  predicate InRange(x: Ipv4Draw) {
    x.a < 223 && x.b < 256 && x.c < 256 && x.d < 254
  }

  datatype Octets = Octets(o1: nat, o2: nat, o3: nat, o4: nat)

  /** The attempt's octets: 1 + a, b, c and 1 + d. */
  function AttemptOctets(x: Ipv4Draw): Octets {
    Octets(x.a + 1, x.b, x.c, x.d + 1)
  }

  /** The guard of the generator: 10/8, 172.16/12, 192.168/16 or 127/8. */
  predicate Reserved(o: Octets) {
    o.o1 == 10 || (o.o1 == 172 && o.o2 >= 16 && o.o2 <= 31) || (o.o1 == 192 && o.o2 == 168) || o.o1 == 127
  }

  predicate Accepted(x: Ipv4Draw) { !Reserved(AttemptOctets(x)) }

  /**
   * A public unicast address as the generator promises it: first octet
   * 1..223 (no multicast or reserved block), last octet 1..254, and outside
   * the private blocks of section 3 of RFC 1918 and the loopback block 127/8.
   */
  predicate IsPublicIpv4(o: Octets) {
    1 <= o.o1 <= 223 && o.o2 <= 255 && o.o3 <= 255 && 1 <= o.o4 <= 254
    && o.o1 != 10 && o.o1 != 127
    && !(o.o1 == 172 && 16 <= o.o2 <= 31)
    && !(o.o1 == 192 && o.o2 == 168)
  }

  /** A supply of attempts for the generator, at least one of which it accepts. */
  predicate ValidIpv4Supply(draws: seq<Ipv4Draw>) {
    (forall k :: 0 <= k < |draws| ==> InRange(draws[k]))
    && exists k :: 0 <= k < |draws| && Accepted(draws[k])
  }

  /**
   * The octets `generateRandomIPv4` returns: the first attempt outside the
   * reserved ranges (each rejected attempt is a recursive call).
   */
  function SampleOctets(draws: seq<Ipv4Draw>): (o: Octets)
    requires ValidIpv4Supply(draws)
    ensures IsPublicIpv4(o)
  {
    if Accepted(draws[0]) then AttemptOctets(draws[0])
    else
      assert ValidIpv4Supply(draws[1..]) by {
        var k :| 0 <= k < |draws| && Accepted(draws[k]);
        assert draws[1..][k - 1] == draws[k];
      }
      SampleOctets(draws[1..])
  }

  function OctetList(o: Octets): seq<nat> { [o.o1, o.o2, o.o3, o.o4] }

  /** `${octet1}.${octet2}.${octet3}.${octet4}` */
  function DottedQuad(o: Octets): string {
    Join([NatToDecimal(o.o1), NatToDecimal(o.o2), NatToDecimal(o.o3), NatToDecimal(o.o4)], '.')
  }

  /** `generateRandomIPv4` */
  function GenerateIPv4(draws: seq<Ipv4Draw>): string
    requires ValidIpv4Supply(draws)
  {
    DottedQuad(SampleOctets(draws))
  }

  /**
   * A generated IPv4 address passes the form's `validateIPv4`, and its four
   * fields read back as the public octets that were drawn.
   */
  lemma GeneratedIPv4Valid(draws: seq<Ipv4Draw>)
    requires ValidIpv4Supply(draws)
    ensures ValidateIPv4(GenerateIPv4(draws))
    ensures var fields := SplitOn(GenerateIPv4(draws), '.');
            |fields| == 4 && IsPublicIpv4(SampleOctets(draws))
            && forall k :: 0 <= k < 4 ==> AllDigits(fields[k]) && DecimalValue(fields[k]) == OctetList(SampleOctets(draws))[k]
  {
    var o := SampleOctets(draws);
    var fields := [NatToDecimal(o.o1), NatToDecimal(o.o2), NatToDecimal(o.o3), NatToDecimal(o.o4)];
    forall k | 0 <= k < 4 ensures '.' !in fields[k] && IsOctetText(fields[k]) {
    }
    SplitOnJoin(fields, '.');
    JoinedOctetsAreIPv4(fields);
  }

  // ---------------------------------------------------------------------
  // IPv6: a 2000::/3 address, segment by segment

  const HexChars: string := "0123456789abcdef"

  /** 31 draws of `Math.floor(Math.random() * 16)`. */
  predicate ValidHexDraws(digits: seq<nat>) {
    |digits| == 31 && forall k :: 0 <= k < 31 ==> digits[k] < 16
  }

  /** The segment built from the four digit draws starting at `from`. */
  function HexSegment(digits: seq<nat>, from: nat): string
    requires ValidHexDraws(digits) && from + 4 <= 31
  {
    [HexChars[digits[from]], HexChars[digits[from + 1]], HexChars[digits[from + 2]], HexChars[digits[from + 3]]]
  }

  /** '2' or '3' (the coin), followed by three drawn digits. */
  function FirstSegment(firstIsTwo: bool, digits: seq<nat>): string
    requires ValidHexDraws(digits)
  {
    [if firstIsTwo then '2' else '3', HexChars[digits[0]], HexChars[digits[1]], HexChars[digits[2]]]
  }

  /** The eight segments: the first one, then seven of four drawn digits. */
  function Ipv6Segments(firstIsTwo: bool, digits: seq<nat>): seq<string>
    requires ValidHexDraws(digits)
  {
    [FirstSegment(firstIsTwo, digits)] + seq(7, i requires 0 <= i < 7 => HexSegment(digits, 3 + 4 * i))
  }

  function Ipv6Text(firstIsTwo: bool, digits: seq<nat>): string
    requires ValidHexDraws(digits)
  {
    Join(Ipv6Segments(firstIsTwo, digits), ':')
  }

  /** Four lower-case hex digits. */
  predicate LowerHexQuad(g: string) {
    |g| == 4 && forall k :: 0 <= k < 4 ==> IsLowerHexDigit(g[k])
  }

  /**
   * A generated IPv6 address is exactly eight ':'-separated groups of four
   * lower-case hex digits, the first digit being '2' or '3' (inside
   * 2000::/3), and it passes the form's full-form IPv6 check.
   */
  lemma Ipv6TextShape(firstIsTwo: bool, digits: seq<nat>)
    requires ValidHexDraws(digits)
    ensures var groups := SplitOn(Ipv6Text(firstIsTwo, digits), ':');
            |groups| == 8 && (forall k :: 0 <= k < 8 ==> LowerHexQuad(groups[k]))
            && (groups[0][0] == '2' || groups[0][0] == '3')
    ensures FullIPv6(Ipv6Text(firstIsTwo, digits))
  {
    var segments := Ipv6Segments(firstIsTwo, digits);
    forall k | 0 <= k < 8 ensures LowerHexQuad(segments[k]) && HexGroup(segments[k]) && ':' !in segments[k] {
    }
    SplitOnJoin(segments, ':');
    JoinedGroupsAreFullIPv6(segments);
  }

  /** `generateRandomIPv6`: pushes the first segment, then seven more in a loop, and joins them. */
  method GenerateIPv6(firstIsTwo: bool, digits: seq<nat>) returns (ip: string)
    requires ValidHexDraws(digits)
    ensures ip == Ipv6Text(firstIsTwo, digits)
  {
    var segments: seq<string> := [];
    var firstSegment := [if firstIsTwo then '2' else '3'] + [HexChars[digits[0]], HexChars[digits[1]], HexChars[digits[2]]];
    segments := segments + [firstSegment];
    assert firstSegment == FirstSegment(firstIsTwo, digits);
    assert segments == Ipv6Segments(firstIsTwo, digits)[..1];
    var i := 0;
    while i < 7
      invariant 0 <= i <= 7
      invariant segments == Ipv6Segments(firstIsTwo, digits)[..i + 1]
    {
      var segment := [HexChars[digits[3 + 4 * i]], HexChars[digits[4 + 4 * i]],
                      HexChars[digits[5 + 4 * i]], HexChars[digits[6 + 4 * i]]];
      segments := segments + [segment];
      assert segment == Ipv6Segments(firstIsTwo, digits)[i + 1];
      i := i + 1;
    }
    assert segments == Ipv6Segments(firstIsTwo, digits);
    ip := Join(segments, ':');
  }

  // ---------------------------------------------------------------------
  // generateRandomIp

  /** All the draws one address may consume. */
  datatype AddressDraw = AddressDraw(v4: seq<Ipv4Draw>, v6FirstIsTwo: bool, v6Digits: seq<nat>)

  predicate ValidAddressDraw(d: AddressDraw) {
    ValidIpv4Supply(d.v4) && ValidHexDraws(d.v6Digits)
  }

  /** The address `generateRandomIp(useIPv6)` returns for the draws `d`. */
  function RandomIp(useIPv6: bool, d: AddressDraw): string
    requires ValidAddressDraw(d)
  {
    if useIPv6 then Ipv6Text(d.v6FirstIsTwo, d.v6Digits) else GenerateIPv4(d.v4)
  }

  /** Whatever the generator returns passes the form's `validateIP`. */
  lemma RandomIpValid(useIPv6: bool, d: AddressDraw, otherForms: string -> bool)
    requires ValidAddressDraw(d)
    ensures ValidateIP(RandomIp(useIPv6, d), otherForms)
    ensures useIPv6 <==> FullIPv6(RandomIp(useIPv6, d))
  {
    if useIPv6 {
      Ipv6TextShape(d.v6FirstIsTwo, d.v6Digits);
    } else {
      GeneratedIPv4Valid(d.v4);
      var groups := SplitOn(GenerateIPv4(d.v4), ':');
      assert ':' !in GenerateIPv4(d.v4) by { NoColonInIpv4(d.v4); }
      SplitOnWithout(GenerateIPv4(d.v4), ':');
    }
  }

  lemma NoColonInIpv4(draws: seq<Ipv4Draw>)
    requires ValidIpv4Supply(draws)
    ensures ':' !in GenerateIPv4(draws)
  {
    var o := SampleOctets(draws);
    var fields := [NatToDecimal(o.o1), NatToDecimal(o.o2), NatToDecimal(o.o3), NatToDecimal(o.o4)];
    JoinWithout(fields, '.', ':');
  }

  lemma {:induction false} JoinWithout(parts: seq<string>, sep: char, c: char)
    requires c != sep && forall k :: 0 <= k < |parts| ==> c !in parts[k]
    ensures c !in Join(parts, sep)
  {
    if |parts| > 1 { JoinWithout(parts[1..], sep, c); }
  }

  /** `generateRandomIp`: IPv6 when asked, IPv4 otherwise. */
  method GenerateRandomIp(useIPv6: bool, d: AddressDraw) returns (ip: string)
    requires ValidAddressDraw(d)
    ensures ip == RandomIp(useIPv6, d)
  {
    if useIPv6 {
      ip := GenerateIPv6(d.v6FirstIsTwo, d.v6Digits);
    } else {
      ip := GenerateIPv4(d.v4);
    }
  }
}
