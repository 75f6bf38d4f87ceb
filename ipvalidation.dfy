/**
 * The address validators of the profile form: `validateIPv4`, `validateIPv6`
 * and `validateIP`. Each anchored regular expression is written as the
 * predicate it decides.
 */
module IpValidation {
  import opened Text

  /** `[01]` */
  predicate IsZeroOrOne(c: char) { c == '0' || c == '1' }

  /**
   * One field of the IPv4 pattern, alternative by alternative:
   * `25[0-5]`, `2[0-4][0-9]` and `[01]?[0-9][0-9]?` (with each optional part
   * present or absent).
   */
  predicate OctetPattern(f: string) {
    (|f| == 3 && f[0] == '2' && f[1] == '5' && '0' <= f[2] <= '5')
    || (|f| == 3 && f[0] == '2' && '0' <= f[1] <= '4' && IsDigit(f[2]))
    || (|f| == 1 && IsDigit(f[0]))
    || (|f| == 2 && IsZeroOrOne(f[0]) && IsDigit(f[1]))
    || (|f| == 2 && IsDigit(f[0]) && IsDigit(f[1]))
    || (|f| == 3 && IsZeroOrOne(f[0]) && IsDigit(f[1]) && IsDigit(f[2]))
  }

  /**
   * `validateIPv4`: the whole string is four fields joined by '.'. No field
   * alternative can contain a '.', so the fields are the pieces between dots.
   */
  predicate ValidateIPv4(ip: string) {
    var fields := SplitOn(ip, '.');
    |fields| == 4 && forall k :: 0 <= k < 4 ==> OctetPattern(fields[k])
  }

  /** A decimal octet: one to three digits whose value is at most 255. */
  predicate IsOctetText(f: string) {
    1 <= |f| <= 3 && AllDigits(f) && DecimalValue(f) <= 255
  }

  lemma DecimalValueOfThree(f: string)
    requires |f| == 3 && AllDigits(f)
    ensures DecimalValue(f) == 100 * DigitValue(f[0]) + 10 * DigitValue(f[1]) + DigitValue(f[2])
  {
    var p2 := f[..2];
    assert p2[..1] == f[..1] && f[..1][..0] == [];
    assert DecimalValue(f[..1]) == DigitValue(f[0]);
    assert DecimalValue(p2) == 10 * DigitValue(f[0]) + DigitValue(f[1]);
  }

  lemma DecimalValueOfTwo(f: string)
    requires |f| == 2 && AllDigits(f)
    ensures DecimalValue(f) == 10 * DigitValue(f[0]) + DigitValue(f[1])
  {
    assert f[..1][..0] == [];
    assert DecimalValue(f[..1]) == DigitValue(f[0]);
  }

  /** The field pattern accepts exactly the decimal octets, leading zeros included. */
  lemma OctetPatternMeaning(f: string)
    ensures OctetPattern(f) <==> IsOctetText(f)
  {
    if |f| == 3 && AllDigits(f) {
      DecimalValueOfThree(f);
    } else if |f| == 2 && AllDigits(f) {
      DecimalValueOfTwo(f);
    } else if |f| == 1 && AllDigits(f) {
      assert f[..0] == [];
      assert DecimalValue(f) == DigitValue(f[0]);
    }
  }

  /**
   * `validateIPv4` accepts exactly four '.'-separated fields, each of one to
   * three decimal digits with value at most 255.
   */
  lemma ValidateIPv4Meaning(ip: string)
    ensures ValidateIPv4(ip) <==>
      var fields := SplitOn(ip, '.');
      |fields| == 4 && forall k :: 0 <= k < 4 ==> IsOctetText(fields[k])
  {
    var fields := SplitOn(ip, '.');
    forall k | 0 <= k < |fields| ensures OctetPattern(fields[k]) <==> IsOctetText(fields[k]) {
      OctetPatternMeaning(fields[k]);
    }
  }

  /** `[0-9a-fA-F]{1,4}` */
  predicate HexGroup(g: string) {
    1 <= |g| <= 4 && forall k :: 0 <= k < |g| ==> IsHexDigit(g[k])
  }

  /** The first alternative of the IPv6 pattern: `([0-9a-fA-F]{1,4}:){7}[0-9a-fA-F]{1,4}`. */
  predicate FullIPv6(ip: string) {
    var groups := SplitOn(ip, ':');
    |groups| == 8 && forall k :: 0 <= k < 8 ==> HexGroup(groups[k])
  }

  /**
   * `validateIPv6`: the full eight-group form, or one of the pattern's other
   * alternatives (compressed `::` forms, link-local with a zone, embedded
   * IPv4), which `otherForms` decides.
   */
  predicate ValidateIPv6(ip: string, otherForms: string -> bool) {
    FullIPv6(ip) || otherForms(ip)
  }

  /** `validateIP` */
  predicate ValidateIP(ip: string, otherForms: string -> bool) {
    ValidateIPv4(ip) || ValidateIPv6(ip, otherForms)
  }

  /** Eight hex groups joined by ':' match the full IPv6 alternative. */
  lemma JoinedGroupsAreFullIPv6(groups: seq<string>)
    requires |groups| == 8 && forall k :: 0 <= k < 8 ==> HexGroup(groups[k])
    ensures FullIPv6(Join(groups, ':'))
  {
    SplitOnJoin(groups, ':');
  }

  /** Four decimal octets joined by '.' pass `validateIPv4`. */
  lemma JoinedOctetsAreIPv4(fields: seq<string>)
    requires |fields| == 4 && forall k :: 0 <= k < 4 ==> IsOctetText(fields[k])
    ensures ValidateIPv4(Join(fields, '.'))
  {
    forall k | 0 <= k < 4 ensures '.' !in fields[k] && OctetPattern(fields[k]) {
      OctetPatternMeaning(fields[k]);
    }
    SplitOnJoin(fields, '.');
  }
}
