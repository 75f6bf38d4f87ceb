/**
 * The JavaScript string operations the extension relies on, written out over
 * `seq<char>`: `trim`, `split(/[\s,]+/)`, `split(c)`, `join(c)`, ASCII
 * `toLowerCase`, decimal formatting of numbers and `parseInt(s, 10)`.
 */
module Text {
  import opened Wrappers

  // ---------------------------------------------------------------------
  // Character classes

  /** ECMAScript white space and line terminators: what `\s` and `trim` recognise. */
  predicate IsSpace(c: char) {
    c == ' ' || c == '\t' || c == '\n' || c == '\U{B}' || c == '\U{C}' || c == '\r'
    || c == '\U{A0}' || c == '\U{1680}' || ('\U{2000}' <= c <= '\U{200A}')
    || c == '\U{2028}' || c == '\U{2029}' || c == '\U{202F}' || c == '\U{205F}'
    || c == '\U{3000}' || c == '\U{FEFF}'
  }

  /** One character of the class `[\s,]`. */
  predicate IsSeparator(c: char) { IsSpace(c) || c == ',' }

  predicate NoSeparator(s: string) { forall k :: 0 <= k < |s| ==> !IsSeparator(s[k]) }

  predicate IsDigit(c: char) { '0' <= c <= '9' }

  predicate AllDigits(s: string) { forall k :: 0 <= k < |s| ==> IsDigit(s[k]) }

  /** `[0-9a-fA-F]` */
  predicate IsHexDigit(c: char) { IsDigit(c) || 'a' <= c <= 'f' || 'A' <= c <= 'F' }

  /** `[0-9a-f]`: the digits of `'0123456789abcdef'`. */
  predicate IsLowerHexDigit(c: char) { IsDigit(c) || 'a' <= c <= 'f' }

  // ---------------------------------------------------------------------
  // Lower-casing (ASCII letters; header names are ASCII)

  function LowerChar(c: char): (r: char)
    ensures 'A' <= c <= 'Z' ==> 'a' <= r <= 'z' && r as int == c as int + 32
    ensures !('A' <= c <= 'Z') ==> r == c
  {
    if 'A' <= c <= 'Z' then (c as int + 32) as char else c
  }

  /** `s.toLowerCase()` restricted to ASCII upper-case letters. */
  function ToLower(s: string): (r: string)
    ensures |r| == |s|
    ensures forall k :: 0 <= k < |s| ==> r[k] == LowerChar(s[k])
  {
    seq(|s|, k requires 0 <= k < |s| => LowerChar(s[k]))
  }

  /** No string occurs twice. */
  predicate NoDup(xs: seq<string>) {
    forall i, j :: 0 <= i < j < |xs| ==> xs[i] != xs[j]
  }

  /** Two names are the same header: equal once lower-cased. */
  predicate SameIgnoringCase(a: string, b: string) { ToLower(a) == ToLower(b) }

  // ---------------------------------------------------------------------
  // trim

  function TrimStart(s: string): (r: string)
    ensures |r| <= |s| && r == s[|s| - |r|..]
    ensures forall k :: 0 <= k < |s| - |r| ==> IsSpace(s[k])
    ensures r == [] || !IsSpace(r[0])
  {
    if s != [] && IsSpace(s[0]) then TrimStart(s[1..]) else s
  }

  function TrimEnd(s: string): (r: string)
    ensures |r| <= |s| && r == s[..|r|]
    ensures forall k :: |r| <= k < |s| ==> IsSpace(s[k])
    ensures r == [] || !IsSpace(r[|r| - 1])
  {
    if s != [] && IsSpace(s[|s| - 1]) then TrimEnd(s[..|s| - 1]) else s
  }

  /**
   * `s.trim()`: the result is the piece `s[i..j]` left after removing the
   * white space at both ends; it neither starts nor ends with white space.
   */
  function Trim(s: string): (r: string)
    ensures LeadingSpace(s) + |r| <= |s| && r == s[LeadingSpace(s)..LeadingSpace(s) + |r|]
    ensures forall k :: 0 <= k < LeadingSpace(s) ==> IsSpace(s[k])
    ensures forall k :: LeadingSpace(s) + |r| <= k < |s| ==> IsSpace(s[k])
    ensures r == [] || (!IsSpace(r[0]) && !IsSpace(r[|r| - 1]))
  {
    var t := TrimStart(s);
    var r := TrimEnd(t);
    assert r == s[|s| - |t|..|s| - |t| + |r|] && LeadingSpace(s) == |s| - |t| by {
      TrimPieces(s, t, r);
    }
    r
  }

  /** The trailing white space of `t`, the tail of `s`, is trailing white space of `s`. */
  lemma TrimPieces(s: string, t: string, r: string)
    requires |t| <= |s| && t == s[|s| - |t|..]
    requires |r| <= |t| && r == t[..|r|]
    requires forall k :: |r| <= k < |t| ==> IsSpace(t[k])
    ensures r == s[|s| - |t|..|s| - |t| + |r|]
    ensures forall k :: |s| - |t| + |r| <= k < |s| ==> IsSpace(s[k])
  {
    var i := |s| - |t|;
    forall k | i + |r| <= k < |s| ensures IsSpace(s[k]) {
      assert s[k] == t[k - i];
    }
  }

  /** How many white-space characters `s` starts with. */
  function LeadingSpace(s: string): nat {
    |s| - |TrimStart(s)|
  }

  lemma TrimIdempotent(s: string)
    ensures Trim(Trim(s)) == Trim(s)
  {
    var r := Trim(s);
    assert TrimStart(r) == r;
    assert TrimEnd(r) == r;
  }

  // ---------------------------------------------------------------------
  // s.split(/[\s,]+/)

  function SkipSeparators(s: string): (r: string)
    ensures |r| <= |s| && r == s[|s| - |r|..]
    ensures forall k :: 0 <= k < |s| - |r| ==> IsSeparator(s[k])
    ensures r == [] || !IsSeparator(r[0])
  {
    if s != [] && IsSeparator(s[0]) then SkipSeparators(s[1..]) else s
  }

  /**
   * `s.split(/[\s,]+/)`: the pieces between maximal runs of white space and
   * commas. A leading or trailing run yields an empty first or last piece,
   * and the empty string yields `[""]`.
   */
  function SplitFields(s: string): (r: seq<string>)
    ensures |r| >= 1
    ensures forall k :: 0 <= k < |r| ==> NoSeparator(r[k])
    decreases |s|
  {
    if s == [] then [""]
    else if IsSeparator(s[0]) then
      var rest := SkipSeparators(s);
      [""] + SplitFields(rest)
    else
      var rest := SplitFields(s[1..]);
      [[s[0]] + rest[0]] + rest[1..]
  }

  /** `parts.join(sep)` */
  function Join(parts: seq<string>, sep: char): (r: string)
    ensures |parts| == 1 ==> r == parts[0]
  {
    if |parts| == 0 then ""
    else if |parts| == 1 then parts[0]
    else parts[0] + [sep] + Join(parts[1..], sep)
  }

  /** A character that is no separator joins the first piece. */
  lemma SplitFieldsCons(c: char, u: string)
    requires !IsSeparator(c)
    ensures SplitFields([c] + u) == [[c] + SplitFields(u)[0]] + SplitFields(u)[1..]
  {
    assert ([c] + u)[1..] == u;
  }

  lemma {:induction false} SplitFieldsPrefix(p: string, t: string)
    requires NoSeparator(p)
    requires t == [] || IsSeparator(t[0])
    ensures SplitFields(p + t) == [p + SplitFields(t)[0]] + SplitFields(t)[1..]
    decreases |p|
  {
    if p == [] {
      assert p + t == t;
    } else {
      assert p + t == [p[0]] + (p[1..] + t);
      SplitFieldsCons(p[0], p[1..] + t);
      SplitFieldsPrefix(p[1..], t);
      assert [p[0]] + (p[1..] + SplitFields(t)[0]) == p + SplitFields(t)[0];
    }
  }

  /**
   * Splitting inverts joining with a comma, for pieces that are non-empty and
   * contain no separator.
   */
  lemma {:induction false} SplitFieldsJoin(parts: seq<string>)
    requires |parts| >= 1
    requires forall k :: 0 <= k < |parts| ==> parts[k] != [] && NoSeparator(parts[k])
    ensures SplitFields(Join(parts, ',')) == parts
  {
    if |parts| == 1 {
      SplitFieldsPrefix(parts[0], "");
      assert parts[0] + "" == parts[0];
    } else {
      var tail := Join(parts[1..], ',');
      SplitFieldsJoin(parts[1..]);
      var t := [','] + tail;
      assert t[1..] == tail;
      assert tail != [] && !IsSeparator(tail[0]) by {
        JoinStartsWith(parts[1..], ',');
      }
      assert SkipSeparators(t) == tail;
      assert SplitFields(t) == [""] + parts[1..];
      SplitFieldsPrefix(parts[0], t);
      assert Join(parts, ',') == parts[0] + t;
      assert parts[0] + "" == parts[0];
    }
  }

  lemma {:induction false} JoinStartsWith(parts: seq<string>, sep: char)
    requires |parts| >= 1 && parts[0] != []
    ensures Join(parts, sep) != [] && Join(parts, sep)[0] == parts[0][0]
  {
  }

  lemma SplitFieldsOfEmpty()
    ensures SplitFields("") == [""]
  {
  }

  // ---------------------------------------------------------------------
  // s.split(c) for a single character, and s.startsWith(p)

  /** `s.split(c)`: the pieces between the occurrences of `c`. */
  function SplitOn(s: string, c: char): (r: seq<string>)
    ensures |r| >= 1
    ensures forall k :: 0 <= k < |r| ==> c !in r[k]
  {
    if s == [] then [""]
    else if s[0] == c then [""] + SplitOn(s[1..], c)
    else
      var rest := SplitOn(s[1..], c);
      [[s[0]] + rest[0]] + rest[1..]
  }

  lemma {:induction false} SplitOnPrefix(p: string, t: string, c: char)
    requires c !in p
    ensures SplitOn(p + t, c) == [p + SplitOn(t, c)[0]] + SplitOn(t, c)[1..]
  {
    if p == [] {
      assert p + t == t;
      assert p + SplitOn(t, c)[0] == SplitOn(t, c)[0];
      assert SplitOn(t, c) == [SplitOn(t, c)[0]] + SplitOn(t, c)[1..];
    } else {
      assert (p + t)[1..] == p[1..] + t;
      SplitOnPrefix(p[1..], t, c);
      assert [p[0]] + (p[1..] + SplitOn(t, c)[0]) == p + SplitOn(t, c)[0];
    }
  }

  /** Text without the separator splits into itself alone. */
  lemma {:induction false} SplitOnWithout(s: string, c: char)
    requires c !in s
    ensures SplitOn(s, c) == [s]
  {
    if s != [] {
      SplitOnWithout(s[1..], c);
      assert [s[0]] + s[1..] == s;
    }
  }

  /** Splitting on `c` inverts joining with `c`, for pieces free of `c`. */
  lemma {:induction false} SplitOnJoin(parts: seq<string>, c: char)
    requires |parts| >= 1
    requires forall k :: 0 <= k < |parts| ==> c !in parts[k]
    ensures SplitOn(Join(parts, c), c) == parts
  {
    if |parts| == 1 {
      SplitOnPrefix(parts[0], "", c);
      assert parts[0] + "" == parts[0];
    } else {
      var tail := Join(parts[1..], c);
      SplitOnJoin(parts[1..], c);
      var t := [c] + tail;
      assert t[1..] == tail;
      assert SplitOn(t, c) == [""] + parts[1..];
      SplitOnPrefix(parts[0], t, c);
      assert Join(parts, c) == parts[0] + t;
      assert parts[0] + "" == parts[0];
    }
  }

  predicate StartsWith(s: string, prefix: string) {
    |prefix| <= |s| && s[..|prefix|] == prefix
  }

  // ---------------------------------------------------------------------
  // Decimal numbers

  function DigitValue(c: char): (d: nat)
    requires IsDigit(c)
    ensures d < 10
  {
    c as int - '0' as int
  }

  function DigitChar(d: nat): (c: char)
    requires d < 10
    ensures IsDigit(c) && DigitValue(c) == d
  {
    ('0' as int + d) as char
  }

  /** The value of a string of decimal digits (leading zeros allowed). */
  function DecimalValue(s: string): nat
    requires AllDigits(s)
  {
    if s == [] then 0 else 10 * DecimalValue(s[..|s| - 1]) + DigitValue(s[|s| - 1])
  }

  /**
   * The decimal text of `n`, as JavaScript writes a non-negative integer:
   * no leading zero, and reading it back gives `n`.
   */
  function NatToDecimal(n: nat): (r: string)
    ensures 1 <= |r| && AllDigits(r) && DecimalValue(r) == n
    ensures |r| > 1 ==> r[0] != '0'
    ensures n < 10 ==> |r| == 1
    ensures n < 100 ==> |r| <= 2
    ensures n < 1000 ==> |r| <= 3
  {
    if n < 10 then [DigitChar(n)]
    else
      var q := NatToDecimal(n / 10);
      var r := q + [DigitChar(n % 10)];
      assert r[..|r| - 1] == q && r[|r| - 1] == DigitChar(n % 10);
      assert DigitValue(DigitChar(n % 10)) == n % 10;
      assert DecimalValue(r) == 10 * DecimalValue(q) + n % 10;
      assert DecimalValue(r) == 10 * (n / 10) + n % 10;
      assert n < 100 ==> n / 10 < 10;
      assert n < 1000 ==> n / 10 < 100;
      r
  }

  function DigitPrefixLength(s: string): (n: nat)
    ensures n <= |s| && AllDigits(s[..n])
    ensures n < |s| ==> !IsDigit(s[n])
  {
    if s != [] && IsDigit(s[0]) then
      var n := 1 + DigitPrefixLength(s[1..]);
      assert s[..n] == [s[0]] + s[1..][..n - 1];
      n
    else 0
  }

  /**
   * `parseInt(s, 10)`: skip leading white space, read an optional sign and the
   * longest run of digits after it; `None` stands for `NaN` (no digit).
   */
  function ParseInt(s: string): (r: Option<int>)
    ensures r.None? <==> DigitPrefixLength(SignFree(TrimStart(s))) == 0
  {
    var t := TrimStart(s);
    var u := SignFree(t);
    var n := DigitPrefixLength(u);
    if n == 0 then None
    else
      var v: int := DecimalValue(u[..n]);
      Some(if t != [] && t[0] == '-' then -v else v)
  }

  function SignFree(t: string): (u: string)
    ensures u == t || (t != [] && (t[0] == '+' || t[0] == '-') && u == t[1..])
  {
    if t != [] && (t[0] == '+' || t[0] == '-') then t[1..] else t
  }

  /** `parseInt` reads back what decimal formatting writes. */
  lemma ParseIntOfDecimal(n: nat)
    ensures ParseInt(NatToDecimal(n)) == Some(n)
  {
    var s := NatToDecimal(n);
    assert IsDigit(s[0]);
    assert !IsSpace(s[0]);
    assert TrimStart(s) == s;
    assert SignFree(s) == s;
    DigitPrefixAll(s);
    assert s[..|s|] == s;
    assert s[0] != '-';
  }

  lemma {:induction false} DigitPrefixAll(s: string)
    requires AllDigits(s)
    ensures DigitPrefixLength(s) == |s|
  {
    if s != [] { DigitPrefixAll(s[1..]); }
  }
}
