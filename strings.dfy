/**
 * The C library string routines the tools rely on (strchr, strstr, strtoull,
 * printf("%llu")), over ASCII text.  A number is read from leading ASCII
 * digits only: strtoull's leading white space, sign and overflow saturation
 * are not part of this model.
 */
module Strings {
  import opened Wrappers

  predicate IsDigit(c: char)
  {
    '0' <= c <= '9'
  }

  function DigitValue(c: char): (v: nat)
    requires IsDigit(c)
    ensures v < 10
  {
    (c as int) - ('0' as int)
  }

  function DigitChar(d: nat): (c: char)
    requires d < 10
    ensures IsDigit(c) && DigitValue(c) == d
  {
    (('0' as int) + d) as char
  }

  predicate AllDigits(s: string)
  {
    forall i | 0 <= i < |s| :: IsDigit(s[i])
  }

  /** The number of leading digits of `s`: the span strtoull consumes. */
  function DigitSpan(s: string): (k: nat)
    ensures k <= |s|
    ensures AllDigits(s[..k])
    ensures k < |s| ==> !IsDigit(s[k])
  {
    if s == [] || !IsDigit(s[0]) then 0
    else
      var k := 1 + DigitSpan(s[1..]);
      assert s[..k] == [s[0]] + s[1..][..k - 1];
      k
  }

  /** The value of a string of decimal digits, most significant first. */
  function DigitsValue(ds: string): nat
    requires AllDigits(ds)
  {
    if ds == [] then 0 else 10 * DigitsValue(ds[..|ds| - 1]) + DigitValue(ds[|ds| - 1])
  }

  /**
   * strtoull(s, &end, 10): the value of the leading digits and the rest of
   * the string from `end` on.  No digits give 0 and leave `s` whole.
   */
  function ParseNumber(s: string): (r: (nat, string))
    ensures |r.1| <= |s| && s == s[..|s| - |r.1|] + r.1
    ensures AllDigits(s[..|s| - |r.1|])
    ensures r.1 == [] || !IsDigit(r.1[0])
  {
    var k := DigitSpan(s);
    assert s == s[..k] + s[k..];
    (DigitsValue(s[..k]), s[k..])
  }

  /** strtoull(s, NULL, 10): the value of the leading digits alone. */
  function LeadingValue(s: string): nat
  {
    PrefixValue(s, DigitSpan(s))
  }

  /** The value of the first `k` characters of `s`, all digits. */
  function PrefixValue(s: string, k: nat): nat
    requires k <= |s| && AllDigits(s[..k])
  {
    if k == 0 then 0
    else
      assert s[..k - 1] == s[..k][..k - 1];
      assert s[k - 1] == s[..k][k - 1];
      10 * PrefixValue(s, k - 1) + DigitValue(s[k - 1])
  }

  /** The value alone is the value strtoull reports with its end pointer. */
  lemma LeadingValueParses(s: string)
    ensures LeadingValue(s) == ParseNumber(s).0
  {
    PrefixValueIs(s, DigitSpan(s));
  }

  /** PrefixValue reads the same number as DigitsValue of the prefix. */
  lemma {:induction false} PrefixValueIs(s: string, k: nat)
    requires k <= |s| && AllDigits(s[..k])
    ensures PrefixValue(s, k) == DigitsValue(s[..k])
  {
    if k > 0 {
      assert s[..k - 1] == s[..k][..k - 1];
      PrefixValueIs(s, k - 1);
    }
  }

  /** printf("%llu", n): the decimal digits of `n` without leading zeros. */
  function Decimal(n: nat): (ds: string)
    ensures |ds| > 0 && AllDigits(ds)
    ensures DigitsValue(ds) == n
    ensures |ds| > 1 ==> ds[0] != '0'
  {
    if n < 10 then [DigitChar(n)]
    else
      var ds := Decimal(n / 10) + [DigitChar(n % 10)];
      assert ds[..|ds| - 1] == Decimal(n / 10);
      ds
  }

  lemma {:induction false} DigitSpanOfDigits(ds: string, rest: string)
    requires AllDigits(ds)
    requires rest == [] || !IsDigit(rest[0])
    ensures DigitSpan(ds + rest) == |ds|
  {
    if ds != [] {
      assert (ds + rest)[1..] == ds[1..] + rest;
      DigitSpanOfDigits(ds[1..], rest);
    }
  }

  /** Printing a number in decimal and parsing it back gives the number and the untouched rest. */
  lemma {:induction false} ParseDecimal(n: nat, rest: string)
    requires rest == [] || !IsDigit(rest[0])
    ensures ParseNumber(Decimal(n) + rest) == (n, rest)
  {
    var ds := Decimal(n);
    DigitSpanOfDigits(ds, rest);
    assert (ds + rest)[..|ds|] == ds;
    assert (ds + rest)[|ds|..] == rest;
  }

  /** strchr(s, c): the index of the first `c` in `s`. */
  function IndexOf(s: string, c: char): (r: Option<nat>)
    ensures r.Some? ==> r.value < |s| && s[r.value] == c && c !in s[..r.value]
    ensures r.None? ==> c !in s
  {
    if s == [] then None
    else if s[0] == c then Some(0)
    else match IndexOf(s[1..], c)
      case None => None
      case Some(i) =>
        assert s[..i + 1] == [s[0]] + s[1..][..i];
        Some(i + 1)
  }

  /** The text of `s` before its first `c`, or all of `s` when it has none. */
  function Before(s: string, c: char): (t: string)
    ensures c !in t
    ensures t <= s
    ensures |t| < |s| ==> s[|t|] == c
  {
    match IndexOf(s, c)
      case None => s
      case Some(i) => s[..i]
  }

  /** The first `c` of `s` is at `i` when `s[i]` is `c` and no earlier character is. */
  lemma {:induction false} IndexOfIs(s: string, c: char, i: nat)
    requires i < |s| && s[i] == c && c !in s[..i]
    ensures IndexOf(s, c) == Some(i)
  {
    if i > 0 {
      assert s[..i][0] == s[0];
      assert s[1..][..i - 1] == s[..i][1..];
      IndexOfIs(s[1..], c, i - 1);
    }
  }

  /** Appending text after a `c` does not move the first `c`. */
  lemma IndexOfConcat(a: string, b: string, c: char)
    requires IndexOf(a, c).Some?
    ensures IndexOf(a + b, c) == IndexOf(a, c)
  {
    var i := IndexOf(a, c).value;
    assert (a + b)[..i] == a[..i];
    IndexOfIs(a + b, c, i);
  }

  /** The text before the first `c` is `s[..k]` when `s[k]` is that `c` (or `k` is the end) and `s[..k]` has none. */
  lemma BeforeIs(s: string, c: char, k: nat)
    requires k <= |s| && c !in s[..k]
    requires k < |s| ==> s[k] == c
    ensures Before(s, c) == s[..k]
  {
    if k < |s| {
      IndexOfIs(s, c, k);
    } else {
      assert s[..k] == s;
    }
  }

  /** strstr(s, [a, b]): the index of the first occurrence of the two-character string. */
  function IndexOfPair(s: string, a: char, b: char): (r: Option<nat>)
    ensures r.Some? ==> r.value + 1 < |s| && s[r.value] == a && s[r.value + 1] == b
    ensures r.Some? ==> forall j | 0 <= j < r.value :: !(s[j] == a && s[j + 1] == b)
    ensures r.None? ==> forall j | 0 <= j < |s| - 1 :: !(s[j] == a && s[j + 1] == b)
  {
    if |s| < 2 then None
    else if s[0] == a && s[1] == b then Some(0)
    else match IndexOfPair(s[1..], a, b)
      case None => None
      case Some(i) => Some(i + 1)
  }

  /**
   * The `<seconds>.` prefix of a maildir file name, as archive and purge
   * read it: strtoul must consume at least one digit and stop at a `.`.
   */
  function TimestampPrefix(name: string): (r: Option<nat>)
    ensures r.Some? ==> exists k :: 0 < k < |name| && AllDigits(name[..k]) && name[k] == '.' && r.value == DigitsValue(name[..k])
    ensures r.None? ==> DigitSpan(name) == 0 || DigitSpan(name) == |name| || name[DigitSpan(name)] != '.'
  {
    var p := ParseNumber(name);
    var k := DigitSpan(name);
    assert name[k..] == p.1 && name[..k] == name[..|name| - |p.1|];
    if |p.1| == |name| || p.1 == [] || p.1[0] != '.' then None
    else Some(p.0)
  }

  /** A name made of a printed timestamp, a `.` and any suffix reads back as that timestamp. */
  lemma TimestampPrefixOf(t: nat, suffix: string)
    ensures TimestampPrefix(Decimal(t) + "." + suffix) == Some(t)
  {
    var name := Decimal(t) + "." + suffix;
    assert name == Decimal(t) + ("." + suffix);
    ParseDecimal(t, "." + suffix);
  }
}
