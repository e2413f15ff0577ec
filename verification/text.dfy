/** The two pieces of Go's string library the core relies on: `strings.ToLower`
    (used to make the level name case-insensitive) and the `%d` verb of
    `fmt.Sprintf` (used to build the listen address). `ToLower` is modelled as
    Go defines it, a rune-by-rune mapping, with the rune mapping itself left as
    a parameter that is pinned down only on ASCII. `%d` comes with a parser that
    undoes it. */
module Text {
  import opened Wrappers

  // ---------------------------------------------------------------------------
  // Lower-casing

  predicate IsAscii(c: char) {
    (c as int) < 128
  }

  predicate IsAsciiUpper(c: char) {
    'A' <= c <= 'Z'
  }

  /** Lower-cases an ASCII capital; every other character is returned unchanged. */
  function AsciiLower(c: char): char {
    if IsAsciiUpper(c) then (c as int + 32) as char else c
  }

  /** ASCII lower-casing of a whole string. */
  function AsciiLowerString(s: string): string {
    seq(|s|, i requires 0 <= i < |s| => AsciiLower(s[i]))
  }

  /** `strings.ToLower`: every rune of `s` mapped through `lowerRune`, which
      stands for `unicode.ToLower`. */
  function ToLower(s: string, lowerRune: char -> char): string {
    seq(|s|, i requires 0 <= i < |s| => lowerRune(s[i]))
  }

  /** What `unicode.ToLower` is known to do: on ASCII it lower-cases the
      capitals and leaves everything else alone. Outside ASCII it is left open
      (it does map a few non-ASCII runes, such as the Kelvin sign, to ASCII). */
  ghost predicate LowersAscii(lowerRune: char -> char) {
    forall c: char :: IsAscii(c) ==> lowerRune(c) == AsciiLower(c)
  }

  /** Two strings that differ at most in the case of ASCII letters. */
  predicate SameIgnoringAsciiCase(s: string, t: string) {
    && |s| == |t|
    && forall i :: 0 <= i < |s| ==>
         s[i] == t[i] || (IsAscii(s[i]) && IsAscii(t[i]) && AsciiLower(s[i]) == AsciiLower(t[i]))
  }

  /** `ToLower` cannot tell apart strings that differ only in ASCII case. */
  lemma ToLowerIgnoresAsciiCase(s: string, t: string, lowerRune: char -> char)
    requires LowersAscii(lowerRune)
    requires SameIgnoringAsciiCase(s, t)
    ensures ToLower(s, lowerRune) == ToLower(t, lowerRune)
  {
    forall i | 0 <= i < |s|
      ensures ToLower(s, lowerRune)[i] == ToLower(t, lowerRune)[i]
    {
      if s[i] != t[i] {
        assert lowerRune(s[i]) == AsciiLower(s[i]);
        assert lowerRune(t[i]) == AsciiLower(t[i]);
      }
    }
  }

  /** On an all-ASCII string `ToLower` is plain ASCII lower-casing. */
  lemma ToLowerOfAscii(s: string, lowerRune: char -> char)
    requires LowersAscii(lowerRune)
    requires forall i :: 0 <= i < |s| ==> IsAscii(s[i])
    ensures ToLower(s, lowerRune) == AsciiLowerString(s)
  {
    forall i | 0 <= i < |s|
      ensures ToLower(s, lowerRune)[i] == AsciiLowerString(s)[i]
    {
      assert lowerRune(s[i]) == AsciiLower(s[i]);
    }
  }

  // ---------------------------------------------------------------------------
  // Decimal formatting (`%d`) and its inverse

  predicate IsDigit(c: char) {
    '0' <= c <= '9'
  }

  predicate AllDigits(s: string) {
    forall i :: 0 <= i < |s| ==> IsDigit(s[i])
  }

  /** A digit string as `%d` writes it: non-empty, and without a leading zero
      unless the whole string is "0". */
  predicate Canonical(s: string) {
    && |s| >= 1
    && AllDigits(s)
    && (s[0] == '0' ==> s == "0")
  }

  function DigitChar(d: nat): (c: char)
    requires d < 10
    ensures IsDigit(c)
  {
    ('0' as int + d) as char
  }

  function DigitValue(c: char): (d: nat)
    requires IsDigit(c)
    ensures d < 10
  {
    c as int - '0' as int
  }

  /** The decimal digits of a natural number, most significant first. */
  function NatToDecimal(n: nat): (s: string)
    ensures Canonical(s)
    ensures s[0] == '0' <==> n == 0
    decreases n
  {
    if n < 10 then [DigitChar(n)] else NatToDecimal(n / 10) + [DigitChar(n % 10)]
  }

  /** The number a string of digits denotes. */
  function DigitsValue(s: string): nat
    requires AllDigits(s)
    decreases |s|
  {
    if s == [] then 0 else 10 * DigitsValue(s[..|s| - 1]) + DigitValue(s[|s| - 1])
  }

  /** Go's `%d` for a signed integer: a minus sign before the digits of a
      negative value. */
  function FormatInt(n: int): (s: string)
    ensures |s| >= 1
    ensures forall i :: 0 <= i < |s| ==> IsDigit(s[i]) || s[i] == '-'
  {
    if n < 0 then "-" + NatToDecimal(-n) else NatToDecimal(n)
  }

  /** Reads back exactly the strings `FormatInt` writes. */
  function ParseInt(s: string): Option<int> {
    if |s| >= 1 && s[0] == '-' then
      if Canonical(s[1..]) && s[1..] != "0" then Some(-(DigitsValue(s[1..]) as int)) else None
    else if Canonical(s) then Some(DigitsValue(s) as int)
    else None
  }

  lemma {:induction false} DigitsOfNat(n: nat)
    ensures DigitsValue(NatToDecimal(n)) == n
    decreases n
  {
    var s := NatToDecimal(n);
    if n < 10 {
      assert s[..0] == [];
    } else {
      DigitsOfNat(n / 10);
      assert s[..|s| - 1] == NatToDecimal(n / 10);
    }
  }

  /** A digit string whose first digit is not zero denotes a positive number. */
  lemma {:induction false} LeadingDigitPositive(s: string)
    requires AllDigits(s) && |s| >= 1 && s[0] != '0'
    ensures DigitsValue(s) > 0
    decreases |s|
  {
    if |s| > 1 {
      LeadingDigitPositive(s[..|s| - 1]);
    }
  }

  lemma {:induction false} NatOfDigits(s: string)
    requires Canonical(s)
    ensures NatToDecimal(DigitsValue(s)) == s
    decreases |s|
  {
    if |s| > 1 {
      var p := s[..|s| - 1];
      LeadingDigitPositive(p);
      NatOfDigits(p);
      assert s == p + [s[|s| - 1]];
    } else {
      assert s == [s[0]];
    }
  }

  /** `ParseInt` undoes `FormatInt`. */
  lemma FormatIntRoundTrip(n: int)
    ensures ParseInt(FormatInt(n)) == Some(n)
  {
    var s := FormatInt(n);
    if n < 0 {
      assert s[1..] == NatToDecimal(-n);
      DigitsOfNat(-n);
    } else {
      DigitsOfNat(n);
    }
  }

  /** `FormatInt` undoes `ParseInt`: a string `ParseInt` accepts is the one
      `%d` would have written for its value. */
  lemma ParseIntRoundTrip(s: string, n: int)
    requires ParseInt(s) == Some(n)
    ensures FormatInt(n) == s
  {
    if |s| >= 1 && s[0] == '-' {
      NatOfDigits(s[1..]);
      LeadingDigitPositive(s[1..]);
      assert s == "-" + s[1..];
    } else {
      NatOfDigits(s);
    }
  }

  // ---------------------------------------------------------------------------
  // Splitting at a separator

  /** The position of the last occurrence of `c` in `s`, if any. */
  function LastIndexOf(s: string, c: char): (r: Option<nat>)
    ensures r.Some? ==> r.value < |s| && s[r.value] == c
    ensures r.Some? ==> forall j :: r.value < j < |s| ==> s[j] != c
    ensures r.None? ==> forall j :: 0 <= j < |s| ==> s[j] != c
    decreases |s|
  {
    if s == [] then None
    else if s[|s| - 1] == c then Some(|s| - 1)
    else LastIndexOf(s[..|s| - 1], c)
  }
}
