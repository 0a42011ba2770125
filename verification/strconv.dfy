/**
 * The three text-to-value conversions of Go's `strconv` package that the
 * populator relies on, as they behave with the arguments the loader passes:
 * `ParseBool(s)`, `ParseInt(s, 10, 64)` and `ParseUint(s, 10, 64)`. Each parser
 * has a formatter as its partner, and the two are proved to round-trip.
 */
module Strconv {
  import opened Wrappers

  const MinInt64: int := -0x8000_0000_0000_0000
  const MaxInt64: int := 0x7FFF_FFFF_FFFF_FFFF
  const MaxUint64: int := 0xFFFF_FFFF_FFFF_FFFF

  /** The spellings `strconv.ParseBool` accepts for true and for false. */
  const TrueWords: set<string> := {"1", "t", "T", "TRUE", "true", "True"}
  const FalseWords: set<string> := {"0", "f", "F", "FALSE", "false", "False"}

  // ---------------------------------------------------------------- booleans

  /** `strconv.ParseBool`: one of the twelve accepted words, or an error. */
  function ParseBool(s: string): (r: Option<bool>)
    ensures r.None? <==> s !in TrueWords && s !in FalseWords
    ensures r == Some(true) ==> s in TrueWords
    ensures r == Some(false) ==> s in FalseWords
  {
    if s in TrueWords then Some(true)
    else if s in FalseWords then Some(false)
    else None
  }

  /** `strconv.FormatBool`, the partner of ParseBool. */
  function FormatBool(b: bool): (s: string)
    ensures ParseBool(s) == Some(b)
  {
    if b then "true" else "false"
  }

  /** ParseBool fails exactly on the words outside the two accepted sets, and the sets do not overlap. */
  lemma ParseBoolAccepts(s: string)
    ensures ParseBool(s).Some? <==> s in TrueWords + FalseWords
    ensures ParseBool(s) == Some(true) <==> s in TrueWords
    ensures ParseBool(s) == Some(false) <==> s in FalseWords
  {
    assert TrueWords * FalseWords == {};
  }

  // ------------------------------------------------------- decimal digits

  predicate IsDigit(c: char) { '0' <= c <= '9' }

  predicate AllDigits(s: string) { forall i :: 0 <= i < |s| ==> IsDigit(s[i]) }

  function DigitValue(c: char): (d: nat)
    requires IsDigit(c)
    ensures d < 10
  {
    c as int - '0' as int
  }

  function DigitChar(d: nat): (c: char)
    requires d < 10
    ensures IsDigit(c) && DigitValue(c) == d
  {
    ('0' as int + d) as char
  }

  /** The number a run of decimal digits denotes, most significant digit first. */
  function DigitsValue(s: string): nat
    requires AllDigits(s)
  {
    if s == [] then 0 else 10 * DigitsValue(s[..|s| - 1]) + DigitValue(s[|s| - 1])
  }

  /** A digit run without superfluous leading zeros: the form FormatUint produces. */
  predicate Canonical(s: string)
  {
    |s| > 0 && AllDigits(s) && (s[0] != '0' || |s| == 1)
  }

  // ------------------------------------------------------ unsigned integers

  /**
   * `strconv.ParseUint(s, 10, 64)`: a non-empty run of decimal digits (no sign,
   * no prefix, no underscores in base 10) whose value fits in 64 bits.
   */
  function ParseUint(s: string): (r: Option<nat>)
    ensures r.Some? ==> r.value <= MaxUint64
  {
    if s != [] && AllDigits(s) && DigitsValue(s) <= MaxUint64 then Some(DigitsValue(s)) else None
  }

  /** `strconv.FormatUint(n, 10)`: the canonical decimal text of `n`. */
  function FormatUint(n: nat): (s: string)
    ensures Canonical(s) && DigitsValue(s) == n
    ensures n <= MaxUint64 ==> ParseUint(s) == Some(n)
  {
    if n < 10 then [DigitChar(n)] else FormatUint(n / 10) + [DigitChar(n % 10)]
  }

  /** A canonical digit run is not zero unless it is "0". */
  lemma {:induction false} CanonicalPositive(s: string)
    requires Canonical(s) && s[0] != '0'
    ensures DigitsValue(s) >= 1
  {
    if |s| > 1 {
      CanonicalPositive(s[..|s| - 1]);
    }
  }

  /** The other direction of the round trip: formatting what ParseUint read gives back canonical text. */
  lemma {:induction false} FormatUintOfCanonical(s: string)
    requires Canonical(s)
    ensures FormatUint(DigitsValue(s)) == s
  {
    if |s| > 1 {
      var p := s[..|s| - 1];
      assert Canonical(p);
      CanonicalPositive(p);
      FormatUintOfCanonical(p);
      var n := DigitsValue(s);
      assert n / 10 == DigitsValue(p) && n % 10 == DigitValue(s[|s| - 1]);
      assert s == p + [s[|s| - 1]];
    } else {
      assert s == [DigitChar(DigitValue(s[0]))];
    }
  }

  /** ParseUint and FormatUint are inverse on canonical texts and 64-bit values. */
  lemma UintRoundTrip(s: string, n: nat)
    requires Canonical(s)
    ensures ParseUint(s) == Some(n) <==> n <= MaxUint64 && FormatUint(n) == s
  {
    if FormatUint(n) == s {
      assert DigitsValue(s) == n;
    }
    FormatUintOfCanonical(s);
  }

  /** ParseUint refuses any sign: an unsigned field never takes "-1" (nor "+1"). */
  lemma ParseUintRejectsSign(s: string)
    requires |s| > 0 && (s[0] == '-' || s[0] == '+')
    ensures ParseUint(s) == None
  {
    assert !IsDigit(s[0]);
  }

  // -------------------------------------------------------- signed integers

  /** The text after an optional leading '+' or '-'. */
  function Magnitude(s: string): string
  {
    if |s| > 0 && (s[0] == '+' || s[0] == '-') then s[1..] else s
  }

  /**
   * `strconv.ParseInt(s, 10, 64)`: an optional sign followed by a non-empty run
   * of decimal digits whose signed value lies in the 64-bit range.
   */
  function ParseInt(s: string): (r: Option<int>)
    ensures r.Some? ==> MinInt64 <= r.value <= MaxInt64
  {
    var body := Magnitude(s);
    if s == [] || body == [] || !AllDigits(body) then None
    else
      var n: int := DigitsValue(body);
      if s[0] == '-' then (if n <= -MinInt64 then Some(-n) else None)
      else (if n <= MaxInt64 then Some(n) else None)
  }

  /** `strconv.FormatInt(n, 10)`: a '-' for negative numbers, then the canonical digits. */
  function FormatInt(n: int): (s: string)
    ensures MinInt64 <= n <= MaxInt64 ==> ParseInt(s) == Some(n)
  {
    if n < 0 then "-" + FormatUint(-n) else FormatUint(n)
  }

  /** Formatting the negation of a canonical non-zero digit run puts a '-' in front of it. */
  lemma FormatNegative(body: string)
    requires Canonical(body) && body[0] != '0'
    ensures FormatInt(0 - DigitsValue(body)) == "-" + body
  {
    CanonicalPositive(body);
    FormatUintOfCanonical(body);
  }

  /**
   * Whatever ParseInt accepts is a sign and digits denoting its value; with
   * canonical digits and no '+' or "-0", formatting the value gives the text back.
   */
  lemma IntRoundTrip(s: string)
    requires ParseInt(s).Some?
    requires Canonical(Magnitude(s)) && s[0] != '+' && s != "-0"
    ensures FormatInt(ParseInt(s).value) == s
  {
    var body := Magnitude(s);
    if s[0] == '-' {
      assert s == "-" + body;
      FormatNegative(body);
    } else {
      FormatUintOfCanonical(body);
    }
  }

  /** Text that is not a signed decimal number is refused, whatever its length. */
  lemma ParseIntRejectsNonDigit(s: string, i: nat)
    requires i < |Magnitude(s)| && !IsDigit(Magnitude(s)[i])
    ensures ParseInt(s) == None
  {
  }
}
