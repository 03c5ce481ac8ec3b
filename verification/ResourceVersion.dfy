/** Resource versions on the wire (pkg/registry/tasks/task/helpers.go): the decimal
    form of a uint64, and the parser that answers 0 for anything it cannot read. */
module ResourceVersion {
  import opened TaskTypes

  function DigitChar(d: nat): (c: char)
    requires d < 10
    ensures IsDigit(c) && DigitValue(c) == d
  {
    "0123456789"[d]
  }

  predicate IsDigit(c: char) {
    '0' <= c <= '9'
  }

  function DigitValue(c: char): nat
    requires IsDigit(c)
  {
    c as int - '0' as int
  }

  predicate AllDigits(s: string) {
    forall i :: 0 <= i < |s| ==> IsDigit(s[i])
  }

  predicate Numeral(s: string) {
    s != "" && AllDigits(s)
  }

  /** A numeral with no leading zero, "0" itself excepted. */
  predicate Canonical(s: string) {
    Numeral(s) && (|s| > 1 ==> s[0] != '0')
  }

  function NumeralValue(s: string): nat
    requires AllDigits(s)
  {
    if s == "" then 0 else 10 * NumeralValue(s[..|s| - 1]) + DigitValue(s[|s| - 1])
  }

  function FormatRV(n: nat): string {
    if n < 10 then [DigitChar(n)] else FormatRV(n / 10) + [DigitChar(n % 10)]
  }

  function ParseRVOrZero(s: string): Uint64 {
    if Numeral(s) && NumeralValue(s) <= MAX_UINT64 then NumeralValue(s) else 0
  }

  lemma {:induction false} FormatThenValue(n: nat)
    ensures Canonical(FormatRV(n)) && NumeralValue(FormatRV(n)) == n
    ensures n > 0 ==> FormatRV(n)[0] != '0'
  {
    var s := FormatRV(n);
    if n < 10 {
      assert s[..|s| - 1] == "";
    } else {
      FormatThenValue(n / 10);
      assert s[..|s| - 1] == FormatRV(n / 10);
    }
  }

  lemma LeadingDigitIsPositive(s: string)
    requires Numeral(s) && s[0] != '0'
    ensures NumeralValue(s) > 0
  {
    var front := s[..|s| - 1];
    if front != "" {
      LeadingDigitIsPositive(front);
    }
  }

  lemma AppendDigit(n: nat, d: nat)
    requires n > 0 && d < 10
    ensures FormatRV(10 * n + d) == FormatRV(n) + [DigitChar(d)]
  {
    assert (10 * n + d) / 10 == n && (10 * n + d) % 10 == d;
  }

  lemma {:induction false} ValueThenFormat(s: string)
    requires Canonical(s)
    ensures FormatRV(NumeralValue(s)) == s
  {
    var front, last := s[..|s| - 1], s[|s| - 1];
    assert s == front + [last] && DigitChar(DigitValue(last)) == last;
    if front != "" {
      LeadingDigitIsPositive(front);
      ValueThenFormat(front);
      AppendDigit(NumeralValue(front), DigitValue(last));
    }
  }

  /** Every stamped version survives the trip to the client and back. */
  lemma ParseFormat(n: Uint64)
    ensures ParseRVOrZero(FormatRV(n)) == n
  {
    FormatThenValue(n);
  }

  lemma FormatInjective(m: nat, n: nat)
    ensures FormatRV(m) == FormatRV(n) <==> m == n
  {
    FormatThenValue(m);
    FormatThenValue(n);
  }

  /** Exactly which strings the parser reads as themselves. */
  lemma FormatParseIff(s: string)
    ensures FormatRV(ParseRVOrZero(s)) == s <==> Canonical(s) && NumeralValue(s) <= MAX_UINT64
  {
    FormatThenValue(ParseRVOrZero(s));
    if Canonical(s) && NumeralValue(s) <= MAX_UINT64 {
      ValueThenFormat(s);
    }
  }

  /** Everything else reads as 0: the empty string, a non-digit, or a number of 2^64 or more.
      A non-zero answer is always the number that was written. */
  lemma ParseZeroIff(s: string)
    ensures ParseRVOrZero(s) == 0
       <==> s == "" || (exists i :: 0 <= i < |s| && !IsDigit(s[i]))
            || NumeralValue(s) > MAX_UINT64 || NumeralValue(s) == 0
  {}

  /** One more digit: the numeral so far, times ten, plus the digit. */
  lemma NextDigit(s: string, i: nat)
    requires i < |s| && AllDigits(s[..i]) && IsDigit(s[i])
    ensures AllDigits(s[..i + 1]) && NumeralValue(s[..i + 1]) == 10 * NumeralValue(s[..i]) + DigitValue(s[i])
  {
    assert s[..i + 1] == s[..i] + [s[i]];
    assert s[..i + 1][..i] == s[..i];
  }

  /** More digits never make a number smaller. */
  lemma {:induction false} PrefixIsNoLarger(s: string, i: nat)
    requires AllDigits(s) && i <= |s|
    ensures NumeralValue(s[..i]) <= NumeralValue(s)
  {
    if i == |s| {
      assert s[..i] == s;
    } else {
      PrefixIsNoLarger(s[..|s| - 1], i);
      assert s[..|s| - 1][..i] == s[..i];
    }
  }

  /** strconv.ParseUint for base 10 and 64 bits: digit by digit on a uint64, which must not wrap.
      The cut-off stops the multiplication, and a sum that wraps shows as one that got smaller. */
  method ParseUint(s: string) returns (v: Uint64, ok: bool)
    ensures ok <==> Numeral(s) && NumeralValue(s) <= MAX_UINT64
    ensures ok ==> v == NumeralValue(s)
  {
    if s == "" {
      return 0, false;
    }
    var cutoff: Uint64 := MAX_UINT64 / 10 + 1;
    v := 0;
    for i := 0 to |s|
      invariant AllDigits(s[..i]) && v == NumeralValue(s[..i])
    {
      if !IsDigit(s[i]) {
        return 0, false;
      }
      NextDigit(s, i);
      if AllDigits(s) {
        PrefixIsNoLarger(s, i + 1);
      }
      if v >= cutoff {
        return MAX_UINT64, false;
      }
      var shifted: Uint64 := v * 10;
      var next: Uint64 := (shifted + DigitValue(s[i])) % TWO_TO_64;
      if next < shifted {
        return MAX_UINT64, false;
      }
      v := next;
    }
    assert s[..|s|] == s;
    ok := true;
  }

  /** parseRVOrZero as it is written, over the parser. */
  method ReadRVOrZero(s: string) returns (v: Uint64)
    ensures v == ParseRVOrZero(s)
    ensures v == 0 <==> s == "" || (exists i :: 0 <= i < |s| && !IsDigit(s[i]))
                        || NumeralValue(s) > MAX_UINT64 || NumeralValue(s) == 0
  {
    var ok;
    v, ok := ParseUint(s);
    if !ok {
      v := 0;
    }
    ParseZeroIff(s);
  }

  /** The conflict check compares strings. Against a stamped version, which is never 0, that is
      a comparison of numbers, except that a numeral with leading zeros never matches. */
  lemma ConflictCheckIsNumeric(named: string, current: Uint64)
    requires current > 0
    ensures named == FormatRV(current) <==> Canonical(named) && ParseRVOrZero(named) == current
  {
    FormatThenValue(current);
    if Canonical(named) && ParseRVOrZero(named) == current {
      ValueThenFormat(named);
    }
  }
}
