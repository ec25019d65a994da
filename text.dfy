/**
 * The .NET string operations the client relies on: String.IndexOf(char),
 * String.Remove(int, int), String.Insert(int, string) and Int32.ToString(),
 * each with the exception it raises on out-of-range arguments.
 */
module Text {
  import opened Wrappers

  /** String.IndexOf(char): the first position of `c` in `s`, or -1. */
  function IndexOf(s: string, c: char): (r: int)
    ensures -1 <= r < |s|
    ensures r == -1 <==> c !in s
    ensures r >= 0 ==> s[r] == c && c !in s[..r]
  {
    if |s| == 0 then -1
    else if s[0] == c then 0
    else
      var k := IndexOf(s[1..], c);
      if k < 0 then -1
      else
        assert s[..k + 1] == [s[0]] + s[1..][..k];
        k + 1
  }

  /** The first occurrence is the only position before which `c` does not occur. */
  lemma IndexOfUnique(s: string, c: char, i: nat)
    requires i < |s| && s[i] == c && c !in s[..i]
    ensures IndexOf(s, c) == i
  {
    assert forall j :: 0 <= j < i ==> s[..i][j] == s[j];
    assert forall j :: 0 <= j < IndexOf(s, c) ==> s[..IndexOf(s, c)][j] == s[j];
  }

  /**
   * String.Remove(startIndex, count): `s` without the `count` characters
   * starting at `startIndex`; ArgumentOutOfRange when either is negative or
   * the span runs past the end.
   */
  function Remove(s: string, startIndex: int, count: int): (r: Result<string, Exception>)
    ensures r.Err? <==> startIndex < 0 || count < 0 || startIndex + count > |s|
    ensures r.Err? ==> r.error == ArgumentOutOfRange
    ensures r.Ok? ==> |r.value| == |s| - count
    ensures r.Ok? ==> (r.value[..startIndex] == s[..startIndex] &&
                       r.value[startIndex..] == s[startIndex + count..])
  {
    if startIndex < 0 || count < 0 || startIndex + count > |s| then Err(ArgumentOutOfRange)
    else Ok(s[..startIndex] + s[startIndex + count..])
  }

  /**
   * String.Insert(startIndex, value): `value` placed before position
   * `startIndex`; ArgumentOutOfRange unless 0 <= startIndex <= |s|.
   */
  function Insert(s: string, startIndex: int, value: string): (r: Result<string, Exception>)
    ensures r.Err? <==> startIndex < 0 || startIndex > |s|
    ensures r.Err? ==> r.error == ArgumentOutOfRange
    ensures r.Ok? ==> |r.value| == |s| + |value|
    ensures r.Ok? ==> (r.value[..startIndex] == s[..startIndex] &&
                       r.value[startIndex..startIndex + |value|] == value &&
                       r.value[startIndex + |value|..] == s[startIndex..])
  {
    if startIndex < 0 || startIndex > |s| then Err(ArgumentOutOfRange)
    else Ok(s[..startIndex] + value + s[startIndex..])
  }

  /** Removing what was just inserted gives the original string back. */
  lemma {:induction false} RemoveUndoesInsert(s: string, i: int, value: string)
    requires 0 <= i <= |s|
    ensures Insert(s, i, value).Ok?
    ensures Remove(Insert(s, i, value).value, i, |value|) == Ok(s)
  {
    var t := Insert(s, i, value).value;
    var u := Remove(t, i, |value|).value;
    assert u[..i] == s[..i];
    assert u[i..] == s[i..];
    assert u == u[..i] + u[i..];
    assert s == s[..i] + s[i..];
  }

  // ----- Int32.ToString() -----------------------------------------------

  function DigitChar(d: nat): char
    requires d < 10
  {
    "0123456789"[d]
  }

  predicate IsDigit(c: char) {
    '0' <= c <= '9'
  }

  function DigitValue(c: char): nat
    requires IsDigit(c)
  {
    (c as int - '0' as int) as nat
  }

  /** The decimal digits of `n`, most significant first, without leading zeros. */
  function Digits(n: nat): (r: string)
    ensures |r| > 0 && IsDigit(r[0])
  {
    if n < 10 then [DigitChar(n)] else Digits(n / 10) + [DigitChar(n % 10)]
  }

  /**
   * Int32.ToString() under the invariant culture: an optional '-' followed
   * by the decimal digits of the magnitude.
   */
  function DecimalString(n: int): (r: string)
    ensures |r| > 0 && (r[0] == '-' <==> n < 0)
  {
    if n < 0 then "-" + Digits(-n) else Digits(n)
  }

  predicate AllDigits(s: string) {
    forall i :: 0 <= i < |s| ==> IsDigit(s[i])
  }

  /** The value of a string of decimal digits. */
  function ParseDigits(s: string): nat
    requires AllDigits(s)
  {
    if |s| == 0 then 0 else ParseDigits(s[..|s| - 1]) * 10 + DigitValue(s[|s| - 1])
  }

  /** Int32.Parse for what DecimalString produces: optional '-', then at least one digit. */
  function ParseDecimal(s: string): Option<int> {
    if |s| > 1 && s[0] == '-' && AllDigits(s[1..]) then Some(-(ParseDigits(s[1..]) as int))
    else if |s| > 0 && AllDigits(s) then Some(ParseDigits(s))
    else None
  }

  lemma {:induction false} DigitsRoundTrip(n: nat)
    ensures AllDigits(Digits(n))
    ensures ParseDigits(Digits(n)) == n
  {
    if n < 10 {
      assert DigitValue(DigitChar(n)) == n;
    } else {
      DigitsRoundTrip(n / 10);
      var s := Digits(n);
      assert s[..|s| - 1] == Digits(n / 10);
      assert DigitValue(DigitChar(n % 10)) == n % 10;
    }
  }

  /** Every decimal string parses back to the number it was printed from. */
  lemma {:induction false} DecimalStringRoundTrip(n: int)
    ensures ParseDecimal(DecimalString(n)) == Some(n)
  {
    if n < 0 {
      DigitsRoundTrip(-n);
      var s := DecimalString(n);
      assert s[1..] == Digits(-n);
    } else {
      DigitsRoundTrip(n);
      assert Digits(n)[0] != '-';
    }
  }

  /** Distinct numbers print differently. */
  lemma DecimalStringInjective(a: int, b: int)
    requires DecimalString(a) == DecimalString(b)
    ensures a == b
  {
    DecimalStringRoundTrip(a);
    DecimalStringRoundTrip(b);
  }
}
