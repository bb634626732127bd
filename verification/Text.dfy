/** Splitting strings at a delimiter and printing numbers in decimal. */
module Text {

  /** JavaScript's `split` for a one-character delimiter. */
  function Split(s: string, d: char): (parts: seq<string>)
    ensures |parts| >= 1
  {
    if s == "" then [""]
    else
      var rest := Split(s[1..], d);
      if s[0] == d then [""] + rest else [[s[0]] + rest[0]] + rest[1..]
  }

  /** A prefix without the delimiter is the first part. */
  lemma {:induction false} SplitAfterPrefix(a: string, rest: string, d: char)
    requires d !in a
    ensures Split(a + [d] + rest, d) == [a] + Split(rest, d)
  {
    var s := a + [d] + rest;
    if a == "" {
      assert s[1..] == rest;
    } else {
      SplitAfterPrefix(a[1..], rest, d);
      assert s[1..] == a[1..] + [d] + rest;
      assert a[0] in a && s[0] == a[0];
      assert a == [a[0]] + a[1..];
    }
  }

  lemma {:induction false} SplitWithoutDelimiter(a: string, d: char)
    requires d !in a
    ensures Split(a, d) == [a]
  {
    if a != "" {
      assert a[0] in a && a == [a[0]] + a[1..];
      SplitWithoutDelimiter(a[1..], d);
    }
  }

  function Join(parts: seq<string>, d: char): string
    requires |parts| >= 1
  {
    if |parts| == 1 then parts[0] else parts[0] + [d] + Join(parts[1..], d)
  }

  /** Splitting loses nothing: the parts hold no delimiter and joining them gives the string back. */
  lemma {:induction false} SplitIsInvertedByJoin(s: string, d: char)
    ensures forall i :: 0 <= i < |Split(s, d)| ==> d !in Split(s, d)[i]
    ensures Join(Split(s, d), d) == s
  {
    if s != "" {
      SplitIsInvertedByJoin(s[1..], d);
      var rest := Split(s[1..], d);
      if s[0] == d {
        assert Split(s, d)[1..] == rest;
      } else {
        assert Split(s, d)[1..] == rest[1..];
        assert s == [s[0]] + s[1..];
      }
    }
  }

  predicate IsDigit(c: char) {
    '0' <= c <= '9'
  }

  predicate AllDigits(s: string) {
    forall i :: 0 <= i < |s| ==> IsDigit(s[i])
  }

  function DigitChar(n: nat): (c: char)
    requires n < 10
    ensures IsDigit(c)
  {
    '0' + n as char
  }

  function ToDecimal(n: nat): (s: string)
    ensures AllDigits(s) && |s| >= 1
  {
    if n < 10 then [DigitChar(n)] else ToDecimal(n / 10) + [DigitChar(n % 10)]
  }

  function FromDecimal(s: string): nat
    requires AllDigits(s)
  {
    if s == "" then 0 else 10 * FromDecimal(s[..|s| - 1]) + (s[|s| - 1] - '0') as nat
  }

  /** The regular expression `^[1-9]\d*$`. */
  predicate IsPositiveDecimal(s: string) {
    |s| >= 1 && AllDigits(s) && s[0] != '0'
  }

  lemma {:induction false} DecimalRoundTrip(n: nat)
    ensures FromDecimal(ToDecimal(n)) == n
    ensures n > 0 ==> IsPositiveDecimal(ToDecimal(n))
  {
    var s := ToDecimal(n);
    if n < 10 {
      assert s[..0] == "";
    } else {
      DecimalRoundTrip(n / 10);
      assert s[..|s| - 1] == ToDecimal(n / 10);
    }
  }

  lemma LastDigit(q: nat, d: nat)
    requires d < 10
    ensures (10 * q + d) / 10 == q && (10 * q + d) % 10 == d
  {
  }

  lemma DecimalExtends(front: string, digit: char)
    requires AllDigits(front) && IsDigit(digit) && front != "" && FromDecimal(front) > 0
    requires ToDecimal(FromDecimal(front)) == front
    ensures AllDigits(front + [digit]) && FromDecimal(front + [digit]) > 0
    ensures ToDecimal(FromDecimal(front + [digit])) == front + [digit]
  {
    var s, d := front + [digit], (digit - '0') as nat;
    assert s[..|s| - 1] == front && IsDigit(s[|s| - 1]);
    LastDigit(FromDecimal(front), d);
  }

  lemma {:induction false} DecimalIsCanonical(s: string)
    requires IsPositiveDecimal(s)
    ensures FromDecimal(s) > 0
    ensures ToDecimal(FromDecimal(s)) == s
  {
    var front := s[..|s| - 1];
    assert s == front + [s[|s| - 1]];
    if |s| == 1 {
      assert front == "";
    } else {
      DecimalIsCanonical(front);
      DecimalExtends(front, s[|s| - 1]);
    }
  }
}
