/** Decimal numerals over ASCII bytes: values, printing, padding and trimming. */
module Decimal {
  import opened Types

  const DOT: u8 := 46
  const PLUS: u8 := 43
  const ZERO: u8 := 48

  predicate IsDigit(b: u8) {
    48 <= b <= 57
  }

  predicate AllDigits(s: Bytes) {
    forall i | 0 <= i < |s| :: IsDigit(s[i])
  }

  function Pow10(n: nat): (p: nat)
    ensures 0 < p
  {
    if n == 0 then 1 else 10 * Pow10(n - 1)
  }

  /** The number a digit string denotes; the empty string denotes zero. */
  function Value(s: Bytes): nat
    requires AllDigits(s)
  {
    if |s| == 0 then 0 else 10 * Value(s[..|s| - 1]) + (s[|s| - 1] - 48)
  }

  /** `n` written in decimal without leading zeros. */
  function Digits(n: nat): (s: Bytes)
    ensures 0 < |s| && AllDigits(s) && Value(s) == n
  {
    if n < 10 then [48 + n]
    else
      var front := Digits(n / 10);
      assert (front + [48 + n % 10])[..|front|] == front;
      front + [48 + n % 10]
  }

  function Zeros(n: nat): (s: Bytes)
    ensures |s| == n && AllDigits(s)
    ensures forall i | 0 <= i < n :: s[i] == ZERO
  {
    seq(n, i => ZERO)
  }

  /** `s` without its trailing run of `c`. */
  function TrimEnd(s: Bytes, c: u8): (t: Bytes)
    ensures t <= s
    ensures forall i | |t| <= i < |s| :: s[i] == c
    ensures t != [] ==> t[|t| - 1] != c
  {
    if |s| > 0 && s[|s| - 1] == c then TrimEnd(s[..|s| - 1], c) else s
  }

  /** The position of the first `c`, or the length. */
  function IndexOf(s: Bytes, c: u8): (i: nat)
    ensures i <= |s|
    ensures i < |s| ==> s[i] == c
    ensures forall k | 0 <= k < i :: s[k] != c
  {
    if |s| == 0 || s[0] == c then 0 else IndexOf(s[1..], c) + 1
  }

  /** `str::parse::<u64>`: an optional plus sign, then digits whose value fits. */
  function ParseU64(s: Bytes): (r: Result<u64>) {
    var digits := if 1 < |s| && s[0] == PLUS then s[1..] else s;
    if |digits| == 0 || !AllDigits(digits) then Err(InvalidArgument)
    else if Value(digits) < 0x1_0000_0000_0000_0000 then Ok(Value(digits))
    else Err(InvalidArgument)
  }

  lemma TimesTen(a: int, b: int)
    ensures 10 * (a * b) == a * (10 * b)
    ensures 10 * (a * b) == (10 * a) * b
  {
  }

  lemma {:induction false} PowAdd(a: nat, b: nat)
    ensures Pow10(a + b) == Pow10(a) * Pow10(b)
  {
    if a > 0 {
      PowAdd(a - 1, b);
      assert Pow10(a + b) == 10 * Pow10(a - 1 + b);
      TimesTen(Pow10(a - 1), Pow10(b));
    }
  }

  /** Appending digits shifts the value of what stands before them. */
  lemma {:induction false} ValueAppend(s: Bytes, t: Bytes)
    requires AllDigits(s) && AllDigits(t)
    ensures AllDigits(s + t)
    ensures Value(s + t) == Value(s) * Pow10(|t|) + Value(t)
  {
    if |t| == 0 {
      assert s + t == s;
    } else {
      var front := t[..|t| - 1];
      ValueAppend(s, front);
      ValueSnoc(s + t, s + front);
      ValueSnoc(t, front);
      TimesTen(Value(s), Pow10(|front|));
    }
  }

  lemma ValueSnoc(s: Bytes, front: Bytes)
    requires 0 < |s| && front == s[..|s| - 1] && AllDigits(front) && IsDigit(s[|s| - 1])
    ensures AllDigits(s) && Value(s) == 10 * Value(front) + (s[|s| - 1] - 48)
  {
  }

  lemma {:induction false} ValueOfZeros(s: Bytes)
    requires forall i | 0 <= i < |s| :: s[i] == ZERO
    ensures AllDigits(s) && Value(s) == 0
  {
    if |s| > 0 {
      ValueOfZeros(s[..|s| - 1]);
    }
  }

  /** The one way to write `n` in decimal: no leading zero, unless it is the zero alone. */
  predicate IsNumeral(s: Bytes, n: nat) {
    AllDigits(s) && Value(s) == n && 0 < |s| && (1 < |s| ==> s[0] != ZERO)
  }

  lemma {:induction false} DigitsIsNumeral(n: nat)
    ensures IsNumeral(Digits(n), n)
  {
    if 10 <= n {
      DigitsIsNumeral(n / 10);
      var front := Digits(n / 10);
      assert Digits(n)[0] == front[0];
      if |front| == 1 {
        assert front[..0] == [];
        assert Value(front) == front[0] - 48;
      }
    }
  }

  lemma {:induction false} ValueBound(s: Bytes)
    requires AllDigits(s)
    ensures Value(s) < Pow10(|s|)
  {
    if |s| > 0 {
      ValueBound(s[..|s| - 1]);
    }
  }

  /** A numeral of more than one digit has a value to match its length. */
  lemma {:induction false} NumeralIsLong(s: Bytes)
    requires AllDigits(s) && 0 < |s| && s[0] != ZERO
    ensures Pow10(|s| - 1) <= Value(s)
  {
    var front := s[..|s| - 1];
    if |s| > 1 {
      NumeralIsLong(front);
    } else {
      assert front == [];
    }
  }

  /** `n` is `units` times ten to the `places`, and a rest. */
  predicate Splits(n: nat, places: nat, units: nat, rest: nat) {
    units * Pow10(places) + rest == n && rest < Pow10(places)
  }

  lemma SplitsIsDivision(n: nat, places: nat, units: nat, rest: nat)
    requires Splits(n, places, units, rest)
    ensures units == n / Pow10(places) && rest == n % Pow10(places)
  {
    Quotient(units, rest, Pow10(places), n);
  }

  lemma Quotient(q: nat, r: nat, d: nat, n: nat)
    requires q * d + r == n && r < d
    ensures n / d == q && n % d == r
  {
    var e := n / d - q;
    Distributes(d, q, e);
    SmallMultiple(d, e);
  }

  lemma Distributes(d: int, q: int, e: int)
    ensures d * (q + e) == d * q + d * e
  {
  }

  lemma SmallMultiple(d: int, e: int)
    requires 0 < d && -d < d * e < d
    ensures e == 0
  {
    if e >= 1 {
      AtLeastOnce(d, e);
    } else if e <= -1 {
      AtLeastOnce(d, -e);
      Distributes(d, e, -e);
    }
  }

  lemma AtLeastOnce(d: int, e: int)
    requires 0 < d && 1 <= e
    ensures d <= d * e
  {
  }

  /** Digits cut off the end are the rest. */
  lemma SplitValue(w: Bytes, f: Bytes)
    requires AllDigits(w) && AllDigits(f) && AllDigits(w + f)
    ensures Splits(Value(w + f), |f|, Value(w), Value(f))
  {
    ValueAppend(w, f);
    ValueBound(f);
  }

  /** Two numerals of one number are the same text. */
  lemma {:induction false} NumeralIsUnique(s: Bytes, t: Bytes, n: nat)
    requires IsNumeral(s, n) && IsNumeral(t, n)
    ensures s == t
    decreases |s|
  {
    SameLength(s, t, n);
    SameDigits(s, t);
  }

  lemma SameLength(s: Bytes, t: Bytes, n: nat)
    requires IsNumeral(s, n) && IsNumeral(t, n)
    ensures |s| == |t|
  {
    if |s| < |t| {
      Longer(s, t);
    } else if |t| < |s| {
      Longer(t, s);
    }
  }

  lemma Longer(s: Bytes, t: Bytes)
    requires AllDigits(s) && AllDigits(t) && |s| < |t| && 0 < |s| && t[0] != ZERO
    ensures Value(s) < Value(t)
  {
    ValueBound(s);
    NumeralIsLong(t);
    PowMonotone(|s|, |t| - 1);
  }

  lemma {:induction false} PowMonotone(a: nat, b: nat)
    requires a <= b
    ensures Pow10(a) <= Pow10(b)
    decreases b
  {
    if a < b {
      PowMonotone(a, b - 1);
    }
  }

  lemma {:induction false} SameDigits(s: Bytes, t: Bytes)
    requires AllDigits(s) && AllDigits(t) && |s| == |t| && Value(s) == Value(t)
    ensures s == t
  {
    if |s| > 0 {
      SameDigits(s[..|s| - 1], t[..|t| - 1]);
      assert s == s[..|s| - 1] + [s[|s| - 1]] && t == t[..|t| - 1] + [t[|t| - 1]];
    }
  }
}
