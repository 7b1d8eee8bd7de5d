/** The decimal form of a token amount: two printers, one parser, and what ties them. */
module UiAmount {
  import opened Types
  import opened Decimal

  /** `amount` padded with zeros on the left to at least `width` digits. */
  function Padded(amount: u64, width: nat): (s: Bytes)
    ensures width <= |s| && 0 < |s| && AllDigits(s) && Value(s) == amount
  {
    var d := Digits(amount);
    if |d| < width then
      var zeros := Zeros(width - |d|);
      ValueOfZeros(zeros);
      ValueAppend(zeros, d);
      zeros + d
    else d
  }

  /** The text before the first dot, and the text after it. */
  function Whole(s: Bytes): Bytes {
    s[..IndexOf(s, DOT)]
  }

  function Fraction(s: Bytes): Bytes {
    var i := IndexOf(s, DOT);
    if i < |s| then s[i + 1..] else []
  }

  /** The text of the parser's numeral: whole part, trimmed fraction, zeros up to `decimals`. */
  function Numeral(s: Bytes, decimals: u8): Bytes
    requires |TrimEnd(Fraction(s), ZERO)| <= decimals
  {
    var t := TrimEnd(Fraction(s), ZERO);
    Whole(s) + t + Zeros(decimals - |t|)
  }

  function TryUiAmountIntoAmountSpec(s: Bytes, decimals: u8): Result<u64> {
    var t := TrimEnd(Fraction(s), ZERO);
    if (Whole(s) == [] && t == []) || DOT in Fraction(s) || |t| > decimals then Err(InvalidArgument)
    else ParseU64(Numeral(s, decimals))
  }

  function AmountToUiAmountStringSpec(amount: u64, decimals: u8): Bytes {
    if decimals > 0 then
      var p := Padded(amount, decimals + 1);
      p[..|p| - decimals] + [DOT] + p[|p| - decimals..]
    else Digits(amount)
  }

  function AmountToUiAmountStringTrimmedSpec(amount: u64, decimals: u8): Bytes {
    var s := AmountToUiAmountStringSpec(amount, decimals);
    if decimals > 0 then TrimEnd(TrimEnd(s, ZERO), DOT) else s
  }

  // ---- The source's string-editing procedures ----

  /** The formatter's zero padding to a minimum width. */
  method PadLeft(amount: u64, width: nat) returns (s: Bytes)
    ensures s == Padded(amount, width)
  {
    var d := Digits(amount);
    var padding: Bytes := [];
    while |padding| + |d| < width
      invariant padding == Zeros(|padding|)
      invariant |padding| == 0 || |padding| + |d| <= width
    {
      padding := padding + [ZERO];
    }
    s := padding + d;
  }

  method AmountToUiAmountString(amount: u64, decimals: u8) returns (s: Bytes)
    ensures s == AmountToUiAmountStringSpec(amount, decimals)
  {
    if decimals > 0 {
      s := PadLeft(amount, decimals + 1);
      var at := |s| - decimals;
      s := s[..at] + [DOT] + s[at..];
    } else {
      s := Digits(amount);
    }
  }

  method TrimEndMatches(s: Bytes, c: u8) returns (t: Bytes)
    ensures t == TrimEnd(s, c)
  {
    var n := |s|;
    while 0 < n && s[n - 1] == c
      invariant 0 <= n <= |s|
      invariant TrimEnd(s[..n], c) == TrimEnd(s, c)
    {
      assert s[..n][..n - 1] == s[..n - 1];
      n := n - 1;
    }
    t := s[..n];
  }

  method AmountToUiAmountStringTrimmed(amount: u64, decimals: u8) returns (s: Bytes)
    ensures s == AmountToUiAmountStringTrimmedSpec(amount, decimals)
  {
    s := AmountToUiAmountString(amount, decimals);
    if decimals > 0 {
      s := TrimEndMatches(s, ZERO);
      s := TrimEndMatches(s, DOT);
    }
  }

  method TryUiAmountIntoAmount(uiAmount: Bytes, decimals: u8) returns (r: Result<u64>)
    ensures r == TryUiAmountIntoAmountSpec(uiAmount, decimals)
  {
    var amountStr := Whole(uiAmount);
    // the second piece of the split, and whether a third follows it
    var rest := Fraction(uiAmount);
    var afterDecimal := rest[..IndexOf(rest, DOT)];
    var another := IndexOf(rest, DOT) < |rest|;
    afterDecimal := TrimEndMatches(afterDecimal, ZERO);
    if another {
      return Err(InvalidArgument);
    }
    assert rest[..|rest|] == rest;
    if (amountStr == [] && afterDecimal == []) || |afterDecimal| > decimals {
      return Err(InvalidArgument);
    }
    amountStr := amountStr + afterDecimal;
    ghost var start := amountStr;
    for k := 0 to decimals - |afterDecimal|
      invariant amountStr == start + Zeros(k)
    {
      amountStr := amountStr + [ZERO];
      assert Zeros(k) + [ZERO] == Zeros(k + 1);
    }
    r := ParseU64(amountStr);
  }

  // ---- What the text denotes ----

  predicate DigitsAndDots(s: Bytes) {
    forall i | 0 <= i < |s| :: IsDigit(s[i]) || s[i] == DOT
  }

  /** The decimal fraction written by `s`, scaled by 10^decimals, is the integer `v`. The value is
      read from the untrimmed text; some digit must be written that the trimming keeps. */
  ghost predicate Denotes(s: Bytes, decimals: u8, v: nat) {
    var w, f := Whole(s), Fraction(s);
    && DigitsAndDots(s)
    && DOT !in f
    && (w != [] || exists i | 0 <= i < |f| :: f[i] != ZERO)
    && AllDigits(w + f)
    && Value(w + f) * Pow10(decimals) == v * Pow10(|f|)
  }

  lemma PiecesAreDigits(s: Bytes)
    requires DOT !in Fraction(s)
    ensures DigitsAndDots(s) <==> AllDigits(Whole(s) + Fraction(s))
  {
    var i := IndexOf(s, DOT);
    var both := Whole(s) + Fraction(s);
    if DigitsAndDots(s) {
      forall k | 0 <= k < |both| ensures IsDigit(both[k]) {
        if k < i {
          assert both[k] == s[k];
        } else {
          assert both[k] == s[k + 1] && s[k + 1] in Fraction(s);
        }
      }
    }
    if AllDigits(both) {
      forall k | 0 <= k < |s| ensures IsDigit(s[k]) || s[k] == DOT {
        if k < i { assert both[k] == s[k]; }
        if k > i { assert both[k - 1] == s[k]; }
      }
    }
  }

  /** Cutting `f` down to its zero-trimmed prefix divides the value by a power of ten. */
  lemma TrimmedValue(w: Bytes, f: Bytes)
    requires AllDigits(w + f)
    ensures var t := TrimEnd(f, ZERO);
      AllDigits(w + t) && Value(w + f) == Value(w + t) * Pow10(|f| - |t|)
  {
    var t := TrimEnd(f, ZERO);
    var cut := f[|t|..];
    ValueOfZeros(cut);
    assert forall k | 0 <= k < |w + t| :: (w + t)[k] == (w + f)[k];
    assert w + f == (w + t) + cut;
    ValueAppend(w + t, cut);
  }

  // Products, one at a time.

  lemma Assoc(p: int, x: int, q: int)
    ensures x * p * q == p * (x * q) && x * (p * q) == p * (x * q)
  {
  }

  lemma Distribute(c: int, a: int, b: int)
    ensures c * (a - b) == c * a - c * b
  {
  }

  lemma SignOfProduct(c: nat, x: int)
    requires 0 < c
    ensures 0 < x ==> 0 < c * x
    ensures x < 0 ==> c * x < 0
  {
  }

  lemma CancelLeft(c: nat, a: int, b: int)
    requires 0 < c && c * a == c * b
    ensures a == b
  {
    Distribute(c, a, b);
    SignOfProduct(c, a - b);
  }

  /** A common factor on either side of an equation. */
  lemma CancelBoth(p: nat, x: int, q: int, v: int, r: int)
    requires 0 < p
    ensures x * p * q == v * (p * r) <==> x * q == v * r
  {
    Assoc(p, x, q);
    Assoc(p, v, r);
    if p * (x * q) == p * (v * r) {
      CancelLeft(p, x * q, v * r);
    }
  }

  lemma CancelTail(p: nat, x: int, r: int, v: int)
    requires 0 < p
    ensures x * (p * r) == v * p <==> x * r == v
  {
    Assoc(p, x, r);
    Assoc(p, v, 1);
    if p * (x * r) == p * v {
      CancelLeft(p, x * r, v);
    }
  }

  lemma CancelFront(p: nat, x: int, v: int, r: int)
    requires 0 < p
    ensures x * p == v * (p * r) <==> x == v * r
  {
    Assoc(p, v, r);
    Assoc(p, x, 1);
    if p * x == p * (v * r) {
      CancelLeft(p, x, v * r);
    }
  }

  /** The fraction shortened from `f` to `t` digits. */
  lemma ScaledShort(y: nat, x: nat, f: nat, t: nat, decimals: nat, v: nat)
    requires t <= f && y == x * Pow10(f - t)
    ensures y * Pow10(decimals) == v * Pow10(f) <==> x * Pow10(decimals) == v * Pow10(t)
  {
    PowAdd(f - t, t);
    CancelBoth(Pow10(f - t), x, Pow10(decimals), v, Pow10(t));
  }

  lemma ScaledFits(x: nat, t: nat, decimals: nat, v: nat)
    requires t <= decimals
    ensures x * Pow10(decimals) == v * Pow10(t) <==> x * Pow10(decimals - t) == v
  {
    PowAdd(t, decimals - t);
    CancelTail(Pow10(t), x, Pow10(decimals - t), v);
  }

  lemma ScaledTooLong(x: nat, t: nat, decimals: nat, v: nat)
    requires decimals < t && x % 10 != 0
    ensures x * Pow10(decimals) != v * Pow10(t)
  {
    PowAdd(decimals, t - decimals);
    CancelFront(Pow10(decimals), x, v, Pow10(t - decimals));
    TimesTen(v, Pow10(t - decimals - 1));
    assert v * Pow10(t - decimals) == 10 * (v * Pow10(t - decimals - 1));
  }

  /** The arithmetic core: a value `x` of a text trimmed to `t` of its `f` fraction digits, with
      the trimmed text not ending in zero. */
  lemma ScaledValue(y: nat, x: nat, f: nat, t: nat, decimals: nat, v: nat)
    requires t <= f && y == x * Pow10(f - t)
    requires decimals < t ==> x % 10 != 0
    ensures y * Pow10(decimals) == v * Pow10(f)
       <==> t <= decimals && x * Pow10(decimals - t) == v
  {
    ScaledShort(y, x, f, t, decimals, v);
    if t <= decimals {
      ScaledFits(x, t, decimals, v);
    } else {
      ScaledTooLong(x, t, decimals, v);
    }
  }

  lemma ParseOfNumeral(s: Bytes, v: u64)
    ensures ParseU64(s) == Ok(v) <==>
      var d := if 1 < |s| && s[0] == PLUS then s[1..] else s;
      |d| > 0 && AllDigits(d) && Value(d) == v
  {
  }

  lemma NumeralValue(w: Bytes, t: Bytes, k: nat)
    ensures AllDigits(w + t + Zeros(k)) <==> AllDigits(w + t)
    ensures AllDigits(w + t) ==> Value(w + t + Zeros(k)) == Value(w + t) * Pow10(k)
  {
    var n := w + t + Zeros(k);
    if AllDigits(n) {
      forall i | 0 <= i < |w + t| ensures IsDigit((w + t)[i]) {
        assert n[i] == (w + t)[i];
      }
    }
    if AllDigits(w + t) {
      ValueAppend(w + t, Zeros(k));
      ValueOfZeros(Zeros(k));
    }
  }

  lemma TrimKeepsDigits(w: Bytes, f: Bytes)
    ensures AllDigits(w + TrimEnd(f, ZERO)) <==> AllDigits(w + f)
  {
    var t := TrimEnd(f, ZERO);
    assert forall k | 0 <= k < |w + t| :: (w + t)[k] == (w + f)[k];
    if AllDigits(w + t) {
      forall k | 0 <= k < |w + f| ensures IsDigit((w + f)[k]) {
        if k >= |w + t| { assert (w + f)[k] == f[k - |w|]; }
        else { assert (w + f)[k] == (w + t)[k]; }
      }
    }
  }

  lemma TrimmedEmpty(f: Bytes)
    ensures TrimEnd(f, ZERO) == [] <==> forall i | 0 <= i < |f| :: f[i] == ZERO
  {
    var t := TrimEnd(f, ZERO);
    if t != [] {
      assert f[|t| - 1] == t[|t| - 1] != ZERO;
    }
  }

  lemma LastDigit(w: Bytes, t: Bytes)
    requires AllDigits(w + t) && 0 < |t| && t[|t| - 1] != ZERO
    ensures Value(w + t) % 10 != 0
  {
    assert (w + t)[|w + t| - 1] == t[|t| - 1];
    ValueSnoc(w + t, (w + t)[..|w + t| - 1]);
  }

  lemma ScaledText(w: Bytes, f: Bytes, decimals: u8, v: nat)
    requires AllDigits(w + f)
    ensures var t := TrimEnd(f, ZERO);
      AllDigits(w + t) &&
      (Value(w + f) * Pow10(decimals) == v * Pow10(|f|) <==>
       |t| <= decimals && Value(w + t) * Pow10(decimals - |t|) == v)
  {
    var t := TrimEnd(f, ZERO);
    TrimmedValue(w, f);
    if decimals < |t| {
      LastDigit(w, t);
    }
    ScaledValue(Value(w + f), Value(w + t), |f|, |t|, decimals, v);
  }

  /** The numeral of a text with whole part `w` and fraction `f`, once the pieces are digits. */
  lemma NumeralDenotes(w: Bytes, f: Bytes, decimals: u8, v: nat)
    ensures var t := TrimEnd(f, ZERO);
      (|t| <= decimals && AllDigits(w + t + Zeros(decimals - |t|)) && Value(w + t + Zeros(decimals - |t|)) == v)
      <==>
      (AllDigits(w + f) && Value(w + f) * Pow10(decimals) == v * Pow10(|f|))
  {
    var t := TrimEnd(f, ZERO);
    TrimKeepsDigits(w, f);
    if |t| <= decimals {
      NumeralValue(w, t, decimals - |t|);
    }
    if AllDigits(w + f) {
      ScaledText(w, f, decimals, v);
    }
  }

  /** The digits to be parsed begin with a plus sign: the text does, or it has no whole part and its
      fraction does. */
  predicate OpensWithPlus(s: Bytes) {
    var glued := Whole(s) + TrimEnd(Fraction(s), ZERO);
    0 < |glued| && glued[0] == PLUS
  }

  lemma OpeningPlusIsWritten(s: Bytes)
    requires OpensWithPlus(s)
    ensures PLUS in s
  {
    var w, t := Whole(s), TrimEnd(Fraction(s), ZERO);
    if w != [] {
      assert (w + t)[0] == s[0];
    } else {
      assert (w + t)[0] == t[0] == Fraction(s)[0] == s[IndexOf(s, DOT) + 1];
    }
  }

  /** Exact acceptance: unless the digits open with a plus sign, the parser returns `v` iff the text
      denotes `v` at that many decimals. */
  lemma AcceptsExactly(s: Bytes, decimals: u8, v: u64)
    requires !OpensWithPlus(s)
    ensures TryUiAmountIntoAmountSpec(s, decimals) == Ok(v) <==> Denotes(s, decimals, v)
  {
    var w, f := Whole(s), Fraction(s);
    var t := TrimEnd(f, ZERO);
    TrimmedEmpty(f);
    if DOT !in f {
      PiecesAreDigits(s);
      NumeralDenotes(w, f, decimals, v);
      if |t| <= decimals && (w != [] || t != []) {
        assert Numeral(s, decimals)[0] == (w + t)[0];
        ParseOfNumeral(Numeral(s, decimals), v);
      }
    }
  }

  /** A plus sign, then digits that make a number in range. */
  predicate IsSignedNumeral(s: Bytes, decimals: u8) {
    && OpensWithPlus(s) && DOT !in Fraction(s) && |TrimEnd(Fraction(s), ZERO)| <= decimals
    && var digits := Numeral(s, decimals)[1..];
    digits != [] && AllDigits(digits) && Value(digits) < 0x1_0000_0000_0000_0000
  }

  /** Opening with a plus sign, the text denotes nothing, and the parser takes it as a sign. */
  lemma PlusIsASign(s: Bytes, decimals: u8, v: u64)
    requires OpensWithPlus(s)
    ensures !Denotes(s, decimals, v)
    ensures TryUiAmountIntoAmountSpec(s, decimals) == Ok(v) <==>
      IsSignedNumeral(s, decimals) && Value(Numeral(s, decimals)[1..]) == v
  {
    OpeningPlusIsWritten(s);
    var w, t := Whole(s), TrimEnd(Fraction(s), ZERO);
    if DOT !in Fraction(s) && |t| <= decimals {
      assert Numeral(s, decimals)[0] == (w + t)[0];
      ParseOfNumeral(Numeral(s, decimals), v);
    }
  }

  /** So the parser returns what the text denotes, and refuses the texts that denote nothing, for
      exactly the texts that are not signed numerals. */
  lemma AcceptsWhatIsDenotedIff(s: Bytes, decimals: u8)
    ensures (forall v: u64 :: TryUiAmountIntoAmountSpec(s, decimals) == Ok(v) <==> Denotes(s, decimals, v))
       <==> !IsSignedNumeral(s, decimals)
  {
    forall v: u64
      ensures !OpensWithPlus(s) ==> (TryUiAmountIntoAmountSpec(s, decimals) == Ok(v) <==> Denotes(s, decimals, v))
      ensures OpensWithPlus(s) ==> !Denotes(s, decimals, v)
      ensures OpensWithPlus(s) ==>
        (TryUiAmountIntoAmountSpec(s, decimals) == Ok(v) <==>
           IsSignedNumeral(s, decimals) && Value(Numeral(s, decimals)[1..]) == v)
    {
      if OpensWithPlus(s) {
        PlusIsASign(s, decimals, v);
      } else {
        AcceptsExactly(s, decimals, v);
      }
    }
    if IsSignedNumeral(s, decimals) {
      var v: u64 := Value(Numeral(s, decimals)[1..]);
      assert TryUiAmountIntoAmountSpec(s, decimals) == Ok(v);
    }
  }

  /** Such a text: ".+5" is 5 at two decimals, neither 50 nor refused. */
  lemma PlusInFractionIsTaken()
    ensures IsSignedNumeral([DOT, PLUS, 53], 2) && TryUiAmountIntoAmountSpec([DOT, PLUS, 53], 2) == Ok(5)
  {
    var s: Bytes := [DOT, PLUS, 53];
    assert Whole(s) == [] && Fraction(s) == [PLUS, 53];
    assert TrimEnd(Fraction(s), ZERO) == [PLUS, 53];
    assert Numeral(s, 2) == [PLUS, 53];
    assert [PLUS, 53][1..] == [53];
    assert Value([53]) == 5 by { assert [53][..0] == []; }
  }

  // ---- Round trips ----

  lemma FirstDot(w: Bytes, f: Bytes)
    requires AllDigits(w)
    ensures Whole(w + [DOT] + f) == w && Fraction(w + [DOT] + f) == f
  {
    var s := w + [DOT] + f;
    assert s[|w|] == DOT && forall k | 0 <= k < |w| :: s[k] == w[k];
    assert IndexOf(s, DOT) == |w|;
  }

  /** The text of digits `w` and fraction `f`, with a dot only before a fraction. */
  function Dotted(w: Bytes, f: Bytes): Bytes {
    if f == [] then w else w + [DOT] + f
  }

  lemma DottedPieces(w: Bytes, f: Bytes)
    requires AllDigits(w) && AllDigits(f)
    ensures var s := Dotted(w, f);
      Whole(s) == w && Fraction(s) == f && PLUS !in s && DigitsAndDots(s)
    ensures DOT !in f && AllDigits(w + f)
  {
    if f != [] {
      FirstDot(w, f);
    }
  }

  /** Digits around one dot, or digits alone, denote their joint value scaled by the fraction. */
  lemma DigitsDenote(w: Bytes, f: Bytes, decimals: u8, v: nat)
    requires AllDigits(w) && AllDigits(f) && 0 < |w| && AllDigits(w + f)
    requires Value(w + f) * Pow10(decimals) == v * Pow10(|f|)
    ensures PLUS !in Dotted(w, f) && Denotes(Dotted(w, f), decimals, v)
  {
    DottedPieces(w, f);
  }

  lemma SplitDigits(p: Bytes, k: nat)
    requires AllDigits(p) && k <= |p|
    ensures AllDigits(p[..k]) && AllDigits(p[k..]) && p[..k] + p[k..] == p
  {
  }

  /** The padded digits, split where the dot goes. */
  lemma PaddedPieces(amount: u64, decimals: u8)
    ensures var p := Padded(amount, decimals + 1);
      var w, f := p[..|p| - decimals], p[|p| - decimals..];
      AllDigits(w) && AllDigits(f) && 0 < |w| && w + f == p
  {
    var p := Padded(amount, decimals + 1);
    SplitDigits(p, |p| - decimals);
  }

  lemma PrintedDotted(amount: u64, decimals: u8)
    requires 0 < decimals
    ensures var p := Padded(amount, decimals + 1);
      AmountToUiAmountStringSpec(amount, decimals) == Dotted(p[..|p| - decimals], p[|p| - decimals..])
  {
  }

  /** All digits printed, the last `decimals` of them behind the dot. */
  lemma SplitDenotes(w: Bytes, f: Bytes, decimals: u8, v: nat)
    requires AllDigits(w) && AllDigits(f) && 0 < |w| && |f| == decimals && AllDigits(w + f) && Value(w + f) == v
    ensures PLUS !in Dotted(w, f) && Denotes(Dotted(w, f), decimals, v)
  {
    DigitsDenote(w, f, decimals, v);
  }

  /** Every printed amount, padded or trimmed, denotes the amount. */
  lemma PrintedDenotes(amount: u64, decimals: u8)
    ensures var s := AmountToUiAmountStringSpec(amount, decimals);
      PLUS !in s && Denotes(s, decimals, amount)
  {
    if decimals > 0 {
      var p := Padded(amount, decimals + 1);
      PaddedPieces(amount, decimals);
      PrintedDotted(amount, decimals);
      SplitDenotes(p[..|p| - decimals], p[|p| - decimals..], decimals, amount);
    } else {
      assert Digits(amount) + [] == Digits(amount);
      SplitDenotes(Digits(amount), [], decimals, amount);
    }
  }

  lemma TrimmedText(amount: u64, decimals: u8)
    requires 0 < decimals
    ensures var p := Padded(amount, decimals + 1);
      var w, f := p[..|p| - decimals], p[|p| - decimals..];
      AmountToUiAmountStringTrimmedSpec(amount, decimals) == Dotted(w, TrimEnd(f, ZERO))
  {
    PaddedPieces(amount, decimals);
    var p := Padded(amount, decimals + 1);
    var w, f := p[..|p| - decimals], p[|p| - decimals..];
    TrimStopsAtDot(w, f);
    calc {
      AmountToUiAmountStringTrimmedSpec(amount, decimals);
      TrimEnd(TrimEnd(AmountToUiAmountStringSpec(amount, decimals), ZERO), DOT);
      TrimEnd(TrimEnd(w + [DOT] + f, ZERO), DOT);
    }
  }

  lemma TrimmedDenotes(amount: u64, decimals: u8)
    ensures var s := AmountToUiAmountStringTrimmedSpec(amount, decimals);
      PLUS !in s && Denotes(s, decimals, amount)
  {
    if decimals == 0 {
      PrintedDenotes(amount, decimals);
    } else {
      var p := Padded(amount, decimals + 1);
      PaddedPieces(amount, decimals);
      TrimmedText(amount, decimals);
      TrimmedTextDenotes(p[..|p| - decimals], p[|p| - decimals..], decimals, amount);
    }
  }

  lemma TrimmedTextDenotes(w: Bytes, f: Bytes, decimals: u8, v: nat)
    requires AllDigits(w) && AllDigits(f) && 0 < |w| && |f| == decimals
    requires AllDigits(w + f) && Value(w + f) == v
    ensures var s := Dotted(w, TrimEnd(f, ZERO));
      PLUS !in s && Denotes(s, decimals, v)
  {
    var t := TrimEnd(f, ZERO);
    TrimmedValue(w, f);
    TrimmedScale(Value(w + t), |f|, |t|, decimals, v);
    DigitsDenote(w, t, decimals, v);
  }

  lemma TrimmedScale(x: nat, f: nat, t: nat, decimals: nat, v: nat)
    requires t <= f == decimals && x * Pow10(f - t) == v
    ensures x * Pow10(decimals) == v * Pow10(t)
  {
    PowAdd(f - t, t);
    Assoc(x, Pow10(f - t), Pow10(t));
    Assoc(Pow10(f - t), x, Pow10(t));
  }

  /** Trimming zeros and then dots off `w.f` leaves `w.t`, or `w` when the fraction was all
      zeros; the zeros of `w` itself are safe behind the dot. */
  lemma TrimStopsAtDot(w: Bytes, f: Bytes)
    requires AllDigits(w) && 0 < |w| && AllDigits(f)
    ensures var t := TrimEnd(f, ZERO);
      TrimEnd(TrimEnd(w + [DOT] + f, ZERO), DOT) == Dotted(w, t)
  {
    var t := TrimEnd(f, ZERO);
    TrimSuffix(w + [DOT], f, ZERO);
    if t == [] {
      assert w + [DOT] + t == w + [DOT];
      TrimOne(w, DOT);
    } else {
      TrimNone(w + [DOT] + t, DOT);
    }
  }

  lemma TrimOne(s: Bytes, c: u8)
    requires 0 < |s| && s[|s| - 1] != c
    ensures TrimEnd(s + [c], c) == s
  {
    assert (s + [c])[..|s|] == s;
  }

  lemma TrimNone(s: Bytes, c: u8)
    requires 0 < |s| && s[|s| - 1] != c
    ensures TrimEnd(s, c) == s
  {
  }

  lemma {:induction false} TrimSuffix(a: Bytes, b: Bytes, c: u8)
    requires 0 < |a| && a[|a| - 1] != c
    ensures TrimEnd(a + b, c) == a + TrimEnd(b, c)
  {
    if |b| == 0 {
      assert a + b == a;
    } else if b[|b| - 1] == c {
      TrimSuffix(a, b[..|b| - 1], c);
      assert (a + b)[..|a + b| - 1] == a + b[..|b| - 1];
    }
  }

  lemma AcceptedIfDenoted(s: Bytes, decimals: u8, v: u64)
    requires PLUS !in s && Denotes(s, decimals, v)
    ensures TryUiAmountIntoAmountSpec(s, decimals) == Ok(v)
  {
    if OpensWithPlus(s) {
      OpeningPlusIsWritten(s);
    } else {
      AcceptsExactly(s, decimals, v);
    }
  }

  /** Parsing either printed form of any amount returns the amount. */
  lemma RoundTrip(amount: u64, decimals: u8)
    ensures TryUiAmountIntoAmountSpec(AmountToUiAmountStringSpec(amount, decimals), decimals) == Ok(amount)
    ensures TryUiAmountIntoAmountSpec(AmountToUiAmountStringTrimmedSpec(amount, decimals), decimals) == Ok(amount)
  {
    PrintedDenotes(amount, decimals);
    AcceptedIfDenoted(AmountToUiAmountStringSpec(amount, decimals), decimals, amount);
    TrimmedDenotes(amount, decimals);
    AcceptedIfDenoted(AmountToUiAmountStringTrimmedSpec(amount, decimals), decimals, amount);
  }

  // ---- The form of the printed texts ----

  /** The whole part of the padded digits has no zero in front, unless it is the zero alone. */
  lemma PaddedWhole(amount: u64, decimals: u8) returns (w: Bytes, f: Bytes)
    ensures w + f == Padded(amount, decimals + 1) && |f| == decimals && AllDigits(w) && AllDigits(f)
    ensures IsNumeral(w, Value(w)) && Splits(amount, decimals, Value(w), Value(f))
    ensures w == Padded(amount, decimals + 1)[..|w|] && f == Padded(amount, decimals + 1)[|w|..]
  {
    var p := Padded(amount, decimals + 1);
    w, f := p[..|p| - decimals], p[|p| - decimals..];
    PaddedPieces(amount, decimals);
    SplitValue(w, f);
    PaddedFront(amount, decimals, w);
  }

  lemma PaddedFront(amount: u64, decimals: u8, w: Bytes)
    requires var p := Padded(amount, decimals + 1); 0 < |w| && |w| + decimals == |p| && w == p[..|w|]
    ensures 1 < |w| ==> w[0] != ZERO
  {
    DigitsIsNumeral(amount);
  }

  /** The padded text: the numeral of the whole units, and behind a dot exactly `decimals` digits, the
      rest of the amount; without decimals the numeral of the amount alone. */
  lemma PrintedForm(amount: u64, decimals: u8) returns (w: Bytes, f: Bytes)
    ensures AmountToUiAmountStringSpec(amount, decimals) == if decimals == 0 then w else w + [46] + f
    ensures |f| == decimals && AllDigits(f) && AllDigits(w)
    ensures IsNumeral(w, Value(w)) && Splits(amount, decimals, Value(w), Value(f))
  {
    if decimals == 0 {
      w, f := Digits(amount), [];
      DigitsIsNumeral(amount);
    } else {
      w, f := PaddedWhole(amount, decimals);
    }
  }

  /** `v` with `places` zeros behind it. */
  function ScaledUp(v: nat, places: nat): nat {
    v * Pow10(places)
  }

  /** The numeral of the whole units, and digits of the rest that do not end in zero. */
  predicate IsTrimmedForm(w: Bytes, t: Bytes, amount: u64, decimals: u8) {
    && |t| <= decimals && AllDigits(t) && AllDigits(w) && (t != [] ==> t[|t| - 1] != 48)
    && IsNumeral(w, Value(w)) && Splits(amount, decimals, Value(w), ScaledUp(Value(t), decimals - |t|))
  }

  /** The trimmed text: the numeral of the whole units, and behind a dot the digits of the rest up to
      the last that is not zero; without a rest no dot either. */
  lemma TrimmedForm(amount: u64, decimals: u8) returns (w: Bytes, t: Bytes)
    ensures AmountToUiAmountStringTrimmedSpec(amount, decimals) == if t == [] then w else w + [46] + t
    ensures IsTrimmedForm(w, t, amount, decimals)
  {
    if decimals == 0 {
      w, t := Digits(amount), [];
      DigitsIsNumeral(amount);
    } else {
      var f;
      w, f := PaddedWhole(amount, decimals);
      t := TrimEnd(f, ZERO);
      TrimmedText(amount, decimals);
      TrimmedRest(f, t);
    }
  }

  lemma TrimmedRest(f: Bytes, t: Bytes)
    requires AllDigits(f) && t == TrimEnd(f, ZERO)
    ensures AllDigits(t) && |t| <= |f| && ScaledUp(Value(t), |f| - |t|) == Value(f)
  {
    assert [] + f == f && [] + t == t;
    TrimmedValue([], f);
  }

  /** The units are the quotient and the rest is the remainder, so with one numeral for each number
      the texts are settled. */
  lemma FormIsSettled(amount: u64, decimals: u8, w: Bytes, f: Bytes, v: Bytes, g: Bytes)
    requires AllDigits(w) && AllDigits(f) && AllDigits(v) && AllDigits(g) && |f| == |g| == decimals
    requires IsNumeral(w, Value(w)) && Splits(amount, decimals, Value(w), Value(f))
    requires IsNumeral(v, Value(v)) && Splits(amount, decimals, Value(v), Value(g))
    ensures w == v && f == g
  {
    SplitsIsDivision(amount, decimals, Value(w), Value(f));
    SplitsIsDivision(amount, decimals, Value(v), Value(g));
    NumeralIsUnique(w, v, Value(w));
    SameDigits(f, g);
  }

  /** In particular nothing trails: no dot at the end, and no zero behind a dot. */
  lemma NothingTrails(amount: u64, decimals: u8)
    ensures var s := AmountToUiAmountStringTrimmedSpec(amount, decimals);
      && 0 < |s| && s[|s| - 1] != 46
      && (46 in s ==> s[|s| - 1] != 48)
  {
    var w, t := TrimmedForm(amount, decimals);
    assert 46 !in w;
  }
}
