/** The number alternative of the tokenizer against a grammar of numbers: it takes the longest front
    of the text that is one. */
module Numbers {
  import opened Lexer

  predicate Digits(w: string) {
    forall i :: 0 <= i < |w| ==> '0' <= w[i] <= '9'
  }

  /** `12`, or a point with digits on at least one side. */
  predicate IsMantissa(w: string) {
    || (w != "" && Digits(w))
    || exists k :: 0 <= k < |w| && PointAt(w, k)
  }

  predicate PointAt(w: string, k: nat)
    requires k < |w|
  {
    w[k] == '.' && |w| > 1 && Digits(w[..k]) && Digits(w[k + 1..])
  }

  /** `e5`, `E+5` or `e-5`. */
  predicate IsExponent(w: string) {
    && |w| >= 2 && (w[0] == 'e' || w[0] == 'E')
    && (Digits(w[1..]) || (|w| >= 3 && (w[1] == '+' || w[1] == '-') && Digits(w[2..])))
  }

  predicate IsNumber(w: string) {
    exists k :: 0 < k <= |w| && SplitAt(w, k)
  }

  predicate SplitAt(w: string, k: nat)
    requires k <= |w|
  {
    IsMantissa(w[..k]) && (k == |w| || IsExponent(w[k..]))
  }

  lemma MantissaIs(s: string)
    requires Mantissa(s) > 0
    ensures IsMantissa(s[..Mantissa(s)])
    ensures forall i :: 0 <= i < Mantissa(s) ==> IsDigit(s[i]) || s[i] == '.'
  {
    var d, m := Run(IsDigit, s), Mantissa(s);
    if d < m {
      var r := Run(IsDigit, s[d + 1..]);
      assert forall i :: d + 1 <= i < m ==> s[i] == s[d + 1..][i - d - 1];
      assert PointAt(s[..m], d);
    }
  }

  lemma RunAtLeast(s: string, n: nat)
    requires n <= |s| && Digits(s[..n])
    ensures n <= Run(IsDigit, s)
  {
    assert forall i :: 0 <= i < n ==> s[i] == s[..n][i];
  }

  lemma MantissaLongest(s: string, n: nat)
    requires n <= |s| && IsMantissa(s[..n])
    ensures n <= Mantissa(s)
  {
    if Digits(s[..n]) {
      RunAtLeast(s, n);
    } else {
      var k :| 0 <= k < n && PointAt(s[..n], k);
      assert s[..n][..k] == s[..k] && s[..n][k + 1..] == s[k + 1..][..n - k - 1];
      assert forall i :: 0 <= i < k ==> s[i] == s[..k][i];
      RunAll(IsDigit, s, k);
      RunAtLeast(s[k + 1..], n - k - 1);
    }
  }

  lemma FrontOfBack(s: string, k: nat, n: nat)
    requires k <= n <= |s|
    ensures s[..n][k..] == s[k..][..n - k]
  {
  }

  lemma ExponentIs(s: string)
    requires Exponent(s) > 0
    ensures IsExponent(s[..Exponent(s)])
  {
    var x := Exponent(s);
    var k := if |s| > 1 && (s[1] == '+' || s[1] == '-') then 2 else 1;
    FrontOfBack(s, k, x);
    assert Digits(s[k..][..x - k]);
  }

  lemma ExponentLongest(s: string, n: nat)
    requires n <= |s| && IsExponent(s[..n])
    ensures n <= Exponent(s)
  {
    var k := if |s| > 1 && (s[1] == '+' || s[1] == '-') then 2 else 1;
    var w := s[..n];
    assert w[1] == s[1];
    if Digits(w[1..]) { assert IsDigit(w[1..][0]); }
    FrontOfBack(s, k, n);
    RunAtLeast(s[k..], n - k);
  }

  /** What the alternative takes is a number. */
  lemma TakesANumber(s: string)
    ensures MatchNumber(s) > 0 ==> IsNumber(s[..MatchNumber(s)])
  {
    hide Mantissa, Exponent;
    var m, n := Mantissa(s), MatchNumber(s);
    if m > 0 {
      MantissaIs(s);
      assert s[..n][..m] == s[..m];
      if n > m {
        ExponentIs(s[m..]);
        FrontOfBack(s, m, n);
      }
      assert SplitAt(s[..n], m);
    }
  }

  /** And no longer front of the text is one. */
  lemma TakesTheLongest(s: string, n: nat)
    requires n <= |s| && IsNumber(s[..n])
    ensures n <= MatchNumber(s)
  {
    hide Mantissa, Exponent, IsMantissa;
    var k :| 0 < k <= n && SplitAt(s[..n], k);
    assert s[..n][..k] == s[..k];
    MantissaLongest(s, k);
    var m := Mantissa(s);
    if k < n {
      FrontOfBack(s, k, n);
      MantissaIs(s);
      assert s[..n][k] == s[k];
      assert !IsDigit(s[k]) && s[k] != '.';
      assert k == m;
      ExponentLongest(s[m..], n - m);
    }
  }

  /** The number alternative takes the longest number at the front of the text, or nothing exactly
      when no front of it is a number. */
  lemma LongestNumber(s: string)
    ensures MatchNumber(s) > 0 <==> exists n :: 0 <= n <= |s| && IsNumber(s[..n])
    ensures forall n :: 0 <= n <= |s| && IsNumber(s[..n]) ==> n <= MatchNumber(s)
    ensures MatchNumber(s) > 0 ==> IsNumber(s[..MatchNumber(s)])
  {
    hide IsNumber, MatchNumber;
    TakesANumber(s);
    forall n | 0 <= n <= |s| && IsNumber(s[..n])
      ensures 0 < n <= MatchNumber(s)
    {
      TakesTheLongest(s, n);
      NumbersAreNotEmpty(s[..n]);
    }
  }

  lemma NumbersAreNotEmpty(w: string)
    requires IsNumber(w)
    ensures w != ""
  {
  }
}
