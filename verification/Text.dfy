/** Text order, and decimal digit strings: the printers and parsers of this project share them. */
module Text {

  /** Order of std::string and of file names: byte by byte, a proper prefix first. */
  predicate Before(a: string, b: string) {
    b != "" && (a == "" || a[0] < b[0] || (a[0] == b[0] && Before(a[1..], b[1..])))
  }

  lemma {:induction false} BeforeTotal(a: string, b: string)
    ensures Before(a, b) || Before(b, a) || a == b
    ensures !(Before(a, b) && Before(b, a))
    ensures !Before(a, a)
  {
    if a != "" && b != "" {
      BeforeTotal(a[1..], b[1..]);
    }
    if a != "" {
      BeforeTotal(a[1..], a[1..]);
    }
  }

  lemma {:induction false} BeforeTransitive(a: string, b: string, c: string)
    requires Before(a, b) && Before(b, c)
    ensures Before(a, c)
  {
    if a != "" && a[0] == b[0] && b[0] == c[0] {
      BeforeTransitive(a[1..], b[1..], c[1..]);
    }
  }

  /** Equal-width heads decide first; equal heads leave the decision to the tails. */
  lemma {:induction false} BeforeConcat(a: string, b: string, c: string, d: string)
    requires |a| == |c|
    ensures Before(a + b, c + d) <==> Before(a, c) || (a == c && Before(b, d))
  {
    if a == "" {
      assert a + b == b && c + d == d;
    } else {
      assert (a + b)[1..] == a[1..] + b && (c + d)[1..] == c[1..] + d;
      BeforeConcat(a[1..], b, c[1..], d);
    }
  }

  predicate IsDigit(c: char) {
    '0' <= c <= '9'
  }

  predicate AllDigits(s: string) {
    forall i :: 0 <= i < |s| ==> IsDigit(s[i])
  }

  function DigitValue(c: char): nat
    requires IsDigit(c)
  {
    c as int - '0' as int
  }

  function DigitChar(d: nat): (c: char)
    requires d < 10
    ensures IsDigit(c) && DigitValue(c) == d
  {
    ('0' as int + d) as char
  }

  function Pow10(k: nat): nat
    ensures Pow10(k) >= 1
  {
    if k == 0 then 1 else 10 * Pow10(k - 1)
  }

  /** The number a digit string denotes; the empty string denotes 0. */
  function Value(s: string): nat
    requires AllDigits(s)
  {
    if s == "" then 0 else 10 * Value(s[..|s| - 1]) + DigitValue(s[|s| - 1])
  }

  lemma {:induction false} ValueBound(s: string)
    requires AllDigits(s)
    ensures Value(s) < Pow10(|s|)
  {
    if s != "" {
      ValueBound(s[..|s| - 1]);
    }
  }

  /** v times 10^k. */
  function Scaled(v: nat, k: nat): nat {
    if k == 0 then v else 10 * Scaled(v, k - 1)
  }

  lemma {:induction false} ScaledIsProduct(v: nat, k: nat)
    ensures Scaled(v, k) == v * Pow10(k)
  {
    if k > 0 {
      ScaledIsProduct(v, k - 1);
      TimesTen(v, Pow10(k - 1));
    }
  }

  lemma TimesTen(v: nat, p: nat)
    ensures v * (10 * p) == 10 * (v * p)
  {}

  lemma {:induction false} ValueConcat(a: string, b: string)
    requires AllDigits(a) && AllDigits(b)
    ensures AllDigits(a + b)
    ensures Value(a + b) == Scaled(Value(a), |b|) + Value(b)
  {
    if b == "" {
      assert a + b == a;
    } else {
      var n := |b| - 1;
      assert (a + b)[..|a + b| - 1] == a + b[..n];
      ValueConcat(a, b[..n]);
    }
  }

  /** Zero-padded decimal of exactly `width` digits; what fmt prints for {:0width} when n fits. */
  function Padded(n: nat, width: nat): (s: string)
    ensures |s| == width && AllDigits(s)
  {
    if width == 0 then "" else Padded(n / 10, width - 1) + [DigitChar(n % 10)]
  }

  lemma {:induction false} PaddedValue(n: nat, width: nat)
    requires n < Pow10(width)
    ensures Value(Padded(n, width)) == n
  {
    if width > 0 {
      PaddedValue(n / 10, width - 1);
      var s := Padded(n, width);
      assert s[..width - 1] == Padded(n / 10, width - 1);
    }
  }

  lemma {:induction false} PaddedOfValue(s: string)
    requires AllDigits(s)
    ensures Padded(Value(s), |s|) == s
  {
    if s != "" {
      PaddedOfValue(s[..|s| - 1]);
      assert s == s[..|s| - 1] + [s[|s| - 1]];
    }
  }

  /** Fixed-width digits sort as the numbers they denote. */
  lemma {:induction false} PaddedOrder(n: nat, m: nat, width: nat)
    requires n < Pow10(width) && m < Pow10(width)
    ensures Before(Padded(n, width), Padded(m, width)) <==> n < m
    ensures Padded(n, width) == Padded(m, width) <==> n == m
  {
    if width > 0 {
      PaddedOrder(n / 10, m / 10, width - 1);
      var a, c := Padded(n / 10, width - 1), Padded(m / 10, width - 1);
      var b, d := [DigitChar(n % 10)], [DigitChar(m % 10)];
      BeforeConcat(a, b, c, d);
      assert Before(b, d) <==> n % 10 < m % 10;
      assert Padded(n, width) == Padded(m, width) ==> n == m by {
        PaddedValue(n, width);
        PaddedValue(m, width);
      }
    }
  }

  /** Plain decimal without leading zeros: fmt's {} and std::to_string for a natural number. */
  function Decimal(n: nat): (s: string)
    ensures |s| > 0 && AllDigits(s)
    ensures Value(s) == n
    ensures s[0] == '0' ==> s == "0"
  {
    if n < 10 then [DigitChar(n)]
    else
      var s := Decimal(n / 10) + [DigitChar(n % 10)];
      assert s[..|s| - 1] == Decimal(n / 10);
      s
  }

  lemma {:induction false} DecimalOfValue(s: string)
    requires s != "" && AllDigits(s)
    requires s[0] == '0' ==> s == "0"
    ensures Decimal(Value(s)) == s
  {
    var n := |s| - 1;
    if n > 0 {
      DecimalOfValue(s[..n]);
      assert s == s[..n] + [s[n]];
      LeadingDigit(s[..n]);
      assert Value(s) / 10 == Value(s[..n]);
    } else {
      assert s[..0] == "";
      assert s == [s[0]];
    }
  }

  lemma {:induction false} LeadingDigit(s: string)
    requires s != "" && AllDigits(s) && s[0] != '0'
    ensures Value(s) >= 1
  {
    if |s| > 1 {
      LeadingDigit(s[..|s| - 1]);
    }
  }

  /** Length of the run of digits a text starts with. */
  function DigitRun(s: string): (n: nat)
    ensures n <= |s| && AllDigits(s[..n])
    ensures n < |s| ==> !IsDigit(s[n])
  {
    if s == "" || !IsDigit(s[0]) then 0
    else
      var n := DigitRun(s[1..]);
      assert s[..n + 1] == [s[0]] + s[1..][..n];
      n + 1
  }

  lemma {:induction false} DigitRunOf(a: string, b: string)
    requires AllDigits(a) && (b == "" || !IsDigit(b[0]))
    ensures DigitRun(a + b) == |a|
  {
    if a == "" {
      assert a + b == b;
    } else {
      assert (a + b)[1..] == a[1..] + b;
      DigitRunOf(a[1..], b);
    }
  }

  lemma ValueStep(s: string, n: nat)
    requires n < |s| && AllDigits(s[..n + 1])
    ensures AllDigits(s[..n]) && IsDigit(s[n])
    ensures Value(s[..n + 1]) == 10 * Value(s[..n]) + DigitValue(s[n])
  {
    assert s[..n + 1][..n] == s[..n];
    assert s[..n + 1][n] == s[n];
    forall i | 0 <= i < n ensures IsDigit(s[..n][i]) { assert s[..n + 1][i] == s[i]; }
  }

  lemma RunPrefix(s: string, n: nat)
    requires n <= DigitRun(s)
    ensures AllDigits(s[..n])
  {
    forall i | 0 <= i < n ensures IsDigit(s[..n][i]) { assert s[..DigitRun(s)][i] == s[i]; }
  }

  lemma RunStops(s: string, n: nat)
    requires n <= DigitRun(s)
    ensures n < |s| && IsDigit(s[n]) <==> n < DigitRun(s)
  {
    if n < DigitRun(s) {
      assert s[..DigitRun(s)][n] == s[n];
    }
  }
}
