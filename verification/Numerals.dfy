/** Zero-padded decimal identifiers and Python's order on strings. */
module Numerals {

  function Digit(d: nat): char
    requires d < 10
  {
    '0' + d as char
  }

  predicate IsDigit(c: char) {
    '0' <= c <= '9'
  }

  ghost predicate AllDigits(s: string) {
    forall i :: 0 <= i < |s| ==> IsDigit(s[i])
  }

  /** Decimal notation without leading zeros. */
  function Decimal(n: nat): string {
    if n < 10 then [Digit(n)] else Decimal(n / 10) + [Digit(n % 10)]
  }

  function Zeros(k: nat): string {
    if k == 0 then "" else "0" + Zeros(k - 1)
  }

  /** `f"{n:04d}"`. */
  function Padded(n: nat): string {
    var d := Decimal(n);
    if |d| >= 4 then d else Zeros(4 - |d|) + d
  }

  /** `int(s)` for a string of digits. */
  function Value(s: string): nat {
    if s == "" then 0
    else
      var c := s[|s| - 1];
      Value(s[..|s| - 1]) * 10 + if IsDigit(c) then (c - '0') as nat else 0
  }

  lemma {:induction false} DecimalMeaning(n: nat)
    ensures AllDigits(Decimal(n)) && Value(Decimal(n)) == n && Decimal(n) != ""
    ensures n > 0 ==> Decimal(n)[0] != '0'
  {
    if n >= 10 {
      DecimalMeaning(n / 10);
      assert Decimal(n)[..|Decimal(n)| - 1] == Decimal(n / 10);
    }
  }

  lemma {:induction false} ZerosMeaning(k: nat, s: string)
    requires AllDigits(s)
    ensures AllDigits(Zeros(k) + s) && Value(Zeros(k) + s) == Value(s) && |Zeros(k) + s| == k + |s|
  {
    if k == 0 {
      assert Zeros(k) + s == s;
    } else {
      var rest := Zeros(k - 1) + s;
      ZerosMeaning(k - 1, s);
      LeadingZero(rest);
      OneMoreZero(k, s);
      assert AllDigits("0" + rest);
    }
  }

  lemma {:induction false} OneMoreZero(k: nat, s: string)
    requires k > 0
    ensures Zeros(k) + s == "0" + (Zeros(k - 1) + s)
  {}

  lemma {:induction false} LeadingZero(s: string)
    ensures Value("0" + s) == Value(s)
  {
    if s != "" {
      LeadingZero(s[..|s| - 1]);
      assert ("0" + s)[..|s|] == "0" + s[..|s| - 1];
    }
  }

  lemma {:induction false} PaddedMeaning(n: nat)
    ensures AllDigits(Padded(n)) && Value(Padded(n)) == n && Padded(n) != ""
    ensures n <= 9999 ==> |Padded(n)| == 4
  {
    DecimalMeaning(n);
    DecimalWidth(n);
    PaddingMeaning(Decimal(n), Padded(n));
  }

  /** Padding to four digits keeps the value. */
  lemma {:induction false} PaddingMeaning(d: string, p: string)
    requires AllDigits(d) && d != "" && p == if |d| >= 4 then d else Zeros(4 - |d|) + d
    ensures AllDigits(p) && Value(p) == Value(d) && p != "" && (|d| <= 4 ==> |p| == 4)
  {
    if |d| < 4 {
      ZerosMeaning(4 - |d|, d);
    }
  }

  lemma {:induction false} DecimalWidth(n: nat)
    ensures n <= 9999 ==> |Decimal(n)| <= 4
  {
    if n <= 9999 {
      assert n / 10 <= 999 && n / 10 / 10 <= 99 && n / 10 / 10 / 10 <= 9;
      assert n >= 1000 ==> |Decimal(n / 10 / 10 / 10)| == 1;
      assert n >= 100 ==> |Decimal(n / 10 / 10)| <= 2;
      assert n >= 10 ==> |Decimal(n / 10)| <= 3;
    }
  }

  /** Only one numeral without leading zeros has a given value. */
  lemma {:induction false} DecimalUnique(s: string)
    requires AllDigits(s) && s != "" && s[0] != '0'
    ensures Value(s) >= 1 && s == Decimal(Value(s))
  {
    var n := |s| - 1;
    if n > 0 {
      DecimalUnique(s[..n]);
      assert Value(s) / 10 == Value(s[..n]) && Value(s) % 10 == (s[n] - '0') as nat;
      assert s == s[..n] + [s[n]];
    }
  }

  // ----- order -----

  /** `a < b` on strings. */
  predicate Before(a: string, b: string) {
    b != "" && (a == "" || a[0] < b[0] || (a[0] == b[0] && Before(a[1..], b[1..])))
  }

  /** One string is before another exactly when it is a proper prefix of it, or smaller at the first
      place where they differ. */
  lemma {:induction false} BeforeMeaning(a: string, b: string)
    ensures Before(a, b) <==> exists k: nat :: FirstDifference(a, b, k)
  {
    if a != "" && b != "" && a[0] == b[0] {
      BeforeMeaning(a[1..], b[1..]);
      if k: nat :| FirstDifference(a[1..], b[1..], k) {
        assert FirstDifference(a, b, k + 1);
      }
      if k: nat :| FirstDifference(a, b, k) {
        assert FirstDifference(a[1..], b[1..], k - 1);
      }
    } else if Before(a, b) {
      assert FirstDifference(a, b, 0);
    }
  }

  /** The strings agree on `k` characters, and then `a` ends or has the smaller character. */
  ghost predicate FirstDifference(a: string, b: string, k: nat) {
    && k <= |a| && k < |b| && (forall i :: 0 <= i < k ==> a[i] == b[i])
    && (k == |a| || a[k] < b[k])
  }

  lemma {:induction false} BeforeTotal(a: string, b: string)
    ensures (Before(a, b) || Before(b, a) || a == b) && !(Before(a, b) && Before(b, a)) && !Before(a, a)
  {
    if a != "" {
      BeforeTotal(a[1..], if b == "" then "" else b[1..]);
      assert a == [a[0]] + a[1..];
      assert b != "" ==> b == [b[0]] + b[1..];
    }
  }

  lemma {:induction false} BeforeTransitive(a: string, b: string, c: string)
    requires Before(a, b) && Before(b, c)
    ensures Before(a, c)
  {
    if a != "" && a[0] == b[0] == c[0] {
      BeforeTransitive(a[1..], b[1..], c[1..]);
    }
  }

  /** Between strings of one length the last character decides only among equals. */
  lemma {:induction false} BeforeLast(a: string, b: string, x: char, y: char)
    requires |a| == |b|
    ensures Before(a + [x], b + [y]) <==> Before(a, b) || (a == b && x < y)
  {
    if a == "" {
      assert a + [x] == [x] && b + [y] == [y];
      assert [x][1..] == "" && [y][1..] == "";
    } else {
      BeforeLast(a[1..], b[1..], x, y);
      assert (a + [x])[1..] == a[1..] + [x] && (b + [y])[1..] == b[1..] + [y];
      assert a == [a[0]] + a[1..] && b == [b[0]] + b[1..];
    }
  }

  /** Numerals of one width are ordered as strings the way they are ordered as numbers. */
  lemma {:induction false} BeforeIsLess(a: string, b: string)
    requires AllDigits(a) && AllDigits(b) && |a| == |b|
    ensures Before(a, b) <==> Value(a) < Value(b)
    ensures Value(a) == Value(b) ==> a == b
  {
    if a != "" {
      var n := |a| - 1;
      BeforeIsLess(a[..n], b[..n]);
      BeforeLast(a[..n], b[..n], a[n], b[n]);
      assert a == a[..n] + [a[n]] && b == b[..n] + [b[n]];
    }
  }

  /** Identifiers up to 9999 sort by number. */
  lemma {:induction false} PaddedOrder(m: nat, n: nat)
    requires m <= 9999 && n <= 9999
    ensures Before(Padded(m), Padded(n)) <==> m < n
  {
    PaddedMeaning(m);
    PaddedMeaning(n);
    BeforeIsLess(Padded(m), Padded(n));
  }

  lemma {:induction false} PaddedInjective(m: nat, n: nat)
    ensures Padded(m) == Padded(n) <==> m == n
  {
    PaddedMeaning(m);
    PaddedMeaning(n);
  }

  /** Past 9999 they no longer do. */
  lemma {:induction false} PaddedOrderBreaks()
    ensures Before(Padded(10000), Padded(9999))
  {
    assert Decimal(10000) == "10000" by {
      assert Decimal(1) == "1" && Decimal(10) == "10" && Decimal(100) == "100" && Decimal(1000) == "1000";
    }
    assert Decimal(9999) == "9999" by {
      assert Decimal(9) == "9" && Decimal(99) == "99" && Decimal(999) == "999";
    }
  }
}
