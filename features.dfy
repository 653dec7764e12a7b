/**
  * Two of the calculator's integer features: the parity check and the
  * primality check by trial division. Their input is the number read from
  * the feature dialog, a finite JavaScript number, taken here as a real.
  */
module Features {
  import opened Text

  predicate IsInteger(x: real)
  {
    x.Floor as real == x
  }

  /** JavaScript's `a % b` for a positive `b`: the remainder of division
      truncated toward zero, so its sign is the dividend's. It is zero
      exactly when `b` divides `a`. */
  function Remainder(a: int, b: int): (r: int)
    requires b > 0
    ensures a >= 0 ==> r == a % b
    ensures r == 0 <==> a % b == 0
    ensures -b < r < b && (r < 0 ==> a < 0)
    ensures a < 0 ==> -b < r <= 0 && (a - r) % b == 0
  {
    NegationKeepsDivisibility(a, b);
    if a < 0 then
      NegatedRemainder(a, b);
      -((-a) % b)
    else a % b
  }

  /** For a negative `a`, `a + ((-a) % b)` is a multiple of `b`. */
  lemma NegatedRemainder(a: int, b: int)
    requires a < 0 && b > 0
    ensures (a + (-a) % b) % b == 0
  {
    var q := (-a) / b;
    assert a + (-a) % b == b * -q;
    MultipleHasNoRemainder(b, -q);
  }

  /** A multiple of `n` leaves no remainder. */
  lemma MultipleHasNoRemainder(n: int, q: int)
    requires n > 0
    ensures (n * q) % n == 0
  {
    var q0 := (n * q) / n;
    assert n * (q - q0) == (n * q) % n;
    if q - q0 >= 1 {
      MulAtLeast(n, q - q0);
      assert false;
    } else if q - q0 <= -1 {
      MulAtLeast(n, q0 - q);
      assert false;
    }
  }

  /** A product with a positive factor is at least the other factor. */
  lemma MulAtLeast(n: int, k: int)
    requires n > 0 && k > 0
    ensures n * k >= n
  {
  }

  /** `b` divides `-a` exactly when it divides `a`. */
  lemma NegationKeepsDivisibility(a: int, b: int)
    requires b > 0
    ensures (-a) % b == 0 <==> a % b == 0
  {
    assert a % b == 0 ==> -a == b * -(a / b);
    assert (-a) % b == 0 ==> a == b * -((-a) / b);
    MultipleHasNoRemainder(b, -(a / b));
    MultipleHasNoRemainder(b, -((-a) / b));
  }

  datatype Parity = NonInteger | Even | Odd

  /** `checkEvenOdd(n)`: even exactly when `n` is an integer that 2
      divides, odd when it is an integer that 2 does not divide. */
  function CheckEvenOdd(n: real): (p: Parity)
    ensures p == NonInteger <==> !IsInteger(n)
    ensures p == Even <==> IsInteger(n) && n.Floor % 2 == 0
    ensures p == Odd <==> IsInteger(n) && n.Floor % 2 == 1
  {
    if !IsInteger(n) then NonInteger
    else if Remainder(n.Floor, 2) == 0 then Even
    else Odd
  }

  /** The text `checkEvenOdd` returns, `shown` being the text of `n`. */
  function ParityMessage(shown: string, p: Parity): (r: string)
    ensures |r| > |shown| && r[..|shown|] == shown
  {
    match p
    case NonInteger => shown + " is not an integer"
    case Even => shown + " is Even"
    case Odd => shown + " is Odd"
  }

  /** The three parity messages for the same number are different, so the
      message tells which verdict was reached. */
  lemma ParityMessageDetermines(shown: string, p: Parity, q: Parity)
    ensures ParityMessage(shown, p) == ParityMessage(shown, q) ==> p == q
  {
  }

  ghost predicate IsPrime(m: int)
  {
    m >= 2 && forall d :: 2 <= d < m ==> m % d != 0
  }

  /** `d` is the smallest divisor of `m` above 1. */
  ghost predicate IsSmallestDivisor(m: int, d: int)
  {
    2 <= d && m % d == 0 && forall e :: 2 <= e < d ==> m % e != 0
  }

  /** A divisor `d` of `m` pairs with the divisor `m / d`. */
  lemma CoDivisor(m: int, d: int)
    requires m > 0 && d > 0 && m % d == 0
    ensures m == d * (m / d) && m / d > 0 && m % (m / d) == 0
  {
    var e := m / d;
    assert m == d * e;
    assert e <= 0 ==> d * e <= 0 by {
      if e <= 0 { MulMonotone(0, d, -e, -e); }
    }
    assert m == e * d;
    MultipleHasNoRemainder(e, d);
  }

  /** `a <= b` and `c <= d` give `a * c <= b * d` for non-negative factors. */
  lemma MulMonotone(a: int, b: int, c: int, d: int)
    requires 0 <= a <= b && 0 <= c <= d
    ensures a * c <= b * d
  {
    assert a * c <= b * c;
    assert b * c <= b * d;
  }

  /** A number is prime exactly when it is at least 2 and nothing from 2
      up to its square root divides it: trial division may stop at the
      square root. */
  lemma PrimeIffNoDivisorUpToRoot(m: int)
    ensures IsPrime(m) <==> m >= 2 && forall d :: 2 <= d && d * d <= m ==> m % d != 0
  {
    if m >= 2 && forall d :: 2 <= d && d * d <= m ==> m % d != 0 {
      forall d | 2 <= d < m ensures m % d != 0 {
        SmallDivisorBelowRoot(m, d);
      }
    }
    if IsPrime(m) {
      forall d | 2 <= d && d * d <= m ensures m % d != 0 {
        MulMonotone(2, d, d, d);
      }
    }
  }

  /** A divisor `d` of `m` strictly between 1 and `m` is matched by one,
      `d` or `m / d`, whose square is at most `m`. */
  lemma SmallDivisorBelowRoot(m: int, d: int)
    requires 2 <= d < m
    ensures m % d == 0 ==> exists e :: 2 <= e && e * e <= m && m % e == 0
  {
    if m % d == 0 {
      CoDivisor(m, d);
      var e := m / d;
      assert e == 1 ==> m == d;
      if d * d <= m {
        assert 2 <= d && d * d <= m && m % d == 0;
      } else {
        assert e >= d ==> d * d <= d * e by {
          if e >= d { MulMonotone(d, d, d, e); }
        }
        MulMonotone(e, e, e, d);
        assert 2 <= e && e * e <= m && m % e == 0;
      }
    }
  }

  /** An odd number has no even divisor. */
  lemma OddHasNoEvenDivisor(m: int, d: int)
    requires m % 2 == 1 && d > 0 && d % 2 == 0
    ensures m % d != 0
  {
    var q := m / d;
    var k := d / 2;
    assert m % d == 0 ==> m == 2 * (k * q);
    MultipleHasNoRemainder(2, k * q);
  }

  /** Once `i * i` exceeds `m` and nothing below `i` divides it, `m` is
      prime. */
  lemma TrialDivisionComplete(m: int, i: int)
    requires m >= 2 && i >= 2 && i * i > m
    requires forall d :: 2 <= d < i ==> m % d != 0
    ensures IsPrime(m)
  {
    forall d | 2 <= d && d * d <= m ensures m % d != 0 {
      assert d >= i ==> i * i <= d * d by {
        if d >= i { MulMonotone(i, d, i, d); }
      }
    }
    PrimeIffNoDivisorUpToRoot(m);
  }

  /** A divisor `i` of `m` with `i * i <= m` and no divisor below it is
      the smallest divisor, and `m` is not prime. */
  lemma FirstDivisorFound(m: int, i: int)
    requires 2 <= i && i * i <= m && m % i == 0
    requires forall d :: 2 <= d < i ==> m % d != 0
    ensures IsSmallestDivisor(m, i) && !IsPrime(m)
  {
    MulMonotone(2, i, i, i);
  }

  /** In trial division of an odd `m`, an odd candidate `i` that does not
      divide `m` lets the search move on to `i + 2`: `i + 1` is even. */
  lemma TrialStep(m: int, i: int)
    requires m % 2 == 1 && i >= 3 && i % 2 == 1 && m % i != 0
    requires forall d :: 2 <= d < i ==> m % d != 0
    ensures forall d :: 2 <= d < i + 2 ==> m % d != 0
  {
    OddHasNoEvenDivisor(m, i + 1);
  }

  datatype Primality = NotAnInteger | LessThanTwo | Prime | DivisibleBy(divisor: int)

  /** `checkPrime(n)`: 2 and odd numbers are tried in turn up to the square
      root of `n`; the first that divides `n` is reported, and `n` is prime
      when none does. */
  method CheckPrime(n: real) returns (v: Primality)
    ensures v == NotAnInteger <==> !IsInteger(n)
    ensures v == LessThanTwo <==> IsInteger(n) && n < 2.0
    ensures v == Prime <==> IsInteger(n) && IsPrime(n.Floor)
    ensures v.DivisibleBy? ==>
      IsInteger(n) && IsSmallestDivisor(n.Floor, v.divisor) && v.divisor * v.divisor <= n.Floor
  {
    if !IsInteger(n) {
      return NotAnInteger;
    }
    var m := n.Floor;
    if m < 2 {
      return LessThanTwo;
    }
    if m == 2 {
      return Prime;
    }
    if Remainder(m, 2) == 0 {
      FirstDivisorFound(m, 2);
      return DivisibleBy(2);
    }
    var i := 3;
    while i * i <= m
      invariant 3 <= i && i % 2 == 1
      invariant forall d :: 2 <= d < i ==> m % d != 0
      decreases m - i
    {
      if Remainder(m, i) == 0 {
        FirstDivisorFound(m, i);
        return DivisibleBy(i);
      }
      TrialStep(m, i);
      i := i + 2;
    }
    TrialDivisionComplete(m, i);
    return Prime;
  }

  /** The number a string of decimal digits denotes. */
  function DigitsValue(s: string): nat
    requires forall i :: 0 <= i < |s| ==> IsDigit(s[i])
  {
    if s == [] then 0
    else
      assert IsDigit(s[|s| - 1]);
      DigitsValue(s[..|s| - 1]) * 10 + (s[|s| - 1] as int - '0' as int)
  }

  /** The decimal digits of `k`, as `${k}` writes a non-negative integer:
      digits only, no leading zero, and they denote `k`. */
  function DecimalText(k: nat): (r: string)
    ensures |r| > 0 && forall i :: 0 <= i < |r| ==> IsDigit(r[i])
    ensures r[0] != '0' || k == 0
    ensures DigitsValue(r) == k
  {
    var c := "0123456789"[k % 10];
    assert c as int - '0' as int == k % 10;
    if k < 10 then [c]
    else
      var t := DecimalText(k / 10);
      assert (t + [c])[..|t|] == t;
      t + [c]
  }

  /** The text `checkPrime` returns, `shown` being the text of `n`; a
      reported divisor is at least 2. */
  function PrimalityMessage(shown: string, v: Primality): (r: string)
    requires v.DivisibleBy? ==> v.divisor >= 2
    ensures |r| > |shown| && r[..|shown|] == shown
  {
    match v
    case NotAnInteger => shown + " is not an integer"
    case LessThanTwo => shown + " is NOT a prime number"
    case Prime => shown + " is a PRIME number ✓"
    case DivisibleBy(d) => shown + DivisorSuffix(d)
  }

  /** The end of the message for a number divisible by `d`. */
  function DivisorSuffix(d: nat): (r: string)
    ensures |r| > 22
  {
    " is NOT a prime number (divisible by " + DecimalText(d) + ")"
  }

  /** Different verdicts for the same number give different messages, and
      the divisor can be read back from its message. */
  lemma PrimalityMessageDetermines(shown: string, v: Primality, w: Primality)
    requires v.DivisibleBy? ==> v.divisor >= 2
    requires w.DivisibleBy? ==> w.divisor >= 2
    ensures PrimalityMessage(shown, v) == PrimalityMessage(shown, w) ==> v == w
  {
    var m := PrimalityMessage(shown, v);
    var n := PrimalityMessage(shown, w);
    if m == n {
      if v.DivisibleBy? && w.DivisibleBy? {
        DivisorSuffixDetermines(shown, v.divisor, w.divisor);
      } else {
        PrimalityMessageLength(shown, v);
        PrimalityMessageLength(shown, w);
      }
    }
  }

  /** The length of each message: no two verdicts share one. */
  lemma PrimalityMessageLength(shown: string, v: Primality)
    requires v.DivisibleBy? ==> v.divisor >= 2
    ensures var m := PrimalityMessage(shown, v);
      (v.NotAnInteger? ==> |m| == |shown| + 18) &&
      (v.LessThanTwo? ==> |m| == |shown| + 22) &&
      (v.Prime? ==> |m| == |shown| + 20) &&
      (v.DivisibleBy? ==> |m| > |shown| + 22)
  {
  }

  /** Equal divisor messages come from equal divisors. */
  lemma DivisorSuffixDetermines(shown: string, d: nat, e: nat)
    ensures shown + DivisorSuffix(d) == shown + DivisorSuffix(e) ==> d == e
  {
    if shown + DivisorSuffix(d) == shown + DivisorSuffix(e) {
      var p := " is NOT a prime number (divisible by ";
      var s := DecimalText(d);
      var t := DecimalText(e);
      assert DivisorSuffix(d) == (shown + DivisorSuffix(d))[|shown|..];
      assert DivisorSuffix(d) == DivisorSuffix(e);
      assert s == DivisorSuffix(d)[|p|..|DivisorSuffix(d)| - 1];
      assert t == DivisorSuffix(e)[|p|..|DivisorSuffix(e)| - 1];
    }
  }
}
