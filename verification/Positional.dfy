/** Positional number systems: the value of a big-endian digit string in any base. */
module Positional {

  function Pow(base: nat, e: nat): (r: nat)
    ensures base > 0 ==> r > 0
  {
    if e == 0 then 1 else Pow(base, e - 1) * base
  }

  function Value(base: nat, digits: seq<nat>): (r: nat)
  {
    if digits == [] then 0 else Value(base, digits[..|digits| - 1]) * base + digits[|digits| - 1]
  }

  ghost predicate Digits(base: nat, digits: seq<nat>) {
    forall i | 0 <= i < |digits| :: digits[i] < base
  }

  ghost predicate Zeros(digits: seq<nat>) {
    forall i | 0 <= i < |digits| :: digits[i] == 0
  }

  lemma {:induction false} PowAdd(base: nat, d: nat, e: nat)
    ensures Pow(base, d + e) == Pow(base, d) * Pow(base, e)
  {
    if e > 0 {
      PowAdd(base, d, e - 1);
      Associate(Pow(base, d), Pow(base, e - 1), base);
    }
  }

  lemma {:induction false} PowPow(base: nat, d: nat, e: nat)
    ensures Pow(Pow(base, d), e) == Pow(base, d * e)
  {
    if e > 0 {
      PowPow(base, d, e - 1);
      assert d * e == d * (e - 1) + d;
      PowAdd(base, d * (e - 1), d);
    }
  }

  /** Powers grow with the exponent, strictly so for a base above one. */
  lemma {:induction false} PowMonotone(base: nat, d: nat, e: nat)
    requires base > 0 && d <= e
    ensures Pow(base, d) <= Pow(base, e)
  {
    PowAdd(base, d, e - d);
    assert Pow(base, d) * Pow(base, e - d) >= Pow(base, d) by { MulAtLeast(Pow(base, d), Pow(base, e - d)); }
  }

  /** Taking powers of the base keeps the order. */
  lemma {:induction false} PowOfLarger(a: nat, b: nat, e: nat)
    requires a <= b
    ensures Pow(a, e) <= Pow(b, e)
  {
    if e > 0 {
      PowOfLarger(a, b, e - 1);
      MulMonotone(Pow(a, e - 1), Pow(b, e - 1), a, b);
    }
  }

  /** ... and strictly so. */
  lemma {:induction false} PowOfStrictlyLarger(a: nat, b: nat, e: nat)
    requires a < b && e > 0
    ensures Pow(a, e) < Pow(b, e)
  {
    if e == 1 {
      assert Pow(a, 1) == Pow(a, 0) * a == a && Pow(b, 1) == Pow(b, 0) * b == b;
    } else {
      PowOfStrictlyLarger(a, b, e - 1);
      MulMonotone(Pow(a, e - 1), Pow(b, e - 1), a, b);
      MulStrict(Pow(a, e - 1), Pow(b, e - 1), a, b);
    }
  }

  lemma Associate(x: int, y: int, z: int)
    ensures x * y * z == x * (y * z)
  {
  }

  lemma Distribute(v: int, p: int, w: int, base: int)
    ensures (v * p + w) * base == v * (p * base) + w * base
  {
    Associate(v, p, base);
  }

  lemma MulAtLeast(x: nat, y: nat)
    requires y >= 1
    ensures x * y >= x
  {
  }

  lemma MulMonotone(x: nat, y: nat, a: nat, b: nat)
    requires x <= y && a <= b
    ensures x * a <= y * b
  {
    assert x * a <= y * a <= y * b;
  }

  lemma MulStrict(x: nat, y: nat, a: nat, b: nat)
    requires x < y && a < b
    ensures x * a < y * b
  {
    assert x * a <= y * a < y * b;
  }

  /** The value of a concatenation. */
  lemma {:induction false} ValueAppend(base: nat, s: seq<nat>, t: seq<nat>)
    ensures Value(base, s + t) == Value(base, s) * Pow(base, |t|) + Value(base, t)
  {
    if t == [] {
      assert s + t == s;
    } else {
      var u, last := t[..|t| - 1], t[|t| - 1];
      assert (s + t)[..|s + t| - 1] == s + u;
      ValueAppend(base, s, u);
      var v, p := Value(base, s), Pow(base, |u|);
      Distribute(v, p, Value(base, u), base);
    }
  }

  /** n digits below the base denote a number below base^n. */
  lemma {:induction false} ValueBound(base: nat, s: seq<nat>)
    requires Digits(base, s)
    ensures Value(base, s) < Pow(base, |s|)
  {
    if s != [] {
      ValueBound(base, s[..|s| - 1]);
      var v, p := Value(base, s[..|s| - 1]), Pow(base, |s| - 1);
      MulMonotone(v + 1, p, base, base);
      assert (v + 1) * base == v * base + base;
    }
  }

  lemma {:induction false} ValueOfZeros(base: nat, s: seq<nat>)
    requires Zeros(s)
    ensures Value(base, s) == 0
  {
    if s != [] { ValueOfZeros(base, s[..|s| - 1]); }
  }

  /** Leading zeros do not count. */
  lemma ValueDropZeros(base: nat, s: seq<nat>, k: nat)
    requires k <= |s| && Zeros(s[..k])
    ensures Value(base, s) == Value(base, s[k..])
  {
    assert s == s[..k] + s[k..];
    ValueAppend(base, s[..k], s[k..]);
    ValueOfZeros(base, s[..k]);
  }

  lemma ValueOfOne(base: nat, d: nat)
    ensures Value(base, [d]) == d
  {
    assert [d][..0] == [];
  }

  /** A nonzero first digit makes the number at least base^(n-1). */
  lemma ValueFromFirst(base: nat, s: seq<nat>)
    requires base > 0 && s != [] && s[0] != 0
    ensures Value(base, s) >= Pow(base, |s| - 1)
  {
    assert s == [s[0]] + s[1..];
    ValueAppend(base, [s[0]], s[1..]);
    ValueOfOne(base, s[0]);
    MulAtLeast(Pow(base, |s| - 1), s[0]);
  }

  /** Digit strings of one length denote different numbers. */
  lemma {:induction false} ValueInjective(base: nat, s: seq<nat>, t: seq<nat>)
    requires base > 0 && Digits(base, s) && Digits(base, t) && |s| == |t|
    requires Value(base, s) == Value(base, t)
    ensures s == t
  {
    if s != [] {
      var n := |s| - 1;
      LastDigit(base, Value(base, s[..n]), s[n], Value(base, t[..n]), t[n]);
      ValueInjective(base, s[..n], t[..n]);
      assert s == s[..n] + [s[n]] && t == t[..n] + [t[n]];
    }
  }

  lemma LastDigit(base: nat, q: nat, r: nat, q': nat, r': nat)
    requires r < base && r' < base && q * base + r == q' * base + r'
    ensures q == q' && r == r'
  {
    if q < q' { MulStep(q, q', base); } else if q' < q { MulStep(q', q, base); }
  }

  lemma MulStep(q: nat, q': nat, base: nat)
    requires q < q'
    ensures q * base + base <= q' * base
  {
    MulMonotone(q + 1, q', base, base);
    assert (q + 1) * base == q * base + base;
  }

  /** The digits of a number, padded to n places. */
  function ToDigits(base: nat, n: nat, value: nat): (r: seq<nat>)
    requires base > 0
    ensures |r| == n
  {
    if n == 0 then [] else ToDigits(base, n - 1, value / base) + [value % base]
  }

  lemma {:induction false} DigitsBelow(base: nat, n: nat, value: nat)
    requires base > 0
    ensures Digits(base, ToDigits(base, n, value))
  {
    if n > 0 {
      DivMod(value, base);
      DigitsBelow(base, n - 1, value / base);
    }
  }

  /** ToDigits undoes Value. */
  lemma {:induction false} DigitsOfValue(base: nat, s: seq<nat>)
    requires base > 0 && Digits(base, s)
    ensures ToDigits(base, |s|, Value(base, s)) == s
  {
    if s != [] {
      var n := |s| - 1;
      var q, v := Value(base, s[..n]), Value(base, s);
      LastDigit(base, v / base, v % base, q, s[n]);
      DigitsOfValue(base, s[..n]);
      assert s == s[..n] + [s[n]];
    }
  }

  lemma DivMod(value: nat, base: nat)
    requires base > 0
    ensures 0 <= value % base < base && (value / base) * base + value % base == value
  {
  }

  /** ... and Value undoes ToDigits when there is room. */
  lemma {:induction false} ValueOfDigits(base: nat, n: nat, value: nat)
    requires base > 0 && value < Pow(base, n)
    ensures Digits(base, ToDigits(base, n, value))
    ensures Value(base, ToDigits(base, n, value)) == value
  {
    if n > 0 {
      var q, r := value / base, value % base;
      DivMod(value, base);
      if q >= Pow(base, n - 1) {
        MulMonotone(Pow(base, n - 1), q, base, base);
      }
      ValueOfDigits(base, n - 1, q);
      assert ToDigits(base, n, value)[..n - 1] == ToDigits(base, n - 1, q);
    }
  }
}
