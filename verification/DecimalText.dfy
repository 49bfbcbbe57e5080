/** The decimal texts that the screens show, and how they are read back. */
module DecimalText {
  import opened Positional

  function DigitChar(d: nat): (r: char)
    requires d < 10
  {
    '0' + d as char
  }

  /** The usual decimal text of a number. */
  function Dec(n: nat): (r: string)
    ensures |r| >= 1
  {
    if n < 10 then [DigitChar(n)] else Dec(n / 10) + [DigitChar(n % 10)]
  }

  ghost predicate AllDigits(s: string) {
    forall i | 0 <= i < |s| :: '0' <= s[i] <= '9'
  }

  /** Reads a number; thousand separators are skipped. */
  function Read(s: string): (r: int)
  {
    if s == [] then 0
    else
      var c := s[|s| - 1];
      if c == ',' then Read(s[..|s| - 1]) else Read(s[..|s| - 1]) * 10 + (c as int - '0' as int)
  }

  lemma {:induction false} DecDigits(n: nat)
    ensures AllDigits(Dec(n))
  {
    if n >= 10 { DecDigits(n / 10); }
  }

  lemma {:induction false} ReadDec(n: nat)
    ensures Read(Dec(n)) == n
  {
    if n >= 10 {
      ReadDec(n / 10);
      assert Dec(n)[..|Dec(n)| - 1] == Dec(n / 10);
    } else {
      assert Dec(n)[..0] == [];
    }
  }

  lemma DecInjective(m: nat, n: nat)
    requires Dec(m) == Dec(n)
    ensures m == n
  {
    ReadDec(m);
    ReadDec(n);
  }

  /** A number below 10^k has at most k digits ... */
  lemma {:induction false} DecShort(n: nat, k: nat)
    requires k >= 1 && n < Pow(10, k)
    ensures |Dec(n)| <= k
  {
    if n >= 10 {
      assert k != 1 by { assert Pow(10, 1) == Pow(10, 0) * 10; }
      DecShort(n / 10, k - 1);
    }
  }

  /** ... and dropping the last k digits of a longer one divides it by 10^k. */
  lemma {:induction false} DecDrop(n: nat, k: nat)
    requires n >= Pow(10, k)
    ensures n / Pow(10, k) >= 1 && |Dec(n)| == |Dec(n / Pow(10, k))| + k
  {
    if k > 0 {
      DivideByTen(n, Pow(10, k - 1));
      DecDrop(n / 10, k - 1);
    }
  }

  lemma DivideByTen(n: nat, p: nat)
    requires p > 0
    ensures n / (p * 10) == n / 10 / p && (n >= p * 10 ==> n / 10 >= p)
  {
    var q := n / 10;
    DivMod(q, p);
    TenTimes(q, p, q / p, q % p);
    UniqueQuotient(n, p * 10, q / p, q % p * 10 + n % 10);
    if q < p { UniqueQuotient(q, p, 0, q); }
  }

  lemma TenTimes(q: nat, p: nat, q': nat, r: nat)
    requires q == q' * p + r
    ensures q * 10 == q' * (p * 10) + r * 10
  {
    Associate(q', p, 10);
  }

  lemma UniqueQuotient(n: nat, b: nat, q: nat, r: nat)
    requires n == q * b + r && r < b
    ensures n / b == q
  {
    DivMod(n, b);
    LastDigit(b, n / b, n % b, q, r);
  }

  // ------------------------------------------------------------------ thousand separators

  /** The whole part: seen from the right, every fourth character is a comma. */
  function Grouped(n: nat): (r: string)
    ensures |r| == |Dec(n)| + (|Dec(n)| - 1) / 3
  {
    var d := Dec(n);
    var total := |d| + (|d| - 1) / 3;
    seq(total, i requires 0 <= i < total =>
      var right := total - 1 - i;
      if right % 4 == 3 then ',' else d[|d| - 1 - (right - right / 4)])
  }

  /** How many digits, without the commas, the last `right` characters hold. */
  function DigitsIn(right: nat): (r: nat)
  {
    right - right / 4
  }

  lemma DigitsInNext(right: nat)
    ensures DigitsIn(right + 1) == DigitsIn(right) + (if right % 4 == 3 then 0 else 1)
  {
  }

  lemma DigitsInGrouped(n: nat)
    ensures DigitsIn(0) == 0 && DigitsIn(|Grouped(n)|) == |Dec(n)|
    ensures forall right | 0 <= right < |Grouped(n)| :: DigitsIn(right) < |Dec(n)|
  {
  }

  /** Reading the first characters of a grouped number skips exactly the commas. */
  lemma {:induction false} ReadGroupedPrefix(n: nat, right: nat)
    requires right <= |Grouped(n)|
    ensures DigitsIn(right) <= |Dec(n)|
    ensures Read(Grouped(n)[..|Grouped(n)| - right]) == Read(Dec(n)[..|Dec(n)| - DigitsIn(right)])
    decreases |Grouped(n)| - right
  {
    hide Dec, Grouped, Read, DigitsIn;
    var g, d := Grouped(n), Dec(n);
    DigitsInGrouped(n);
    if right == |g| {
      assert g[..0] == [] && d[..0] == [];
    } else {
      var i, k := |g| - right - 1, |d| - DigitsIn(right) - 1;
      DigitsInNext(right);
      ReadGroupedPrefix(n, right + 1);
      GroupedAt(n, right);
      ReadNext(g, i);
      if right % 4 != 3 {
        DecDigits(n);
        ReadNext(d, k);
      }
    }
  }

  lemma GroupedAt(n: nat, right: nat)
    requires right < |Grouped(n)|
    ensures right % 4 == 3 ==> Grouped(n)[|Grouped(n)| - 1 - right] == ','
    ensures right % 4 != 3 ==> DigitsIn(right) < |Dec(n)|
    ensures right % 4 != 3 ==> Grouped(n)[|Grouped(n)| - 1 - right] == Dec(n)[|Dec(n)| - 1 - DigitsIn(right)]
  {
  }

  lemma ReadNext(s: string, i: nat)
    requires i < |s|
    ensures Read(s[..i + 1]) == if s[i] == ',' then Read(s[..i]) else Read(s[..i]) * 10 + (s[i] as int - '0' as int)
  {
    assert s[..i + 1][..i] == s[..i];
  }

  /** A comma stands before exactly every third digit. */
  lemma GroupedCommas(n: nat, right: nat)
    requires right < |Grouped(n)|
    ensures Grouped(n)[|Grouped(n)| - 1 - right] == ',' <==> right % 4 == 3
  {
    hide Grouped, Dec, DigitsIn;
    GroupedAt(n, right);
    DecDigits(n);
  }

  lemma ReadGrouped(n: nat)
    ensures Read(Grouped(n)) == n
  {
    var g, d := Grouped(n), Dec(n);
    ReadGroupedPrefix(n, 0);
    assert g[..|g|] == g && d[..|d|] == d;
    ReadDec(n);
  }

  // ------------------------------------------------------------------ fractions

  function StripZeros(n: nat): (r: nat)
    requires n > 0
    ensures r > 0 && r % 10 != 0
  {
    if n % 10 == 0 then StripZeros(n / 10) else n
  }

  function Fill(k: nat): (r: string)
    ensures |r| == k && forall i | 0 <= i < k :: r[i] == '0'
  {
    seq(k, i => '0')
  }

  /** The digits after the point of part / 10^k: padded with zeros on the left, none on the right. */
  function Fraction(part: nat, k: nat): (r: string)
    requires part > 0 && |Dec(part)| <= k
  {
    Fill(k - |Dec(part)|) + Dec(StripZeros(part))
  }

  lemma {:induction false} StripZerosScale(n: nat)
    requires n > 0
    ensures |Dec(StripZeros(n))| <= |Dec(n)|
    ensures StripZeros(n) * Pow(10, |Dec(n)| - |Dec(StripZeros(n))|) == n
  {
    if n % 10 == 0 {
      StripZerosScale(n / 10);
      var s, e := StripZeros(n), |Dec(n / 10)| - |Dec(StripZeros(n))|;
      Associate(s, Pow(10, e), 10);
    }
  }

  lemma {:induction false} ReadFill(k: nat, n: nat)
    ensures Read(Fill(k) + Dec(n)) == n
  {
    ReadDec(n);
    DecDigits(n);
    ReadAfterZeros(k, Dec(n));
  }

  lemma {:induction false} ReadAfterZeros(k: nat, s: string)
    ensures Read(Fill(k) + s) == Read(s)
  {
    if s == [] {
      assert Fill(k) + s == Fill(k);
      ReadZeros(k);
    } else {
      assert (Fill(k) + s)[..k + |s| - 1] == Fill(k) + s[..|s| - 1];
      ReadAfterZeros(k, s[..|s| - 1]);
    }
  }

  lemma {:induction false} ReadZeros(k: nat)
    ensures Read(Fill(k)) == 0
  {
    if k > 0 {
      assert Fill(k)[..k - 1] == Fill(k - 1);
      ReadZeros(k - 1);
    }
  }

  /** The fraction text is short, ends in no zero, and scaled up it is the part again. */
  lemma FractionMeaning(part: nat, k: nat)
    requires part > 0 && |Dec(part)| <= k
    ensures var f := Fraction(part, k);
            1 <= |f| <= k && f[|f| - 1] != '0' && AllDigits(f) && Read(f) * Pow(10, k - |f|) == part
  {
    var s := StripZeros(part);
    StripZerosScale(part);
    ReadFill(k - |Dec(part)|, s);
    DecDigits(s);
  }

  // ------------------------------------------------------------------ fixed-point numbers

  /** amount / 10^k with separators in the whole part and no superfluous zero. */
  function Fixed(amount: nat, k: nat): (r: string)
    requires k >= 1
  {
    if amount == 0 then "0"
    else if amount < Pow(10, k) then DecShort(amount, k); "0." + Fraction(amount, k)
    else
      var part := amount % Pow(10, k);
      DecShort(part, k);
      Grouped(amount / Pow(10, k)) + (if part == 0 then "" else "." + Fraction(part, k))
  }

  function PointAt(s: string): (r: nat)
    ensures r <= |s| && (forall i | 0 <= i < r :: s[i] != '.') && (r < |s| ==> s[r] == '.')
  {
    if s == [] then 0 else if s[0] == '.' then 0 else 1 + PointAt(s[1..])
  }

  /** Reads a fixed-point text as a multiple of 10^-k. */
  function ReadFixed(s: string, k: nat): (r: int)
  {
    var p := PointAt(s);
    if p == |s| || |s| - p - 1 > k then Read(s) * Pow(10, k)
    else Read(s[..p]) * Pow(10, k) + Read(s[p + 1..]) * Pow(10, k - (|s| - p - 1))
  }

  /** Reading a text with a point reads both sides; without one, the whole text. */
  lemma ReadParts(whole: string, f: string, k: nat)
    requires forall i | 0 <= i < |whole| :: whole[i] != '.'
    ensures ReadFixed(whole, k) == Read(whole) * Pow(10, k)
    ensures |f| <= k ==>
      ReadFixed(whole + "." + f, k) == Read(whole) * Pow(10, k) + Read(f) * Pow(10, k - |f|)
  {
    hide Read;
    var s, p := whole + "." + f, |whole|;
    assert s[p] == '.';
    assert PointAt(s) == p;
    assert s[..p] == whole && s[p + 1..] == f;
  }

  lemma GroupedChars(n: nat)
    ensures forall i | 0 <= i < |Grouped(n)| :: Grouped(n)[i] == ',' || '0' <= Grouped(n)[i] <= '9'
  {
    DecDigits(n);
  }

  ghost function WholeText(amount: nat, k: nat): (r: string) {
    if amount < Pow(10, k) then "0" else Grouped(amount / Pow(10, k))
  }

  lemma FixedShape(amount: nat, k: nat)
    requires k >= 1
    ensures var part := amount % Pow(10, k);
            && (part == 0 ==> Fixed(amount, k) == WholeText(amount, k))
            && (part > 0 ==> |Dec(part)| <= k && Fixed(amount, k) == WholeText(amount, k) + "." + Fraction(part, k))
  {
    hide Grouped, Dec, Fraction, Pow;
    var part := amount % Pow(10, k);
    WholePart(amount, Pow(10, k));
    DivMod(amount, Pow(10, k));
    DecShort(part, k);
    if part == 0 { assert WholeText(amount, k) + "" == WholeText(amount, k); }
  }

  /** The text of an amount determines the amount. */
  lemma {:induction false} FixedRoundTrip(amount: nat, k: nat)
    requires k >= 1
    ensures ReadFixed(Fixed(amount, k), k) == amount
  {
    hide Read, ReadFixed, Grouped, Fraction, Dec, Pow, Fixed;
    var p := Pow(10, k);
    var part, whole := amount % p, WholeText(amount, k);
    DivMod(amount, p);
    WholePart(amount, p);
    FixedShape(amount, k);
    GroupedChars(amount / p);
    ReadParts(whole, "", k);
    if part != 0 {
      FractionMeaning(part, k);
      ReadParts(whole, Fraction(part, k), k);
    }
  }

  /** The whole part that is shown, also when it is a plain zero, reads as the quotient. */
  lemma WholePart(amount: nat, p: nat)
    requires p > 0
    ensures amount < p ==> amount / p == 0 && amount % p == amount && Read("0") == 0
    ensures amount >= p ==> Read(Grouped(amount / p)) == amount / p
  {
    if amount < p {
      DivMod(amount, p);
      LastDigit(p, amount / p, amount % p, 0, amount);
      ReadDec(0);
    } else {
      ReadGrouped(amount / p);
    }
  }
}
