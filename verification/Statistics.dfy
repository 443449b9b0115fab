/** The exact sign test and the paired counters: src/benchmark/statistics.js, in exact arithmetic. */
module Statistics {
  import opened Basics

  function Power2(n: nat): (p: nat)
    ensures p > 0
  {
    if n == 0 then 1 else 2 * Power2(n - 1)
  }

  /** How many of the 2^n outcomes of n fair coins show exactly k heads, counted coin by coin. */
  function Choose(n: nat, k: int): nat {
    if k < 0 || k > n then 0
    else if n == 0 then 1
    else Choose(n - 1, k - 1) + Choose(n - 1, k)
  }

  /** Outcomes with at most m heads. */
  function AtMost(n: nat, m: int): nat
    decreases if m < 0 then 0 else m + 1
  {
    if m < 0 then 0 else AtMost(n, m - 1) + Choose(n, m)
  }

  // ---------- facts about Choose ----------

  lemma {:induction false} ChooseSymmetric(n: nat, k: int)
    ensures Choose(n, k) == Choose(n, n - k)
    decreases n
  {
    if n > 0 && 0 <= k <= n {
      ChooseSymmetric(n - 1, k - 1);
      ChooseSymmetric(n - 1, k);
    }
  }

  lemma {:induction false} ChoosePositive(n: nat, k: nat)
    requires k <= n
    ensures Choose(n, k) > 0
    decreases n
  {
    if n > 0 {
      if k == n {
        ChoosePositive(n - 1, k - 1);
      } else {
        ChoosePositive(n - 1, k);
      }
    }
  }

  /** The step the loop takes from one term to the next. */
  lemma {:induction false} ChooseStep(n: nat, k: nat)
    requires 0 < k <= n
    ensures k * Choose(n, k) == (n - k + 1) * Choose(n, k - 1)
    decreases n
  {
    if n > 1 {
      var a, b, c := Choose(n - 1, k - 2), Choose(n - 1, k - 1), Choose(n - 1, k);
      if k > 1 {
        ChooseStep(n - 1, k - 1);
        assert (k - 1) * b == (n - k + 1) * a;
      } else {
        assert a == 0;
      }
      if k < n {
        ChooseStep(n - 1, k);
        assert k * c == (n - k) * b;
      } else {
        assert c == 0;
      }
      StepAdds(n, k, a, b, c);
    }
  }

  lemma StepAdds(n: int, k: int, a: int, b: int, c: int)
    requires (k - 1) * b == (n - k + 1) * a && k * c == (n - k) * b
    ensures k * (b + c) == (n - k + 1) * (a + b)
  {
    calc {
      k * (b + c);
      k * b + k * c;
      k * b + (n - k) * b;
      n * b;
      (k - 1) * b + (n - k + 1) * b;
      (n - k + 1) * a + (n - k + 1) * b;
      (n - k + 1) * (a + b);
    }
  }

  lemma {:induction false} AtMostGrows(n: nat, m: int)
    requires n > 0
    ensures AtMost(n, m) == AtMost(n - 1, m) + AtMost(n - 1, m - 1)
    decreases if m < 0 then 0 else m + 1
  {
    if m >= 0 {
      AtMostGrows(n, m - 1);
    }
  }

  lemma {:induction false} AtMostAll(n: nat, m: nat)
    requires m >= n
    ensures AtMost(n, m) == Power2(n)
    decreases n, m
  {
    if n > 0 {
      AtMostGrows(n, m);
      AtMostAll(n - 1, m);
      AtMostAll(n - 1, m - 1);
    } else if m > 0 {
      AtMostAll(n, m - 1);
    }
  }

  /** Few heads and many heads are mirror images: AtMost(n, m) outcomes have at least n - m heads. */
  lemma {:induction false} AtMostComplement(n: nat, m: int)
    requires -1 <= m <= n
    ensures AtMost(n, m) + AtMost(n, n - m - 1) == Power2(n)
    decreases n - m
  {
    if m == n {
      AtMostAll(n, n);
    } else {
      AtMostComplement(n, m + 1);
      ChooseSymmetric(n, m + 1);
      assert AtMost(n, m + 1) == AtMost(n, m) + Choose(n, m + 1);
      assert AtMost(n, n - m - 1) == AtMost(n, n - m - 2) + Choose(n, n - m - 1);
    }
  }

  lemma {:induction false} AtMostMonotone(n: nat, m: int, more: int)
    requires m <= more
    ensures AtMost(n, m) <= AtMost(n, more)
    decreases more - m
  {
    if m < more {
      AtMostMonotone(n, m, more - 1);
    }
  }

  // ---------- the test ----------

  function Min(a: nat, b: nat): nat {
    if a <= b then a else b
  }

  function Distance(a: int, b: int): nat {
    if a <= b then b - a else a - b
  }

  function Share(count: nat, n: nat): real {
    count as real / Power2(n) as real
  }

  /** Twice the smaller tail, before it is capped at 1. */
  function TwiceTail(leftOnly: nat, rightOnly: nat): nat {
    2 * AtMost(leftOnly + rightOnly, Min(leftOnly, rightOnly))
  }

  function PValue(leftOnly: nat, rightOnly: nat): real {
    var n := leftOnly + rightOnly;
    if n == 0 then 1.0
    else
      var doubled := Share(TwiceTail(leftOnly, rightOnly), n);
      if doubled < 1.0 then doubled else 1.0
  }

  lemma NextTerm(n: nat, index: nat, term: real)
    requires 0 < index <= n && term == Share(Choose(n, index - 1), n)
    ensures term * (n - index + 1) as real / index as real == Share(Choose(n, index), n)
  {
    hide Choose;
    ChooseStep(n, index);
    var a, b := Choose(n, index - 1), Choose(n, index);
    ProductAsReal(index, b);
    ProductAsReal(n - index + 1, a);
    ScaledTerm(Power2(n) as real, a as real, b as real, (n - index + 1) as real, index as real);
  }

  lemma ProductAsReal(x: int, y: int)
    ensures (x * y) as real == x as real * y as real
  {
  }

  lemma ScaledTerm(p: real, a: real, b: real, up: real, down: real)
    requires p > 0.0 && down > 0.0 && down * b == up * a
    ensures (a / p) * up / down == b / p
  {
    assert (a / p) * up == (up * a) / p;
    assert (down * b) / p == down * (b / p);
  }

  lemma ShareAdds(a: nat, b: nat, n: nat)
    ensures Share(a, n) + Share(b, n) == Share(a + b, n)
  {
    var p := Power2(n) as real;
    assert a as real / p + b as real / p == (a as real + b as real) / p;
  }

  /** exactTwoSidedBinomialPValue with its terms in exact fractions instead of logarithms. */
  method ExactTwoSidedBinomialPValue(leftOnly: nat, rightOnly: nat) returns (p: real)
    ensures p == PValue(leftOnly, rightOnly)
  {
    var n := leftOnly + rightOnly;
    if n == 0 { return 1.0; }
    var observedTail := Min(leftOnly, rightOnly);
    var term := 1.0 / Power2(n) as real;
    var lowerTail := 0.0;
    ChooseNone(n);
    assert Share(0, n) == 0.0;
    for index := 0 to observedTail + 1
      invariant lowerTail == Share(AtMost(n, index - 1), n)
      invariant term == Share(Choose(n, if index == 0 then 0 else index - 1), n)
    {
      if index > 0 {
        NextTerm(n, index, term);
        term := term * (n - index + 1) as real / index as real;
      }
      ShareAdds(AtMost(n, index - 1), Choose(n, index), n);
      lowerTail := lowerTail + term;
    }
    ShareAdds(AtMost(n, observedTail), AtMost(n, observedTail), n);
    var doubled := lowerTail * 2.0;
    return if doubled < 1.0 then doubled else 1.0;
  }

  lemma ChooseNone(n: nat)
    ensures Choose(n, 0) == 1
  {
    if n > 0 {
      ChooseNone(n - 1);
    }
  }

  lemma PValueIsSymmetric(leftOnly: nat, rightOnly: nat)
    ensures PValue(leftOnly, rightOnly) == PValue(rightOnly, leftOnly)
  {
    assert Min(leftOnly, rightOnly) == Min(rightOnly, leftOnly);
  }

  lemma QuotientOrder(x: real, y: real, p: real)
    requires p > 0.0
    ensures x <= y <==> x / p <= y / p
  {
    var u, v := x / p, y / p;
    assert u * p == x && v * p == y;
    if u <= v {
      assert (v - u) * p >= 0.0;
    } else {
      assert (u - v) * p > 0.0;
    }
  }

  lemma ShareOrder(a: nat, b: nat, n: nat)
    ensures a <= b <==> Share(a, n) <= Share(b, n)
    ensures Share(Power2(n), n) == 1.0
  {
    hide *;
    var x, y, p := a as real, b as real, Power2(n) as real;
    assert a <= b <==> x <= y;
    QuotientOrder(x, y, p);
    ShareIs(a, n);
    ShareIs(b, n);
    ShareIs(Power2(n), n);
  }

  lemma ShareIs(a: nat, n: nat)
    ensures Share(a, n) == a as real / Power2(n) as real
  {
  }

  /** The cap at 1 does something exactly when the two counts are equal. */
  lemma CapNeededOnlyWhenBalanced(leftOnly: nat, rightOnly: nat)
    requires leftOnly + rightOnly > 0
    ensures TwiceTail(leftOnly, rightOnly) > Power2(leftOnly + rightOnly) <==> leftOnly == rightOnly
  {
    var n, m := leftOnly + rightOnly, Min(leftOnly, rightOnly);
    AtMostComplement(n, m);
    if leftOnly == rightOnly {
      ChoosePositive(n, m);
    } else {
      AtMostMonotone(n, m, n - m - 1);
    }
  }

  /** For a fixed number of discordant pairs the p-value does not grow with the imbalance. */
  lemma {:induction false} PValueFallsWithImbalance(a: nat, b: nat, c: nat, d: nat)
    requires a + b == c + d && Distance(a, b) >= Distance(c, d)
    ensures PValue(a, b) <= PValue(c, d)
  {
    AtMostMonotone(a + b, Min(a, b), Min(c, d));
    ShareOrder(TwiceTail(a, b), TwiceTail(c, d), a + b);
  }

  /** Outcomes with up to `upto` heads that are at least as unbalanced as the observed one. */
  function Extreme(n: nat, distance: nat, upto: int): nat
    decreases if upto < 0 then 0 else upto + 1
  {
    if upto < 0 then 0
    else Extreme(n, distance, upto - 1) + if Distance(upto, n - upto) >= distance then Choose(n, upto) else 0
  }

  lemma {:induction false} ExtremeLow(n: nat, m: int, upto: int)
    requires upto <= m && 2 * m <= n
    ensures Extreme(n, n - 2 * m, upto) == AtMost(n, upto)
    decreases if upto < 0 then 0 else upto + 1
  {
    if upto >= 0 {
      ExtremeLow(n, m, upto - 1);
    }
  }

  lemma {:induction false} ExtremeMiddle(n: nat, m: nat, upto: int)
    requires m <= upto < n - m && 2 * m < n
    ensures Extreme(n, n - 2 * m, upto) == AtMost(n, m)
    decreases upto
  {
    if upto == m {
      ExtremeLow(n, m, m);
    } else {
      ExtremeMiddle(n, m, upto - 1);
    }
  }

  lemma {:induction false} ExtremeHigh(n: nat, m: nat, upto: nat)
    requires n - m <= upto <= n && 2 * m < n
    ensures Extreme(n, n - 2 * m, upto) == AtMost(n, m) + AtMost(n, upto) - AtMost(n, n - m - 1)
    decreases upto
  {
    if upto == n - m {
      ExtremeMiddle(n, m, upto - 1);
    } else {
      ExtremeHigh(n, m, upto - 1);
    }
  }

  lemma {:induction false} ExtremeAll(n: nat, upto: int)
    ensures Extreme(n, 0, upto) == AtMost(n, upto)
    decreases if upto < 0 then 0 else upto + 1
  {
    if upto >= 0 {
      ExtremeAll(n, upto - 1);
    }
  }

  /**
   * What the loop, the doubling and the cap compute together: the share of all outcomes of n fair coins
   * that are at least as unbalanced as the one observed.
   */
  lemma PValueIsExtremeShare(leftOnly: nat, rightOnly: nat)
    ensures var n := leftOnly + rightOnly;
            PValue(leftOnly, rightOnly) == Share(Extreme(n, Distance(leftOnly, rightOnly), n), n)
  {
    var n, m := leftOnly + rightOnly, Min(leftOnly, rightOnly);
    AtMostAll(n, n);
    ShareOrder(Power2(n), TwiceTail(leftOnly, rightOnly), n);
    if leftOnly == rightOnly {
      ExtremeAll(n, n);
      if n > 0 {
        CapNeededOnlyWhenBalanced(leftOnly, rightOnly);
      }
    } else {
      CapNeededOnlyWhenBalanced(leftOnly, rightOnly);
      ShareOrder(TwiceTail(leftOnly, rightOnly), Power2(n), n);
      assert Distance(leftOnly, rightOnly) == n - 2 * m;
      AtMostComplement(n, m);
      if m == 0 {
        ExtremeMiddle(n, 0, n - 1);
        ChooseSymmetric(n, n);
        ChooseNone(n);
        assert Extreme(n, n, n) == Extreme(n, n, n - 1) + Choose(n, n);
        assert AtMost(n, 0) == 1;
      } else {
        ExtremeHigh(n, m, n);
      }
    }
  }
}
