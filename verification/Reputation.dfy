/** Community voting on peer reputations: the statistics behind the voting threshold, the gate, and
    the weighted update. Reputations are reals; rounding is not modelled. */
module Reputation {
  import opened Units
  import opened Listing
  import opened MemoryStorage

  // ---------------------------------------------------------------------------
  // Real arithmetic. `Mul` names a product so that proofs about sums stay linear.
  // ---------------------------------------------------------------------------

  function Mul(a: real, b: real): real {
    a * b
  }

  function Square(x: real): real {
    Mul(x, x)
  }

  lemma MulSigns(a: real, b: real)
    ensures a >= 0.0 && b >= 0.0 ==> Mul(a, b) >= 0.0
    ensures a > 0.0 && b > 0.0 ==> Mul(a, b) > 0.0
    ensures a > 0.0 && b < 0.0 ==> Mul(a, b) < 0.0
  {
  }

  lemma MulAdds(a: real, b: real, c: real)
    ensures Mul(a, b + c) == Mul(a, b) + Mul(a, c)
    ensures Mul(a, b - c) == Mul(a, b) - Mul(a, c)
    ensures Mul(b + c, a) == Mul(b, a) + Mul(c, a)
    ensures Mul(1.0, a) == a == Mul(a, 1.0)
    ensures Mul(a, b) == Mul(b, a)
    ensures Mul(0.0, a) == 0.0 == Mul(a, 0.0)
  {
  }

  lemma Cancel(n: real, a: real, b: real)
    requires n > 0.0 && Mul(n, a) <= Mul(n, b)
    ensures a <= b
  {
  }

  lemma Quotient(n: real, s: real)
    requires n > 0.0
    ensures Mul(n, s / n) == s
  {
  }

  lemma SquareSign(x: real)
    ensures Square(x) >= 0.0
    ensures x != 0.0 ==> Square(x) > 0.0
  {
    MulSigns(x, x);
    MulSigns(-x, -x);
    assert Mul(-x, -x) == Mul(x, x);
  }

  lemma SquareInUnit(x: real)
    requires 0.0 <= x <= 1.0
    ensures Square(x) <= x
  {
    MulSigns(x, 1.0 - x);
    MulAdds(x, 1.0, x);
  }

  lemma SquareMonotone(a: real, b: real)
    requires 0.0 <= a <= b
    ensures Square(a) <= Square(b)
  {
  }

  // ---------------------------------------------------------------------------
  // Statistics
  // ---------------------------------------------------------------------------

  function SumOf(f: real -> real, xs: seq<real>): real {
    if xs == [] then 0.0 else f(xs[0]) + SumOf(f, xs[1..])
  }

  function Sum(xs: seq<real>): real {
    SumOf((x: real) => x, xs)
  }

  function SumSq(xs: seq<real>): real {
    SumOf(Square, xs)
  }

  function Size(xs: seq<real>): real {
    |xs| as real
  }

  /** The mean, 0 for nobody. */
  function Mean(xs: seq<real>): real {
    if xs == [] then 0.0 else Sum(xs) / Size(xs)
  }

  function Max(a: real, b: real): real {
    if a < b then b else a
  }

  /** E[x^2] - E[x]^2, clamped at 0, as both back ends compute it. */
  function Variance(xs: seq<real>): real {
    if xs == [] then 0.0 else Max(SumSq(xs) / Size(xs) - Square(Mean(xs)), 0.0)
  }

  ghost predicate InUnit(xs: seq<real>) {
    forall i :: 0 <= i < |xs| ==> 0.0 <= xs[i] <= 1.0
  }

  lemma SizeCons(xs: seq<real>)
    requires xs != []
    ensures Size(xs) == 1.0 + Size(xs[1..]) > 0.0
    ensures Sum(xs) == xs[0] + Sum(xs[1..])
  {
  }

  /** Summing aa - c x + kk g(x) over the members. */
  lemma {:induction false} SumOfAffine(f: real -> real, g: real -> real, xs: seq<real>, aa: real, c: real, kk: real)
    requires forall x :: f(x) == aa - Mul(c, x) + Mul(kk, g(x))
    ensures SumOf(f, xs) == Mul(Size(xs), aa) - Mul(c, Sum(xs)) + Mul(kk, SumOf(g, xs))
  {
    hide Mul;
    if xs == [] {
      MulAdds(aa, 0.0, 0.0);
      MulAdds(c, 0.0, 0.0);
      MulAdds(kk, 0.0, 0.0);
    } else {
      var x, rest := xs[0], xs[1..];
      SumOfAffine(f, g, rest, aa, c, kk);
      SizeCons(xs);
      MulAdds(aa, 1.0, Size(rest));
      MulAdds(c, x, Sum(rest));
      MulAdds(kk, g(x), SumOf(g, rest));
      assert f(x) == aa - Mul(c, x) + Mul(kk, g(x));
    }
  }

  /** The squared deviation from `a` after scaling by `k`. */
  function Deviation(a: real, k: real): real -> real {
    (x: real) => Square(a - Mul(k, x))
  }

  lemma DeviationAt(a: real, k: real, x: real)
    ensures Deviation(a, k)(x) == Square(a) - Mul(2.0 * Mul(a, k), x) + Mul(Square(k), Square(x))
    ensures Deviation(a, k)(x) == Square(a - Mul(k, x)) >= 0.0
  {
  }

  lemma MixedTerms(a: real, k: real, x: real)
    ensures 2.0 * Mul(a, Mul(k, x)) == Mul(2.0 * Mul(a, k), x)
    ensures Square(Mul(k, x)) == Mul(Square(k), Square(x))
  {
  }

  lemma DeviationIsAffine(a: real, k: real, g: real -> real, aa: real, c: real, kk: real)
    requires g == Square && aa == Square(a) && c == 2.0 * Mul(a, k) && kk == Square(k)
    ensures forall x :: Deviation(a, k)(x) == aa - Mul(c, x) + Mul(kk, g(x))
  {
  }

  lemma DeviationSum(xs: seq<real>, a: real, k: real)
    ensures SumOf(Deviation(a, k), xs)
         == Mul(Size(xs), Square(a)) - Mul(2.0 * Mul(a, k), Sum(xs)) + Mul(Square(k), SumSq(xs))
  {
    hide Mul, Square, Deviation;
    DeviationIsAffine(a, k, Square, Square(a), 2.0 * Mul(a, k), Square(k));
    SumOfAffine(Deviation(a, k), Square, xs, Square(a), 2.0 * Mul(a, k), Square(k));
  }

  lemma DeviationIsNonNegative(a: real, k: real)
    ensures forall x :: Deviation(a, k)(x) >= 0.0
  {
  }

  lemma {:induction false} SumBounds(f: real -> real, g: real -> real, xs: seq<real>)
    requires forall i :: 0 <= i < |xs| ==> f(xs[i]) <= g(xs[i])
    ensures SumOf(f, xs) <= SumOf(g, xs)
  {
    if xs != [] {
      SumBounds(f, g, xs[1..]);
    }
  }

  lemma {:induction false} SumNonNegative(f: real -> real, xs: seq<real>)
    requires forall x :: f(x) >= 0.0
    ensures SumOf(f, xs) >= 0.0
  {
    if xs != [] {
      SumNonNegative(f, xs[1..]);
    }
  }

  lemma {:induction false} MemberBoundsSum(f: real -> real, xs: seq<real>, i: nat)
    requires i < |xs| && forall x :: f(x) >= 0.0
    ensures f(xs[i]) <= SumOf(f, xs)
  {
    SumNonNegative(f, xs[1..]);
    if i > 0 {
      MemberBoundsSum(f, xs[1..], i - 1);
    }
  }

  lemma SumIsSizeTimesMean(xs: seq<real>)
    ensures Sum(xs) == Mul(Size(xs), Mean(xs))
  {
  }

  /** n a^2 - 2 a k s + k^2 q for a = k m + d, where s = n m and q = n (v + m^2). */
  lemma SpreadAlgebra(n: real, m: real, d: real, k: real, s: real, q: real, v: real)
    requires s == Mul(n, m) && q == Mul(n, v + Square(m))
    ensures Mul(n, Square(Mul(k, m) + d)) - Mul(2.0 * Mul(Mul(k, m) + d, k), s) + Mul(Square(k), q)
         == Mul(n, Square(d) + Mul(v, Square(k)))
  {
  }

  lemma SpreadAroundMean(xs: seq<real>)
    requires xs != []
    ensures SumOf(Deviation(Mean(xs), 1.0), xs) == Mul(Size(xs), SumSq(xs) / Size(xs) - Square(Mean(xs)))
  {
    hide Mul;
    var n, m, q := Size(xs), Mean(xs), SumSq(xs);
    SizeCons(xs);
    DeviationSum(xs, m, 1.0);
    SumIsSizeTimesMean(xs);
    Quotient(n, q);
    MeanAlgebra(n, m, Sum(xs), q, q / n - Square(m));
  }

  /** E[x^2] - E[x]^2 is the mean squared deviation, so it is never negative and the clamp at 0 does
      nothing. */
  lemma VarianceIsMeanSquaredDeviation(xs: seq<real>)
    requires xs != []
    ensures Mul(Size(xs), Variance(xs)) == SumOf(Deviation(Mean(xs), 1.0), xs)
    ensures Variance(xs) == SumSq(xs) / Size(xs) - Square(Mean(xs)) >= 0.0
  {
    hide Mul;
    SpreadAroundMean(xs);
    SizeCons(xs);
    DeviationIsNonNegative(Mean(xs), 1.0);
    SumNonNegative(Deviation(Mean(xs), 1.0), xs);
    ClampIsInert(Size(xs), SumSq(xs) / Size(xs) - Square(Mean(xs)), SumOf(Deviation(Mean(xs), 1.0), xs));
  }

  lemma ClampIsInert(n: real, v: real, spread: real)
    requires n > 0.0 && spread == Mul(n, v) && spread >= 0.0
    ensures Max(v, 0.0) == v && Mul(n, v) == spread
  {
  }

  lemma MeanAlgebra(n: real, m: real, s: real, q: real, v: real)
    requires s == Mul(n, m) && q == Mul(n, v + Square(m))
    ensures Mul(n, Square(m)) - Mul(2.0 * Mul(m, 1.0), s) + Mul(Square(1.0), q) == Mul(n, v)
  {
  }

  lemma QuarterBound(n: real, m: real, s: real, q: real)
    requires n > 0.0 && s == Mul(n, m) && q <= s
    ensures q / n - Square(m) <= 0.25
  {
    Quotient(n, q);
    Cancel(n, q / n, m);
    SquareSign(m - 0.5);
    assert Square(m - 0.5) == Square(m) - m + 0.25;
  }

  /** Reputations in [0, 1] have variance at most a quarter. */
  lemma VarianceAtMostQuarter(xs: seq<real>)
    requires InUnit(xs)
    ensures 0.0 <= Variance(xs) <= 0.25
  {
    hide Mul;
    if xs != [] {
      VarianceIsMeanSquaredDeviation(xs);
      forall i | 0 <= i < |xs| ensures Square(xs[i]) <= xs[i] {
        SquareInUnit(xs[i]);
      }
      SumBounds(Square, (x: real) => x, xs);
      SumIsSizeTimesMean(xs);
      QuarterBound(Size(xs), Mean(xs), Sum(xs), SumSq(xs));
    }
  }

  // ---------------------------------------------------------------------------
  // The voting threshold
  // ---------------------------------------------------------------------------

  /** `s` is the population standard deviation. */
  predicate IsStddev(s: real, xs: seq<real>) {
    s >= 0.0 && Square(s) == Variance(xs)
  }

  function Threshold(xs: seq<real>, sigma: real, stddev: real): real {
    Max(Mean(xs) - Mul(sigma, stddev), 0.0)
  }

  function Below(xs: seq<real>, t: real): nat {
    if xs == [] then 0 else (if xs[0] < t then 1 else 0) + Below(xs[1..], t)
  }

  lemma {:induction false} SumAtMost(xs: seq<real>, top: real)
    requires forall i :: 0 <= i < |xs| ==> xs[i] <= top
    ensures Sum(xs) <= Mul(Size(xs), top)
  {
    hide Mul;
    if xs == [] {
      MulAdds(top, 0.0, 0.0);
    } else {
      SumAtMost(xs[1..], top);
      SizeCons(xs);
      MulAdds(top, 1.0, Size(xs[1..]));
    }
  }

  /** The best-reputed member can always vote, whatever the non-negative sigma factor. */
  lemma BestCanVote(xs: seq<real>, best: nat, sigma: real, stddev: real)
    requires best < |xs| && InUnit(xs)
    requires forall i :: 0 <= i < |xs| ==> xs[i] <= xs[best]
    requires IsStddev(stddev, xs) && sigma >= 0.0
    ensures xs[best] >= Threshold(xs, sigma, stddev)
  {
    hide Mul;
    SizeCons(xs);
    SumAtMost(xs, xs[best]);
    SumIsSizeTimesMean(xs);
    Cancel(Size(xs), Mean(xs), xs[best]);
    MulSigns(sigma, stddev);
  }

  /** Each member below `t` contributes at least `floor` to the sum. */
  lemma {:induction false} BelowContributes(f: real -> real, xs: seq<real>, t: real, floor: real)
    requires forall x :: f(x) >= 0.0
    requires forall i :: 0 <= i < |xs| && xs[i] < t ==> f(xs[i]) >= floor
    ensures Mul(Below(xs, t) as real, floor) <= SumOf(f, xs)
  {
    hide Mul;
    if xs == [] {
      MulAdds(floor, 0.0, 0.0);
    } else {
      var rest := Below(xs[1..], t);
      BelowContributes(f, xs[1..], t, floor);
      MulAdds(floor, 1.0, rest as real);
      assert Below(xs, t) as real == if xs[0] < t then 1.0 + rest as real else rest as real;
    }
  }

  lemma {:induction false} NobodyBelow(xs: seq<real>, t: real)
    requires forall i :: 0 <= i < |xs| ==> xs[i] >= t
    ensures Below(xs, t) == 0
  {
    if xs != [] {
      NobodyBelow(xs[1..], t);
    }
  }

  /** With no spread nobody is below the mean. */
  lemma NoSpread(xs: seq<real>)
    requires Variance(xs) == 0.0
    ensures Below(xs, Mean(xs)) == 0
  {
    hide Mul;
    if xs != [] {
      var m := Mean(xs);
      VarianceIsMeanSquaredDeviation(xs);
      MulAdds(Size(xs), 0.0, 0.0);
      DeviationIsNonNegative(m, 1.0);
      forall i | 0 <= i < |xs| ensures xs[i] >= m {
        MemberBoundsSum(Deviation(m, 1.0), xs, i);
        DeviationAt(m, 1.0, xs[i]);
        SquareSign(m - Mul(1.0, xs[i]));
        MulAdds(xs[i], 0.0, 0.0);
      }
      NobodyBelow(xs, m);
    }
  }

  /** The total scaled deviation is n v (1 + sigma^2). */
  lemma TotalSpread(xs: seq<real>, sigma: real, stddev: real)
    requires xs != [] && IsStddev(stddev, xs)
    ensures SumOf(Deviation(Mul(sigma, Mean(xs)) + stddev, sigma), xs)
         == Mul(Size(xs), Mul(Square(stddev), 1.0 + Square(sigma)))
  {
    hide Mul;
    var n, m, v, q := Size(xs), Mean(xs), Variance(xs), SumSq(xs);
    SizeCons(xs);
    VarianceIsMeanSquaredDeviation(xs);
    Quotient(n, q);
    SumIsSizeTimesMean(xs);
    DeviationSum(xs, Mul(sigma, m) + stddev, sigma);
    SpreadAlgebra(n, m, stddev, sigma, Sum(xs), q, v);
    MulAdds(v, 1.0, Square(sigma));
  }

  /** A member below mean - sigma stddev deviates by at least stddev (1 + sigma^2) once scaled. */
  lemma BelowDeviates(m: real, d: real, k: real, x: real)
    requires d >= 0.0 && k >= 0.0 && x < m - Mul(k, d)
    ensures Square((Mul(k, m) + d) - Mul(k, x)) >= Mul(Mul(Square(d), 1.0 + Square(k)), 1.0 + Square(k))
  {
    var w := 1.0 + Square(k);
    var a, b := Mul(d, w), (Mul(k, m) + d) - Mul(k, x);
    assert a <= b by {
      MulSigns(k, (m - Mul(k, d)) - x);
      MulAdds(k, m - Mul(k, d), x);
      MulAdds(k, m, Mul(k, d));
      MulAdds(d, 1.0, Square(k));
      MixedTerms(k, k, d);
      assert Mul(k, Mul(k, d)) == Mul(d, Square(k));
    }
    SquareSign(k);
    MulSigns(d, w);
    SquareMonotone(a, b);
    MixedTerms(0.0, d, w);
    assert Mul(Square(d), Square(w)) == Mul(Mul(Square(d), w), w);
  }

  lemma CancelSpread(c: real, n: real, v: real, w: real)
    requires v > 0.0 && w > 0.0
    requires Mul(c, Mul(Mul(v, w), w)) <= Mul(n, Mul(v, w))
    ensures Mul(c, w) <= n
  {
  }

  /** The one-sided Chebyshev bound: of n members with reputations in [0, 1], at most n / (1 + sigma^2)
      fall below the voting threshold. */
  lemma FewFallBelow(xs: seq<real>, sigma: real, stddev: real)
    requires InUnit(xs) && IsStddev(stddev, xs) && sigma >= 0.0
    ensures Mul(Below(xs, Threshold(xs, sigma, stddev)) as real, 1.0 + Square(sigma)) <= Size(xs)
  {
    hide Mul;
    var t := Mean(xs) - Mul(sigma, stddev);
    MulAdds(1.0 + Square(sigma), 0.0, 0.0);
    if xs == [] {
    } else if t <= 0.0 {
      NobodyBelow(xs, 0.0);
    } else if Variance(xs) == 0.0 {
      SquareSign(stddev);
      MulAdds(sigma, 0.0, 0.0);
      NoSpread(xs);
    } else {
      VarianceIsMeanSquaredDeviation(xs);
      FewFarBelow(xs, sigma, stddev);
    }
  }

  lemma FewFarBelow(xs: seq<real>, sigma: real, stddev: real)
    requires xs != [] && IsStddev(stddev, xs) && sigma >= 0.0 && Variance(xs) > 0.0
    ensures Mul(Below(xs, Mean(xs) - Mul(sigma, stddev)) as real, 1.0 + Square(sigma)) <= Size(xs)
  {
    hide Mul;
    var a := Mul(sigma, Mean(xs)) + stddev;
    TotalSpread(xs, sigma, stddev);
    DeviationIsNonNegative(a, sigma);
    BelowDeviate(xs, Mean(xs), stddev, sigma);
    SquareSign(sigma);
    CountBound(Deviation(a, sigma), xs, Mean(xs) - Mul(sigma, stddev), Square(stddev), 1.0 + Square(sigma));
  }

  lemma CountBound(f: real -> real, xs: seq<real>, t: real, v: real, w: real)
    requires v > 0.0 && w > 0.0
    requires forall x :: f(x) >= 0.0
    requires forall i :: 0 <= i < |xs| && xs[i] < t ==> f(xs[i]) >= Mul(Mul(v, w), w)
    requires SumOf(f, xs) == Mul(Size(xs), Mul(v, w))
    ensures Mul(Below(xs, t) as real, w) <= Size(xs)
  {
    hide Mul;
    BelowContributes(f, xs, t, Mul(Mul(v, w), w));
    CancelSpread(Below(xs, t) as real, Size(xs), v, w);
  }

  lemma BelowDeviate(xs: seq<real>, m: real, d: real, k: real)
    requires d >= 0.0 && k >= 0.0
    ensures forall i :: 0 <= i < |xs| && xs[i] < m - Mul(k, d) ==>
              Deviation(Mul(k, m) + d, k)(xs[i]) >= Mul(Mul(Square(d), 1.0 + Square(k)), 1.0 + Square(k))
  {
    hide Mul;
    forall i | 0 <= i < |xs| && xs[i] < m - Mul(k, d)
      ensures Deviation(Mul(k, m) + d, k)(xs[i]) >= Mul(Mul(Square(d), 1.0 + Square(k)), 1.0 + Square(k))
    {
      BelowDeviates(m, d, k, xs[i]);
      DeviationAt(Mul(k, m) + d, k, xs[i]);
    }
  }

  // ---------------------------------------------------------------------------
  // Sequences of votes on one target
  // ---------------------------------------------------------------------------

  /** new = current x (1 - weight) + proposed x weight, clamped. */
  function Weighted(current: real, proposed: real, weight: real): real {
    Clamp(Mul(current, 1.0 - weight) + Mul(proposed, weight))
  }

  function Abs(x: real): real {
    if x < 0.0 then -x else x
  }

  /** One vote shrinks the distance to the proposal by the factor 1 - weight; the clamp is inert. */
  lemma VoteContracts(current: real, p: real, w: real)
    requires 0.0 <= current <= 1.0 && 0.0 <= p <= 1.0 && 0.0 <= w <= 1.0
    ensures Weighted(current, p, w) - p == Mul(current - p, 1.0 - w)
    ensures 0.0 <= Weighted(current, p, w) <= 1.0
  {
    hide Mul;
    BlendAlgebra(current, p, w);
    MulSigns(current, 1.0 - w);
    MulSigns(p, w);
    MulSigns(1.0 - current, 1.0 - w);
    MulSigns(1.0 - p, w);
  }

  lemma BlendAlgebra(current: real, p: real, w: real)
    ensures Mul(current, 1.0 - w) + Mul(p, w) - p == Mul(current - p, 1.0 - w)
    ensures 1.0 - (Mul(current, 1.0 - w) + Mul(p, w)) == Mul(1.0 - current, 1.0 - w) + Mul(1.0 - p, w)
  {
  }

  function AfterVotes(current: real, p: real, ws: seq<real>): real
    decreases |ws|
  {
    if ws == [] then current else AfterVotes(Weighted(current, p, ws[0]), p, ws[1..])
  }

  /** The share of the original distance that remains: the product of all 1 - w. */
  function Remaining(ws: seq<real>): real {
    if ws == [] then 1.0 else Mul(1.0 - ws[0], Remaining(ws[1..]))
  }

  lemma MulAssociates(a: real, b: real, c: real)
    ensures Mul(Mul(a, b), c) == Mul(a, Mul(b, c))
    ensures Mul(a, Mul(b, c)) == Mul(b, Mul(a, c))
  {
  }

  /** n votes for the same value leave exactly the product of the factors 1 - w of the distance. */
  lemma {:induction false} VotesContract(current: real, p: real, ws: seq<real>)
    requires 0.0 <= current <= 1.0 && 0.0 <= p <= 1.0 && InUnit(ws)
    ensures AfterVotes(current, p, ws) - p == Mul(current - p, Remaining(ws))
    decreases |ws|
  {
    hide Mul;
    if ws == [] {
      MulAdds(current - p, 0.0, 0.0);
    } else {
      VoteContracts(current, p, ws[0]);
      VotesContract(Weighted(current, p, ws[0]), p, ws[1..]);
      MulAssociates(current - p, 1.0 - ws[0], Remaining(ws[1..]));
    }
  }

  lemma {:induction false} RemainingWithout(ws: seq<real>, i: nat)
    requires i < |ws|
    ensures Remaining(ws) == Mul(1.0 - ws[i], Remaining(ws[..i] + ws[i + 1..]))
    decreases i
  {
    hide Mul;
    if i == 0 {
      assert ws[..0] + ws[1..] == ws[1..];
    } else {
      RemainingWithout(ws[1..], i - 1);
      var rest := ws[..i] + ws[i + 1..];
      assert rest[1..] == ws[1..][..i - 1] + ws[1..][i..];
      MulAssociates(1.0 - ws[0], 1.0 - ws[i], Remaining(rest[1..]));
    }
  }

  lemma MatchFirst(ws: seq<real>, ws': seq<real>) returns (i: nat)
    requires multiset(ws) == multiset(ws') && ws != []
    ensures i < |ws'| && ws'[i] == ws[0]
    ensures multiset(ws[1..]) == multiset(ws'[..i] + ws'[i + 1..])
  {
    assert ws[0] in multiset(ws');
    i :| 0 <= i < |ws'| && ws'[i] == ws[0];
    assert ws[..0] + ws[1..] == ws[1..];
    MultisetWithout(ws, 0);
    MultisetWithout(ws', i);
  }

  lemma {:induction false} RemainingIsUnordered(ws: seq<real>, ws': seq<real>)
    requires multiset(ws) == multiset(ws')
    ensures Remaining(ws) == Remaining(ws')
    decreases |ws|
  {
    hide Mul;
    assert |ws| == |multiset(ws)| == |multiset(ws')| == |ws'|;
    if ws != [] {
      var i := MatchFirst(ws, ws');
      RemainingIsUnordered(ws[1..], ws'[..i] + ws'[i + 1..]);
      RemainingWithout(ws', i);
    }
  }

  lemma MultisetWithout(ws: seq<real>, i: nat)
    requires i < |ws|
    ensures multiset(ws[..i] + ws[i + 1..]) == multiset(ws) - multiset{ws[i]}
  {
    assert ws == ws[..i] + [ws[i]] + ws[i + 1..];
  }

  /** The order in which the votes arrive does not matter. */
  lemma VoteOrderIsIrrelevant(current: real, p: real, ws: seq<real>, ws': seq<real>)
    requires 0.0 <= current <= 1.0 && 0.0 <= p <= 1.0 && InUnit(ws)
    requires multiset(ws) == multiset(ws')
    ensures AfterVotes(current, p, ws) == AfterVotes(current, p, ws')
  {
    forall i | 0 <= i < |ws'| ensures 0.0 <= ws'[i] <= 1.0 {
      assert ws'[i] in multiset(ws');
      assert ws'[i] in ws;
    }
    VotesContract(current, p, ws);
    VotesContract(current, p, ws');
    RemainingIsUnordered(ws, ws');
  }

  function Power(x: real, n: nat): real {
    if n == 0 then 1.0 else Mul(x, Power(x, n - 1))
  }

  lemma MulMonotone(a: real, b: real, c: real, d: real)
    requires 0.0 <= a <= b && 0.0 <= c <= d
    ensures 0.0 <= Mul(a, c) <= Mul(b, d)
  {
  }

  lemma {:induction false} RemainingBound(ws: seq<real>, w: real)
    requires 0.0 <= w <= 1.0 && forall i :: 0 <= i < |ws| ==> w <= ws[i] <= 1.0
    ensures 0.0 <= Remaining(ws) <= Power(1.0 - w, |ws|)
    ensures (forall i :: 0 <= i < |ws| ==> ws[i] == w) ==> Remaining(ws) == Power(1.0 - w, |ws|)
  {
    hide Mul;
    if ws != [] {
      RemainingBound(ws[1..], w);
      MulMonotone(1.0 - ws[0], 1.0 - w, Remaining(ws[1..]), Power(1.0 - w, |ws| - 1));
    }
  }

  /** With weights of at least w the distance decays at least geometrically, and exactly so with weights w. */
  lemma VotesConverge(current: real, p: real, ws: seq<real>, w: real)
    requires 0.0 <= current <= 1.0 && 0.0 <= p <= 1.0
    requires 0.0 <= w <= 1.0 && forall i :: 0 <= i < |ws| ==> w <= ws[i] <= 1.0
    ensures Abs(AfterVotes(current, p, ws) - p) <= Mul(Power(1.0 - w, |ws|), Abs(current - p))
    ensures (forall i :: 0 <= i < |ws| ==> ws[i] == w) ==>
              Abs(AfterVotes(current, p, ws) - p) == Mul(Power(1.0 - w, |ws|), Abs(current - p))
  {
    hide Mul;
    VotesContract(current, p, ws);
    RemainingBound(ws, w);
    var d, rest := current - p, Remaining(ws);
    MulMonotone(rest, Power(1.0 - w, |ws|), Abs(d), Abs(d));
    AbsOfProduct(d, rest);
  }

  lemma AbsOfProduct(d: real, r: real)
    requires r >= 0.0
    ensures Abs(Mul(d, r)) == Mul(r, Abs(d))
  {
  }
}
