/**
 Curation weights of a comment. A vote is worth the growth of a concave curve, so the weights
 add up to no more than the recorded total, which itself stays below what 64 bits hold.
 */
module Curation {
  import opened Common
  import opened Sums
  import opened Powers
  import opened OrderMath

  // ----- the square root curve -----

  /** The position of the highest bit. */
  function Msb(x: nat): (m: nat)
    requires x >= 1
    ensures Pow2(m) <= x < 2 * Pow2(m)
  {
    if x == 1 then 0 else Msb(x / 2) + 1
  }

  /** The mantissa of a number with highest bit `m`, shortened to half its length. */
  function Mantissa(x: nat, m: nat): nat
    requires x >= Pow2(m)
  {
    (x - Pow2(m)) / Pow2(m - m / 2)
  }

  /** Half the exponent; its lost bit goes to the top of the mantissa, and one bit is dropped. */
  function Halved(m: nat, low: nat): nat
  {
    Pow2(m / 2) + ((if m % 2 == 1 then Pow2(m / 2) else 0) + low) / 2
  }

  /** `approx_sqrt`. The bits that are combined do not overlap, so combining them is addition. */
  function ApproxSqrt(x: nat): nat
  {
    if x == 0 then 0 else Halved(Msb(x), Mantissa(x, Msb(x)))
  }

  lemma {:induction false} PowSum(a: nat, b: nat)
    ensures Pow2(a + b) == Pow2(a) * Pow2(b)
  {
    if a > 0 {
      PowSum(a - 1, b);
      assert 2 * (Pow2(a - 1) * Pow2(b)) == (2 * Pow2(a - 1)) * Pow2(b);
    }
  }

  lemma {:induction false} MsbMonotone(x: nat, y: nat)
    requires 1 <= x <= y
    ensures Msb(x) <= Msb(y)
  {
    if x > 1 { MsbMonotone(x / 2, y / 2); }
  }

  lemma DivideBelow(x: nat, a: nat, b: nat)
    requires b >= 1 && x < a * b
    ensures x / b < a
  {
  }

  lemma DivideMonotone(x: nat, y: nat, d: nat)
    requires d >= 1 && x <= y
    ensures x / d <= y / d
  {
    FloorMonotone(x, y, 1, d);
    assert x * 1 == x && y * 1 == y;
  }

  lemma MantissaBelow(x: nat)
    requires x >= 1
    ensures Mantissa(x, Msb(x)) < Pow2(Msb(x) / 2)
  {
    hide Pow2, Msb;
    var m := Msb(x);
    PowSum(m / 2, m - m / 2);
    DivideBelow(x - Pow2(m), Pow2(m / 2), Pow2(m - m / 2));
  }

  /** The root lies in the half octave that its exponent says. */
  lemma HalvedBounds(m: nat, low: nat)
    requires low < Pow2(m / 2)
    ensures if m % 2 == 0 then 2 * Pow2(m / 2) <= 2 * Halved(m, low) < 3 * Pow2(m / 2)
            else 3 * Pow2(m / 2) <= 2 * Halved(m, low) + 1 && Halved(m, low) < 2 * Pow2(m / 2)
  {
    hide Pow2;
  }

  /** A higher exponent gives a root at least as high, whatever the mantissas. */
  lemma HalvedGrows(m: nat, low: nat, n: nat, low': nat)
    requires low < Pow2(m / 2) && low' < Pow2(n / 2) && m < n
    ensures Halved(m, low) <= Halved(n, low')
  {
    HalvedBounds(m, low);
    HalvedBounds(n, low');
    if m / 2 < n / 2 { Grows(m / 2, n / 2); }
  }

  lemma SqrtMonotone(x: nat, y: nat)
    requires x <= y
    ensures ApproxSqrt(x) <= ApproxSqrt(y)
  {
    hide Pow2, Msb, Halved, Mantissa;
    if x > 0 {
      MsbMonotone(x, y);
      MantissaBelow(x);
      MantissaBelow(y);
      if Msb(x) == Msb(y) { SameOctave(x, y, Msb(x)); }
      else { HalvedGrows(Msb(x), Mantissa(x, Msb(x)), Msb(y), Mantissa(y, Msb(y))); }
    }
  }

  lemma SameOctave(x: nat, y: nat, m: nat)
    requires Pow2(m) <= x <= y
    ensures Halved(m, Mantissa(x, m)) <= Halved(m, Mantissa(y, m))
  {
    hide Pow2, Halved;
    DivideMonotone(x - Pow2(m), y - Pow2(m), Pow2(m - m / 2));
    HalvedMonotone(m, Mantissa(x, m), Mantissa(y, m));
  }

  lemma HalvedMonotone(m: nat, low: nat, low': nat)
    requires low <= low'
    ensures Halved(m, low) <= Halved(m, low')
  {
    hide Pow2;
  }

  /** A power of two about the root of `x`, to within a factor of the root of two. */
  predicate NearRoot(x: nat, g: nat)
  {
    g >= 1 && g * g <= 2 * x < 4 * (g * g)
  }

  /** `r` is the mean of `g` and `x / g`, rounded down. */
  predicate Mean(r: nat, x: nat, g: nat)
  {
    RoundedDown(r, x + g * g, 1, 2 * g)
  }

  lemma EvenOctave(x: nat, g: nat, a: nat)
    requires g >= 1 && g * g <= x < 2 * (g * g) && RoundedDown(a, x - g * g, 1, g)
    ensures NearRoot(x, g) && Mean(g + a / 2, x, g)
  {
    var b := a / 2;
    Scale(2 * b, a, g);
    Scale(a + 1, 2 * b + 2, g);
    assert (g + b) * (2 * g) == 2 * (g * g) + (2 * b) * g;
    assert (g + b + 1) * (2 * g) == 2 * (g * g) + (2 * b + 2) * g;
  }

  lemma HalfOf(a: nat, g: nat)
    ensures 2 * (a / 2 * g) <= a * g && a * g + g <= 2 * (a / 2 * g) + 2 * g
  {
    var b := a / 2;
    Scale(2 * b, a, g);
    Scale(a, 2 * b + 1, g);
    assert (2 * b) * g == 2 * (b * g);
    Distribute(2 * b, 1, g);
  }

  /** `r` is `half` and half of a number that is about `x / g`. */
  lemma MeanOf(r: nat, x: nat, g: nat, half: nat, b: nat)
    requires g == 2 * half && r == half + b && 2 * (b * g) <= x < 2 * (b * g) + 2 * g
    ensures Mean(r, x, g)
  {
    assert g * g == 2 * (half * g);
    Distribute(half, b, 2 * g);
    Distribute(r, 1, 2 * g);
    assert half * (2 * g) == 2 * (half * g) && b * (2 * g) == 2 * (b * g);
  }

  lemma OddOctave(x: nat, half: nat, g: nat, a: nat)
    requires half >= 1 && g == 2 * half && 2 * (half * half) <= x < 4 * (half * half)
    requires RoundedDown(a, x - 2 * (half * half), 1, g)
    ensures NearRoot(x, g) && Mean(half + (half + a) / 2, x, g)
  {
    hide Mean;
    assert half * g == 2 * (half * half) && g * g == 4 * (half * half);
    Distribute(half, a, g);
    Distribute(a, 1, g);
    HalfOf(half + a, g);
    MeanOf(half + (half + a) / 2, x, g, half, (half + a) / 2);
  }

  /** The root is one step of Newton's method from a power of two near the exact root. */
  lemma SqrtNewton(x: nat)
    requires x >= 1
    ensures exists k :: NearRoot(x, Pow2(k)) && Mean(ApproxSqrt(x), x, Pow2(k))
  {
    hide Pow2, Msb, NearRoot, Mean;
    var m := Msb(x);
    var h := m / 2;
    PowSum(h, m - h);
    FloorRounds(x - Pow2(m), 1, Pow2(m - h));
    if m % 2 == 0 {
      EvenOctave(x, Pow2(h), Mantissa(x, m));
    } else {
      PowSum(1, h);
      PowOne();
      assert Pow2(m) == 2 * (Pow2(h) * Pow2(h));
      OddOctave(x, Pow2(h), Pow2(h + 1), Mantissa(x, m));
      assert NearRoot(x, Pow2(h + 1));
    }
  }

  lemma PowOne()
    ensures Pow2(1) == 2
  {
  }

  lemma MeanAbove(r: nat, x: nat, g: nat)
    requires g >= 1 && Mean(r, x, g)
    ensures x < (r + 1) * (r + 1)
  {
    var d := r + 1 - g;
    assert (r + 1) * (r + 1) == (r + 1) * (2 * g) - g * g + d * d;
    assert d * d >= 0;
  }

  lemma MeanSquare(r: nat, g: nat, y: nat)
    requires r * (2 * g) <= y
    ensures 4 * ((g * g) * (r * r)) <= y * y
  {
    Squares(r * (2 * g), y);
    assert (r * (2 * g)) * (r * (2 * g)) == 4 * ((g * g) * (r * r));
  }

  lemma MiddleSquare(x: nat, q: nat)
    requires q <= 2 * x && x <= 2 * q
    ensures 2 * ((x + q) * (x + q)) <= 9 * (q * x)
  {
    var a, b := 2 * x - q, 2 * q - x;
    assert a * b >= 0;
    assert a * b == 5 * (q * x) - 2 * (x * x) - 2 * (q * q);
    assert (x + q) * (x + q) == x * x + 2 * (q * x) + q * q;
  }

  lemma MeanBelow(r: nat, x: nat, g: nat)
    requires NearRoot(x, g) && Mean(r, x, g)
    ensures 8 * (r * r) <= 9 * x
  {
    var q, s := g * g, r * r;
    MeanSquare(r, g, x + q);
    MiddleSquare(x, q);
    EightNinths(q, s, x);
  }

  lemma EightNinths(q: nat, s: nat, x: nat)
    requires q >= 1 && 8 * (q * s) <= 9 * (q * x)
    ensures 8 * s <= 9 * x
  {
    assert (8 * s) * q == 8 * (q * s) && (9 * x) * q == 9 * (q * x);
    Cancel(8 * s, 9 * x, q);
  }

  lemma Squares(a: nat, b: nat)
    requires a <= b
    ensures a * a <= b * b
  {
  }

  /** The approximation is at least the root rounded down, and its square exceeds the number by at most an eighth. */
  lemma SqrtClose(x: nat)
    ensures var r := ApproxSqrt(x); x < (r + 1) * (r + 1) && 8 * (r * r) <= 9 * x
  {
    hide NearRoot, Mean, Pow2, ApproxSqrt;
    if x == 0 {
      SqrtNothing();
    } else {
      SqrtNewton(x);
      var k :| NearRoot(x, Pow2(k)) && Mean(ApproxSqrt(x), x, Pow2(k));
      MeanAbove(ApproxSqrt(x), x, Pow2(k));
      MeanBelow(ApproxSqrt(x), x, Pow2(k));
    }
  }

  lemma SqrtNothing()
    ensures ApproxSqrt(0) == 0
  {
  }

  // ----- the curves -----

  datatype Curve = Linear | SquareRoot | QuadraticCuration(constant: nat)

  /** `evaluate_reward_curve`, for the curves that curation uses. */
  function Weigh(curve: Curve, rshares: nat): nat
    requires CurveOk(curve)
  {
    match curve
    case Linear => rshares
    case SquareRoot => ApproxSqrt(rshares)
    case QuadraticCuration(s) =>
      FloorSigned(rshares, TWO64, 2 * s + rshares);
      Floor(rshares, TWO64, 2 * s + rshares)
  }

  /** What a curve gives: the shares, a root of them, or the part that shares have in themselves and a constant. */
  lemma WeighExact(curve: Curve, r: nat)
    requires CurveOk(curve)
    ensures var w := Weigh(curve, r);
            match curve
            case Linear => w == r
            case SquareRoot => r < (w + 1) * (w + 1) && 8 * (w * w) <= 9 * r
            case QuadraticCuration(s) => RoundedDown(w, r, TWO64, 2 * s + r)
  {
    match curve
    case Linear =>
    case SquareRoot => SqrtClose(r);
    case QuadraticCuration(s) => FloorRounds(r, TWO64, 2 * s + r);
  }

  predicate CurveOk(curve: Curve)
  {
    curve.QuadraticCuration? ==> curve.constant >= 1
  }

  lemma WeighMonotone(curve: Curve, r: nat, s: nat)
    requires CurveOk(curve) && r <= s
    ensures Weigh(curve, r) <= Weigh(curve, s)
  {
    match curve
    case Linear =>
    case SquareRoot => SqrtMonotone(r, s);
    case QuadraticCuration(c) => FractionMonotone(r, s, 2 * c);
  }

  /** `r / (k + r)` grows with `r`. */
  lemma FractionMonotone(r: nat, s: nat, k: nat)
    requires r <= s && k >= 1
    ensures Floor(r, TWO64, k + r) <= Floor(s, TWO64, k + s)
  {
    var q := Floor(r, TWO64, k + r);
    FloorSigned(r, TWO64, k + r);
    FloorGalois(r, TWO64, k + r, q);
    FloorGalois(s, TWO64, k + s, q);
    CrossFraction(r, s, k, q);
  }

  lemma CrossFraction(r: nat, s: nat, k: nat, q: nat)
    requires r <= s && k >= 1 && q * (k + r) <= r * TWO64
    ensures q * (k + s) <= s * TWO64
  {
    assert r * TWO64 <= TWO64 * (k + r);
    Cancel(q, TWO64, k + r);
    Scale(q, TWO64, s - r);
    assert q * (k + s) == q * (k + r) + q * (s - r);
    assert s * TWO64 == r * TWO64 + (s - r) * TWO64;
  }

  /** Every weight fits 64 bits, since shares are signed 64-bit numbers. */
  lemma WeighBound(curve: Curve, r: nat)
    requires CurveOk(curve) && r < TWO63
    ensures Weigh(curve, r) < TWO64
  {
    match curve
    case Linear =>
    case SquareRoot => SqrtBelow(r);
    case QuadraticCuration(s) =>
      FloorGalois(r, TWO64, 2 * s + r, TWO64);
      assert TWO64 * (2 * s + r) == TWO64 * (2 * s) + r * TWO64;
  }

  lemma SqrtBelow(x: nat)
    ensures ApproxSqrt(x) <= x
  {
    hide Pow2, Msb, Halved, Mantissa;
    if x > 0 {
      MantissaBelow(x);
      HalvedBounds(Msb(x), Mantissa(x, Msb(x)));
      SqrtSmall(x, Msb(x), Mantissa(x, Msb(x)));
    }
  }

  lemma SqrtSmall(x: nat, m: nat, low: nat)
    requires Pow2(m) <= x && low < Pow2(m / 2)
    ensures Halved(m, low) <= x
  {
    HalvedBounds(m, low);
    if m >= 1 { Grows(m / 2, m); }
  }

  // ----- voting -----

  const MAX_VOTE_CHANGES: int := 5

  datatype Vote = Vote(rshares: int, percent: int, weight: int, changes: int)

  type Votes = map<Name, Vote>

  function WeightTerm(votes: Votes, n: Name): int
  {
    if n in votes then votes[n].weight else 0
  }

  ghost function TotalWeight(votes: Votes): int
  {
    Sum(votes.Keys, n => WeightTerm(votes, n))
  }

  lemma WeightSet(votes: Votes, n: Name, v: Vote)
    ensures TotalWeight(votes[n := v]) == TotalWeight(votes) + v.weight - WeightTerm(votes, n)
  {
    var after := votes[n := v];
    if n in votes {
      assert after.Keys == votes.Keys;
      SumUpdate(votes.Keys, n, x => WeightTerm(votes, x), x => WeightTerm(after, x));
    } else {
      assert after.Keys == votes.Keys + {n};
      SumInsert(votes.Keys, n, x => WeightTerm(after, x));
      SumExt(votes.Keys, x => WeightTerm(votes, x), x => WeightTerm(after, x));
    }
  }

  lemma WeightAtMost(votes: Votes, n: Name)
    requires n in votes && forall x :: x in votes ==> votes[x].weight >= 0
    ensures votes[n].weight <= TotalWeight(votes)
  {
    SumAtLeast(votes.Keys, n, x => WeightTerm(votes, x));
  }

  /** A weight reduced for an early vote. */
  function Discounted(weight: nat, elapsed: nat, auction: nat): (r: nat)
    requires auction >= 1
    ensures r <= weight
  {
    var t := if elapsed <= auction then elapsed else auction;
    FloorSigned(weight, t, auction);
    FloorGalois(weight, t, auction, weight + 1);
    Scale(t, auction, weight);
    assert (weight + 1) * auction == weight * auction + auction;
    assert weight * t == t * weight && auction * weight == weight * auction;
    Floor(weight, t, auction)
  }

  /** The reduction is by the part of the auction that has not passed. */
  lemma DiscountedExact(weight: nat, elapsed: nat, auction: nat)
    requires auction >= 1
    ensures elapsed >= auction ==> Discounted(weight, elapsed, auction) == weight
    ensures elapsed < auction ==> RoundedDown(Discounted(weight, elapsed, auction), weight, elapsed, auction)
  {
    FloorRounds(weight, elapsed, auction);
    FloorRounds(weight, auction, auction);
    RoundedOnce(Floor(weight, auction, auction), weight, weight, auction, auction);
  }

  class Comment {
    const curve: Curve
    var netRshares: int
    var voteRshares: int
    var totalWeight: int
    var votes: Votes

    /** The weights fit in the recorded total, and that in the curve's value. */
    ghost predicate Valid()
      reads this
    {
      && CurveOk(curve)
      && 0 <= voteRshares < TWO63
      && (forall n :: n in votes ==> votes[n].weight >= 0)
      && TotalWeight(votes) <= totalWeight <= Weigh(curve, voteRshares)
    }

    constructor (curve: Curve)
      requires CurveOk(curve)
      ensures Valid() && votes == map[]
    {
      this.curve := curve;
      netRshares, voteRshares, totalWeight, votes := 0, 0, 0, map[];
      new;
      assert TotalWeight(votes) == 0;
    }

    /**
     `hf20_vote_evaluator`, before the comment is paid out. The voting power spent is an
     input; `eligible` says whether the vote can earn a curation reward. The two 64-bit
     subtractions and the addition never leave their range.
     */
    method CastVote(voter: Name, rshares: int, percent: int, eligible: bool, elapsed: nat, auction: nat)
      returns (ok: bool)
      requires Valid() && auction >= 1 && -TWO63 <= rshares < TWO63
      modifies this
      ensures Valid()
      ensures ok <==> if voter !in old(votes) then percent != 0 && old(voteRshares) + rshares < TWO63
                      else old(votes)[voter].changes < MAX_VOTE_CHANGES && old(votes)[voter].percent != percent
      ensures ok && voter !in old(votes) ==>
                && netRshares == old(netRshares) + rshares
                && voteRshares == old(voteRshares) + (if rshares > 0 then rshares else 0)
                && var most := if eligible && rshares > 0
                               then Weigh(curve, voteRshares) - Weigh(curve, old(voteRshares)) else 0;
                   && 0 <= most < TWO64 && totalWeight == old(totalWeight) + most
                   && votes == old(votes)[voter := Vote(rshares, percent, Discounted(most, elapsed, auction), 0)]
      ensures ok && voter in old(votes) ==>
                && netRshares == old(netRshares) - old(votes)[voter].rshares + rshares
                && voteRshares == old(voteRshares)
                && totalWeight == old(totalWeight) - old(votes)[voter].weight && totalWeight >= 0
                && votes == old(votes)[voter := Vote(rshares, percent, 0, old(votes)[voter].changes + 1)]
      ensures !ok ==> netRshares == old(netRshares) && voteRshares == old(voteRshares)
      ensures !ok ==> totalWeight == old(totalWeight) && votes == old(votes)
      ensures totalWeight < TWO64
    {
      hide Weigh, TotalWeight;
      WeighBound(curve, voteRshares);
      if voter !in votes {
        if percent == 0 || voteRshares + rshares >= TWO63 { return false; }
        netRshares := netRshares + rshares;
        ghost var before := voteRshares;
        var maxWeight := 0;
        var oldWeight := Weigh(curve, voteRshares);
        if rshares > 0 { voteRshares := voteRshares + rshares; }
        WeighMonotone(curve, before, voteRshares);
        WeighBound(curve, voteRshares);
        if eligible && rshares > 0 { maxWeight := Weigh(curve, voteRshares) - oldWeight; }
        var weight := Discounted(maxWeight, elapsed, auction);
        WeightSet(votes, voter, Vote(rshares, percent, weight, 0));
        votes := votes[voter := Vote(rshares, percent, weight, 0)];
        totalWeight := totalWeight + maxWeight;
      } else {
        var vote := votes[voter];
        if vote.changes >= MAX_VOTE_CHANGES || vote.percent == percent { return false; }
        netRshares := netRshares - vote.rshares + rshares;
        WeightAtMost(votes, voter);
        WeightSet(votes, voter, Vote(rshares, percent, 0, vote.changes + 1));
        NonNegativeWeights(votes[voter := Vote(rshares, percent, 0, vote.changes + 1)]);
        totalWeight := totalWeight - vote.weight;
        votes := votes[voter := Vote(rshares, percent, 0, vote.changes + 1)];
      }
      return true;
    }
  }

  lemma NonNegativeWeights(votes: Votes)
    requires forall n :: n in votes ==> votes[n].weight >= 0
    ensures TotalWeight(votes) >= 0
  {
    SumMonotone({}, votes.Keys, n => 0, n => WeightTerm(votes, n));
  }
}
