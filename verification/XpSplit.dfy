/** Splitting a pool of XP by weight, in binary64 arithmetic. */
module XpSplit {
  import opened Skills

  datatype Tag = Tag(skill: SkillId, weight: int)
  datatype Share = Share(skill: SkillId, xp: int)

  function Total(tags: seq<Tag>): int {
    if tags == [] then 0 else tags[0].weight + Total(tags[1..])
  }

  // 2^53 and 2^50; literals below keep the arithmetic linear.
  const MAX_EXACT := 9007199254740992
  const MAX_POOL := 1125899906842624

  /** What is used of rounding to binary64: monotone, exact on whole numbers to 2^53, otherwise off by at most 2^-53. */
  ghost predicate IsRounding(fl: real -> real) {
    IsMonotone(fl) && IsExact(fl) && IsPrecise(fl)
  }

  ghost predicate IsMonotone(fl: real -> real) {
    forall x, y | x <= y :: fl(x) <= fl(y)
  }

  ghost predicate IsExact(fl: real -> real) {
    forall x | IsWhole(x) && 0.0 <= x <= 9007199254740992.0 :: fl(x) == x
  }

  ghost predicate IsPrecise(fl: real -> real) {
    forall x | InRange(x) :: IsRounded(fl(x), x)
  }

  predicate IsWhole(x: real) {
    x.Floor as real == x
  }

  /** From 2^-54 to 2^53. */
  predicate InRange(x: real) {
    1.0 <= 18014398509481984.0 * x && x <= 9007199254740992.0
  }

  /** Off by at most 2^-53 of the exact number. */
  predicate IsRounded(x: real, exact: real) {
    -exact <= 9007199254740992.0 * (x - exact) <= exact
  }

  /** Off by at most three times as much. */
  predicate IsRoundedTwice(x: real, exact: real) {
    -(3.0 * exact) <= 9007199254740992.0 * (x - exact) <= 3.0 * exact
  }

  /** Round to the nearest integer, a tie to the even one. */
  function RoundHalfEven(x: real): (r: int)
    ensures -0.5 <= x - r as real <= 0.5
    ensures x - r as real == 0.5 || x - r as real == -0.5 ==> r % 2 == 0
  {
    var q := x.Floor;
    var rest := x - q as real;
    if rest < 0.5 || (rest == 0.5 && q % 2 == 0) then q else q + 1
  }

  /** The ratio and the product are floats, each rounded. */
  function ShareOf(fl: real -> real, whole: real, ratio: real): int {
    RoundHalfEven(fl(Product(whole, fl(ratio))))
  }

  function Product(x: real, y: real): real {
    x * y
  }

  function SharesFrom(share: int -> int, tags: seq<Tag>): seq<Share> {
    if tags == [] then []
    else
      var xp := share(tags[0].weight);
      (if xp > 0 then [Share(tags[0].skill, xp)] else []) + SharesFrom(share, tags[1..])
  }

  /** What one weight out of `total` receives; the pool itself becomes a float first. */
  function ByWeight(fl: real -> real, pool: int, total: int): int -> int
    requires total != 0
  {
    weight => ShareOf(fl, fl(pool as real), weight as real / total as real)
  }

  /** `_iter_tagged_xp`: one share per tag with a positive rounded part. */
  function Shares(fl: real -> real, tags: seq<Tag>, pool: int): seq<Share> {
    if tags == [] || Total(tags) == 0 then [] else SharesFrom(ByWeight(fl, pool, Total(tags)), tags)
  }

  function Sum(shares: seq<Share>): int {
    if shares == [] then 0 else shares[0].xp + Sum(shares[1..])
  }

  lemma {:induction false} SharesArePositive(share: int -> int, tags: seq<Tag>)
    ensures forall part | part in SharesFrom(share, tags) :: part.xp > 0
  {
    if tags != [] {
      SharesArePositive(share, tags[1..]);
    }
  }

  predicate WeightsArePositive(tags: seq<Tag>) {
    forall t | t in tags :: t.weight > 0
  }

  // Multiplication facts, one at a time.

  lemma Scale(factor: real, x: real, y: real)
    requires factor >= 0.0 && x <= y
    ensures factor * x <= factor * y
  {
  }

  lemma StrictScale(factor: real, x: real, y: real)
    requires factor > 0.0 && x < y
    ensures factor * x < factor * y
  {
  }

  lemma QuotientInRange(weight: real, total: real, limit: real)
    requires 1.0 <= weight <= total <= limit
    ensures 0.0 <= weight / total <= 1.0 <= limit * (weight / total)
  {
    var ratio := weight / total;
    assert total * ratio == weight;
    if 1.0 < ratio {
      StrictScale(total, 1.0, ratio);
      assert false;
    }
    assert 0.0 <= ratio;
    Scale(ratio, total, limit);
  }

  lemma QuotientIsMonotone(x: real, y: real, total: real)
    requires x <= y && total > 0.0
    ensures x / total <= y / total
  {
    var a, b := x / total, y / total;
    assert total * a == x && total * b == y;
    if b < a {
      StrictScale(total, b, a);
      assert false;
    }
  }

  lemma ProductInRange(whole: real, a: real)
    requires 1.0 <= whole <= 1125899906842624.0 && 1.0 <= 18014398509481984.0 * a && a <= 2.0
    ensures InRange(Product(whole, a)) && 0.0 <= Product(whole, a)
  {
    ProductIsBetween(whole, a);
    var product := Product(whole, a);
    assert a <= product <= 2.0 * whole;
  }

  lemma ProductIsBetween(x: real, y: real)
    requires 1.0 <= x && 0.0 <= y <= 2.0
    ensures y <= Product(x, y) <= 2.0 * x
  {
    Scale(y, 1.0, x);
    Scale(x, y, 2.0);
    assert y * x == Product(x, y);
  }

  /** Two roundings of a product leave it within three parts. */
  lemma TwoRoundings(whole: real, ratio: real, a: real, b: real)
    requires whole >= 0.0 && ratio >= 0.0 && IsRounded(a, ratio) && IsRounded(b, whole * a)
    ensures IsRoundedTwice(b, whole * ratio)
  {
    Scale(whole, -ratio, 9007199254740992.0 * (a - ratio));
    Scale(whole, 9007199254740992.0 * (a - ratio), ratio);
    assert whole * (9007199254740992.0 * (a - ratio)) == 9007199254740992.0 * (whole * a - whole * ratio);
    assert whole * -ratio == -(whole * ratio) && whole * ratio >= 0.0;
  }

  // ---------------------------------------------------------------- what the split adds up to

  /** Within half an XP for each of `n` shares, and three times 2^-53 for the floats. */
  predicate IsCloseTo(x: real, exact: real, n: nat) {
    var slack := 4503599627370496.0 * n as real + 3.0 * exact;
    -slack <= 9007199254740992.0 * (x - exact) <= slack
  }

  lemma ShareOfRounded(whole: real, ratio: real, a: real, b: real)
    requires (whole == 0.0 || 1.0 <= whole) && whole <= 1125899906842624.0
    requires 0.0 <= ratio <= 1.0 <= 9007199254740992.0 * ratio
    requires IsRounded(a, ratio)
    requires InRange(Product(whole, a)) ==> IsRounded(b, Product(whole, a))
    requires Product(whole, a) == 0.0 ==> b == 0.0
    ensures RoundHalfEven(b) >= 0 && IsCloseTo(RoundHalfEven(b) as real, Product(whole, ratio), 1)
  {
    if whole == 0.0 {
      assert whole * a == 0.0 && whole * ratio == 0.0;
    } else {
      ProductInRange(whole, a);
      TwoRoundings(whole, ratio, a, b);
    }
  }

  lemma ShareIsClose(fl: real -> real, whole: real, ratio: real)
    requires IsPrecise(fl) && fl(0.0) == 0.0 && (whole == 0.0 || 1.0 <= whole) && whole <= 1125899906842624.0
    requires 0.0 <= ratio <= 1.0 <= 9007199254740992.0 * ratio
    ensures ShareOf(fl, whole, ratio) >= 0
    ensures IsCloseTo(ShareOf(fl, whole, ratio) as real, Product(whole, ratio), 1)
  {
    ShareOfRounded(whole, ratio, fl(ratio), fl(Product(whole, fl(ratio))));
  }

  function Parts(part: int -> real, tags: seq<Tag>): real {
    if tags == [] then 0.0 else part(tags[0].weight) + Parts(part, tags[1..])
  }

  lemma SumOfShares(share: int -> int, tags: seq<Tag>)
    requires tags != [] && share(tags[0].weight) >= 0
    ensures Sum(SharesFrom(share, tags)) == share(tags[0].weight) + Sum(SharesFrom(share, tags[1..]))
  {
    var xp, tail := share(tags[0].weight), SharesFrom(share, tags[1..]);
    if xp > 0 {
      assert ([Share(tags[0].skill, xp)] + tail)[1..] == tail;
    } else {
      assert SharesFrom(share, tags) == tail;
    }
  }

  lemma {:induction false} SplitErrorAddsUp(share: int -> int, part: int -> real, tags: seq<Tag>)
    requires forall t | t in tags :: share(t.weight) >= 0 && IsCloseTo(share(t.weight) as real, part(t.weight), 1)
    ensures IsCloseTo(Sum(SharesFrom(share, tags)) as real, Parts(part, tags), |tags|)
  {
    if tags != [] {
      SplitErrorAddsUp(share, part, tags[1..]);
      SumOfShares(share, tags);
    }
  }

  lemma {:induction false} TotalIsPositive(tags: seq<Tag>)
    requires WeightsArePositive(tags)
    ensures Total(tags) >= |tags| && forall t | t in tags :: t.weight <= Total(tags)
  {
    if tags != [] {
      TotalIsPositive(tags[1..]);
    }
  }

  function ExactPart(pool: int, total: int): int -> real
    requires total != 0
  {
    weight => Product(pool as real, weight as real / total as real)
  }

  lemma ExactPartsAddUp(pool: int, a: int, b: int, total: int)
    requires total > 0
    ensures ExactPart(pool, total)(a) + ExactPart(pool, total)(b) == ExactPart(pool, total)(a + b)
    ensures ExactPart(pool, total)(0) == 0.0 && ExactPart(pool, total)(total) == pool as real
  {
    assert a as real / total as real + b as real / total as real == (a + b) as real / total as real;
  }

  lemma {:induction false} PartsAddUp(pool: int, total: int, tags: seq<Tag>)
    requires total > 0
    ensures Parts(ExactPart(pool, total), tags) == ExactPart(pool, total)(Total(tags))
  {
    if tags == [] {
      ExactPartsAddUp(pool, 0, 0, total);
    } else {
      PartsAddUp(pool, total, tags[1..]);
      ExactPartsAddUp(pool, tags[0].weight, Total(tags[1..]), total);
    }
  }

  lemma CloseWholesAreClose(sum: int, pool: nat, n: nat)
    requires IsCloseTo(sum as real, pool as real, n) && pool <= MAX_POOL
    ensures 0 - n <= 2 * (pool - sum) <= n
  {
    assert (2 * (pool - sum)) as real - n as real < 1.0 && (2 * (sum - pool)) as real - n as real < 1.0;
  }

  lemma WeightIsClose(fl: real -> real, pool: nat, weight: int, total: int)
    requires IsPrecise(fl) && fl(0.0) == 0.0 && fl(pool as real) == pool as real && pool <= MAX_POOL
    requires 0 < weight <= total <= MAX_EXACT
    ensures ByWeight(fl, pool, total)(weight) >= 0
    ensures IsCloseTo(ByWeight(fl, pool, total)(weight) as real, ExactPart(pool, total)(weight), 1)
  {
    QuotientInRange(weight as real, total as real, 9007199254740992.0);
    ShareIsClose(fl, pool as real, weight as real / total as real);
  }

  lemma WholesAreExact(fl: real -> real, pool: nat)
    requires IsExact(fl) && pool <= MAX_EXACT
    ensures fl(0.0) == 0.0 && fl(1.0) == 1.0 && fl(pool as real) == pool as real
  {
    assert IsWhole(0.0) && IsWhole(1.0) && IsWhole(pool as real);
  }

  /** With positive weights, what is handed out differs from the pool by at most half the number of tags. */
  lemma SplitIsCloseToPool(fl: real -> real, tags: seq<Tag>, pool: nat)
    requires IsRounding(fl) && WeightsArePositive(tags) && tags != [] && Total(tags) <= MAX_EXACT && pool <= MAX_POOL
    ensures -|tags| <= 2 * (pool - Sum(Shares(fl, tags, pool))) <= |tags|
  {
    var total := Total(tags);
    TotalIsPositive(tags);
    WholesAreExact(fl, pool);
    forall t | t in tags
      ensures ByWeight(fl, pool, total)(t.weight) >= 0
      ensures IsCloseTo(ByWeight(fl, pool, total)(t.weight) as real, ExactPart(pool, total)(t.weight), 1)
    {
      WeightIsClose(fl, pool, t.weight, total);
    }
    SplitErrorAddsUp(ByWeight(fl, pool, total), ExactPart(pool, total), tags);
    PartsAddUp(pool, total, tags);
    ExactPartsAddUp(pool, 0, 0, total);
    CloseWholesAreClose(Sum(Shares(fl, tags, pool)), pool, |tags|);
  }

  /** A single tag of positive weight receives exactly the pool. */
  lemma SingleTagTakesThePool(fl: real -> real, tag: Tag, pool: nat)
    requires IsRounding(fl) && tag.weight > 0 && 0 < pool <= MAX_EXACT
    ensures Shares(fl, [tag], pool) == [Share(tag.skill, pool)]
  {
    WholesAreExact(fl, pool);
    assert Total([tag]) == tag.weight && tag.weight as real / tag.weight as real == 1.0;
    assert SharesFrom(ByWeight(fl, pool, tag.weight), [tag][1..]) == [];
  }

  lemma RoundingIsMonotone(x: real, y: real)
    requires x <= y
    ensures RoundHalfEven(x) <= RoundHalfEven(y)
  {
    if RoundHalfEven(x) > RoundHalfEven(y) {
      // Only a tie could round both ways, and a tie rounds to the even side.
      assert false;
    }
  }

  lemma ShareIsMonotone(fl: real -> real, whole: real, small: real, large: real)
    requires IsMonotone(fl) && whole >= 0.0 && small <= large
    ensures ShareOf(fl, whole, small) <= ShareOf(fl, whole, large)
  {
    var a, b := fl(small), fl(large);
    Scale(whole, a, b);
    assert Product(whole, a) <= Product(whole, b);
    RoundingIsMonotone(fl(Product(whole, fl(small))), fl(Product(whole, fl(large))));
  }

  /** A larger weight never receives less. */
  lemma LargerWeightNeverGetsLess(fl: real -> real, pool: nat, light: int, heavy: int, total: nat)
    requires IsRounding(fl) && total > 0 && light <= heavy
    ensures ByWeight(fl, pool, total)(light) <= ByWeight(fl, pool, total)(heavy)
  {
    WholesAreExact(fl, 0);
    QuotientIsMonotone(light as real, heavy as real, total as real);
    ShareIsMonotone(fl, fl(pool as real), light as real / total as real, heavy as real / total as real);
  }
}
