/**
 * The C# damage formula (Scripts/Battle/DamageCalculator.cs): base damage
 * from the chain length and the number of cleared cells, a colour bonus
 * over the per-colour counts, a speed bonus over the chain time, and the
 * result record that sums them. Floats are modelled as exact reals.
 */
module Damage {

  /** b to the power n, for a natural exponent. */
  function Pow(b: real, n: nat): (r: real)
    ensures b >= 0.0 ==> r >= 0.0
    ensures b >= 1.0 ==> r >= 1.0
  {
    if n == 0 then 1.0 else b * Pow(b, n - 1)
  }

  /**
   * Mathf.RoundToInt: the nearest integer, and on a tie the even one
   * (the rounding of .NET's Math.Round).
   */
  function RoundToInt(v: real): int {
    var f := v.Floor;
    var frac := v - f as real;
    if frac < 0.5 then f
    else if frac > 0.5 then f + 1
    else if IsEven(f) then f else f + 1
  }

  predicate IsEven(n: int) { n % 2 == 0 }

  /** The rounded value is within 1/2 of v, and a tie goes to the even neighbour. */
  lemma RoundToIntNearest(v: real)
    ensures -0.5 <= RoundToInt(v) as real - v <= 0.5
    ensures RoundToInt(v) as real - v == 0.5 || RoundToInt(v) as real - v == -0.5 ==> IsEven(RoundToInt(v))
  {
  }

  /** An integral value rounds to itself. */
  lemma RoundToIntOfInt(n: int)
    ensures RoundToInt(n as real) == n
  {
  }

  /** Rounding is monotone. */
  lemma RoundToIntMonotone(v: real, w: real)
    requires v <= w
    ensures RoundToInt(v) <= RoundToInt(w)
  {
    var rv, rw := RoundToInt(v), RoundToInt(w);
    RoundToIntNearest(v);
    RoundToIntNearest(w);
    // rv <= v + 1/2 <= w + 1/2 <= rw + 1, and rv = rw + 1 would need a tie at both, rounded to two even neighbours
    assert rv == rw + 1 ==> IsEven(rv) && IsEven(rw);
  }

  /** A non-negative value rounds to a non-negative integer. */
  lemma RoundToIntNonNegative(v: real)
    requires v >= 0.0
    ensures RoundToInt(v) >= 0
  {
    RoundToIntMonotone(0.0, v);
    RoundToIntOfInt(0);
  }

  /** The chain bonus factor: chainMultiplier^(chainCount-1), applied only from the second chain on. */
  function ChainBonus(chainCount: int, chainMultiplier: real): real {
    if chainCount > 1 then Pow(chainMultiplier, chainCount - 1) else 1.0
  }

  /**
   * CalculateChainDamage: baseDamage x clearedPuyos, times the chain bonus,
   * rounded to the nearest integer.
   */
  function ChainDamage(chainCount: int, clearedPuyos: int, baseDamage: real, chainMultiplier: real): int {
    RoundToInt(UnroundedDamage(chainCount, clearedPuyos, baseDamage, chainMultiplier))
  }

  /** The float damage before rounding. */
  function UnroundedDamage(chainCount: int, clearedPuyos: int, baseDamage: real, chainMultiplier: real): real {
    baseDamage * (clearedPuyos as real) * ChainBonus(chainCount, chainMultiplier)
  }

  /** Chain damage is within 1/2 of the exact product. */
  lemma ChainDamageNearest(chainCount: int, clearedPuyos: int, baseDamage: real, chainMultiplier: real)
    ensures -0.5 <= ChainDamage(chainCount, clearedPuyos, baseDamage, chainMultiplier) as real -
                    baseDamage * (clearedPuyos as real) * ChainBonus(chainCount, chainMultiplier) <= 0.5
  {
    RoundToIntNearest(UnroundedDamage(chainCount, clearedPuyos, baseDamage, chainMultiplier));
  }

  /** A single chain (or none) is not multiplied: it is plain base x cleared, rounded. */
  lemma SingleChainDamage(chainCount: int, clearedPuyos: int, baseDamage: real, chainMultiplier: real)
    requires chainCount <= 1
    ensures ChainDamage(chainCount, clearedPuyos, baseDamage, chainMultiplier) ==
            RoundToInt(baseDamage * (clearedPuyos as real))
  {
    var v := baseDamage * (clearedPuyos as real);
    assert ChainBonus(chainCount, chainMultiplier) == 1.0;
    assert UnroundedDamage(chainCount, clearedPuyos, baseDamage, chainMultiplier) == v * 1.0 == v;
  }

  /** Each further chain multiplies the unrounded damage by chainMultiplier. */
  lemma NextChainBonus(chainCount: int, chainMultiplier: real)
    requires chainCount >= 1
    ensures ChainBonus(chainCount + 1, chainMultiplier) == chainMultiplier * ChainBonus(chainCount, chainMultiplier)
  {
    assert Pow(chainMultiplier, chainCount) == chainMultiplier * Pow(chainMultiplier, chainCount - 1);
    if chainCount == 1 {
      assert Pow(chainMultiplier, 0) == 1.0;
    }
  }

  /** Scaling by a non-negative factor keeps an order. */
  lemma ScaleMonotone(a: real, x: real, y: real)
    requires a >= 0.0 && x <= y
    ensures a * x <= a * y
  {
    assert a * y - a * x == a * (y - x);
  }

  /** A product of non-negative factors grows with its middle factor. */
  lemma ProductMonotone(a: real, x: real, y: real, k: real)
    requires a >= 0.0 && k >= 0.0 && 0.0 <= x <= y
    ensures 0.0 <= a * x * k <= a * y * k
  {
    ScaleMonotone(a, 0.0, x);
    ScaleMonotone(a, x, y);
    var u, w := a * x, a * y;
    ScaleMonotone(k, 0.0, u);
    ScaleMonotone(k, u, w);
    assert u * k == k * u && w * k == k * w;
  }

  /** With non-negative settings and inputs, chain damage is non-negative and grows with the cleared count. */
  lemma ChainDamageMonotone(chainCount: int, c1: int, c2: int, baseDamage: real, chainMultiplier: real)
    requires baseDamage >= 0.0 && chainMultiplier >= 0.0 && 0 <= c1 <= c2
    ensures 0 <= ChainDamage(chainCount, c1, baseDamage, chainMultiplier) <= ChainDamage(chainCount, c2, baseDamage, chainMultiplier)
  {
    var k := ChainBonus(chainCount, chainMultiplier);
    assert k >= 0.0;
    ProductMonotone(baseDamage, c1 as real, c2 as real, k);
    var d1 := UnroundedDamage(chainCount, c1, baseDamage, chainMultiplier);
    var d2 := UnroundedDamage(chainCount, c2, baseDamage, chainMultiplier);
    assert 0.0 <= d1 <= d2;
    RoundToIntNonNegative(d1);
    RoundToIntMonotone(d1, d2);
  }

  /** With a multiplier of at least 1, a longer chain never does less damage. */
  lemma ChainDamageGrowsWithChain(n1: int, n2: int, clearedPuyos: nat, baseDamage: real, chainMultiplier: real)
    requires 1 <= n1 <= n2 && baseDamage >= 0.0 && chainMultiplier >= 1.0
    ensures ChainDamage(n1, clearedPuyos, baseDamage, chainMultiplier) <= ChainDamage(n2, clearedPuyos, baseDamage, chainMultiplier)
  {
    var v := baseDamage * (clearedPuyos as real);
    ScaleMonotone(baseDamage, 0.0, clearedPuyos as real);
    var k1, k2 := ChainBonus(n1, chainMultiplier), ChainBonus(n2, chainMultiplier);
    ChainBonusMonotone(n1, n2, chainMultiplier);
    ScaleMonotone(v, k1, k2);
    var d1 := UnroundedDamage(n1, clearedPuyos, baseDamage, chainMultiplier);
    var d2 := UnroundedDamage(n2, clearedPuyos, baseDamage, chainMultiplier);
    assert d1 == v * k1 && d2 == v * k2;
    RoundToIntMonotone(d1, d2);
  }

  /** With a multiplier of at least 1, the chain bonus grows with the chain count. */
  lemma ChainBonusMonotone(n1: int, n2: int, chainMultiplier: real)
    requires 1 <= n1 <= n2 && chainMultiplier >= 1.0
    ensures ChainBonus(n1, chainMultiplier) <= ChainBonus(n2, chainMultiplier)
  {
    PowMonotone(chainMultiplier, n1 - 1, n2 - 1);
    if n1 == 1 {
      assert ChainBonus(n1, chainMultiplier) == 1.0;
      assert Pow(chainMultiplier, 0) == 1.0;
    }
  }

  lemma {:induction false} PowMonotone(b: real, i: nat, j: nat)
    requires b >= 1.0 && i <= j
    ensures Pow(b, i) <= Pow(b, j)
    decreases j
  {
    if i < j {
      PowMonotone(b, i, j - 1);
      var p := Pow(b, j - 1);
      assert Pow(b, j) == b * p;
      ScaleMonotone(p, 1.0, b);
      assert p * 1.0 == p && p * b == b * p;
    }
  }

  /** With the default settings (10 per cell, x1.5 per chain), a 4-cell clear does 40, 60 and 90 at chains 1, 2 and 3. */
  lemma DefaultChainDamage()
    ensures ChainDamage(1, 4, 10.0, 1.5) == 40
    ensures ChainDamage(2, 4, 10.0, 1.5) == 60
    ensures ChainDamage(3, 4, 10.0, 1.5) == 90
  {
    assert Pow(1.5, 1) == 1.5;
    assert Pow(1.5, 2) == 2.25;
  }

  // ---------------------------------------------------------------------
  // Colour bonus

  /** The bonus one colour earns by its count: 50 for 8 or more, 25 for 6-7, 10 for 4-5, else 0. */
  function PerColorBonus(n: int): (r: int)
    ensures r in {0, 10, 25, 50}
    ensures r > 0 <==> n >= 4
  {
    if n >= 8 then 50 else if n >= 6 then 25 else if n >= 4 then 10 else 0
  }

  /** The sum of the per-colour bonuses of counts. */
  function PerColorSum(counts: seq<int>): int {
    if |counts| == 0 then 0 else PerColorSum(counts[..|counts| - 1]) + PerColorBonus(counts[|counts| - 1])
  }

  /** The number of colours with a positive count. */
  function ColorsUsed(counts: seq<int>): int {
    if |counts| == 0 then 0 else ColorsUsed(counts[..|counts| - 1]) + (if counts[|counts| - 1] > 0 then 1 else 0)
  }

  /** The variety bonus: 100 for four or more colours, 50 for three, else 0. */
  function VarietyBonus(used: int): int {
    if used >= 4 then 100 else if used >= 3 then 50 else 0
  }

  /** CalculateColorBonus as a value: per-colour bonuses plus the variety bonus. */
  function ColorBonus(counts: seq<int>): int {
    PerColorSum(counts) + VarietyBonus(ColorsUsed(counts))
  }

  /** The accumulation loop of CalculateColorBonus over the count array. */
  method CalculateColorBonus(colorCounts: array<int>) returns (colorBonus: int)
    ensures colorBonus == ColorBonus(colorCounts[..])
  {
    colorBonus := 0;
    var colorsUsed := 0;
    for i := 0 to colorCounts.Length
      invariant colorBonus == PerColorSum(colorCounts[..i])
      invariant colorsUsed == ColorsUsed(colorCounts[..i])
    {
      assert colorCounts[..i + 1][..i] == colorCounts[..i];
      if colorCounts[i] > 0 {
        colorsUsed := colorsUsed + 1;
        if colorCounts[i] >= 8 {
          colorBonus := colorBonus + 50;
        } else if colorCounts[i] >= 6 {
          colorBonus := colorBonus + 25;
        } else if colorCounts[i] >= 4 {
          colorBonus := colorBonus + 10;
        }
      }
    }
    assert colorCounts[..colorCounts.Length] == colorCounts[..];
    if colorsUsed >= 4 {
      colorBonus := colorBonus + 100;
    } else if colorsUsed >= 3 {
      colorBonus := colorBonus + 50;
    }
  }

  /** Colours with no positive count add nothing: an all-zero array gives no bonus. */
  lemma {:induction false} ColorBonusNoColors(counts: seq<int>)
    requires forall i :: 0 <= i < |counts| ==> counts[i] <= 0
    ensures ColorsUsed(counts) == 0 && PerColorSum(counts) == 0 && ColorBonus(counts) == 0
  {
    if |counts| > 0 {
      ColorBonusNoColors(counts[..|counts| - 1]);
    }
  }

  /** Bounds: at most one used colour and at most 50 per entry, plus at most 100 for variety. */
  lemma {:induction false} ColorBonusBounds(counts: seq<int>)
    ensures 0 <= ColorsUsed(counts) <= |counts|
    ensures 0 <= PerColorSum(counts) <= 50 * |counts|
    ensures 0 <= ColorBonus(counts) <= 50 * |counts| + 100
  {
    if |counts| > 0 {
      ColorBonusBounds(counts[..|counts| - 1]);
    }
  }

  /** A colour that earns a per-colour bonus is a used colour: the per-colour sum is at most 50 per used colour. */
  lemma {:induction false} PerColorSumByUsed(counts: seq<int>)
    ensures PerColorSum(counts) <= 50 * ColorsUsed(counts)
  {
    if |counts| > 0 {
      PerColorSumByUsed(counts[..|counts| - 1]);
    }
  }

  // ---------------------------------------------------------------------
  // Speed bonus

  /** CalculateSpeedBonus: 50 within 1 second, 25 within 2, 10 within 3, then 0. */
  function SpeedBonus(timeToChain: real): (r: int)
    ensures r in {0, 10, 25, 50}
    ensures r == 50 <==> timeToChain <= 1.0
    ensures r == 0 <==> timeToChain > 3.0
  {
    if timeToChain <= 1.0 then 50
    else if timeToChain <= 2.0 then 25
    else if timeToChain <= 3.0 then 10
    else 0
  }

  /** A faster chain never earns a smaller speed bonus. */
  lemma SpeedBonusNonIncreasing(t1: real, t2: real)
    requires t1 <= t2
    ensures SpeedBonus(t1) >= SpeedBonus(t2)
  {
  }

  // ---------------------------------------------------------------------
  // The full result

  /** The ChainResult record. */
  datatype ChainResult = ChainResult(baseDamage: int, colorBonus: int, speedBonus: int, totalDamage: int,
                                     chainCount: int, clearedPuyos: int, chainTime: real)

  /** CalculateFullChainDamage: the three parts, their sum, and the inputs echoed back. */
  method CalculateFullChainDamage(chainCount: int, clearedPuyos: int, colorCounts: array<int>, chainTime: real,
                                  baseDamageSetting: real, chainMultiplier: real) returns (result: ChainResult)
    ensures result.baseDamage == ChainDamage(chainCount, clearedPuyos, baseDamageSetting, chainMultiplier)
    ensures result.colorBonus == ColorBonus(colorCounts[..])
    ensures result.speedBonus == SpeedBonus(chainTime)
    ensures result.totalDamage == result.baseDamage + result.colorBonus + result.speedBonus
    ensures result.chainCount == chainCount && result.clearedPuyos == clearedPuyos && result.chainTime == chainTime
    ensures baseDamageSetting >= 0.0 && chainMultiplier >= 0.0 && clearedPuyos >= 0 ==>
      result.baseDamage >= 0 && result.totalDamage >= 0
  {
    var baseDamage := ChainDamage(chainCount, clearedPuyos, baseDamageSetting, chainMultiplier);
    var colorBonus := CalculateColorBonus(colorCounts);
    var speedBonus := SpeedBonus(chainTime);
    var totalDamage := baseDamage + colorBonus + speedBonus;
    ColorBonusBounds(colorCounts[..]);
    if baseDamageSetting >= 0.0 && chainMultiplier >= 0.0 && clearedPuyos >= 0 {
      ChainDamageMonotone(chainCount, 0, clearedPuyos, baseDamageSetting, chainMultiplier);
    }
    result := ChainResult(baseDamage, colorBonus, speedBonus, totalDamage, chainCount, clearedPuyos, chainTime);
  }
}
