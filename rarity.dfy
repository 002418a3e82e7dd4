/**
 * The rarity scale shared by potions and artifacts (src/core/constants.py):
 * five grades numbered 1 to 5.
 */
module GameRarity {
  datatype Rarity = Common | Uncommon | Rare | Epic | Legendary

  /** The enum's value: COMMON = 1 up to LEGENDARY = 5. */
  function Value(r: Rarity): (v: int)
    ensures 1 <= v <= 5
    ensures v == 1 <==> r == Common
    ensures v == 5 <==> r == Legendary
  {
    match r
    case Common => 1
    case Uncommon => 2
    case Rare => 3
    case Epic => 4
    case Legendary => 5
  }

  /** Distinct grades have distinct values, so comparing values orders the grades. */
  lemma ValueInjective(a: Rarity, b: Rarity)
    ensures Value(a) == Value(b) <==> a == b
  {
  }
}
