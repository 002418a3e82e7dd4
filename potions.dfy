/**
 * Potions (src/items/potions.py): single-use consumables whose effect
 * depends on their type and rarity, held in a small inventory of at most
 * max_potions slots. Names, descriptions, colours, icons and the random
 * potion factory are not modelled.
 */
module PyPotions {
  import opened Wrappers
  import opened GameRarity

  datatype PotionType =
    | Health | Energy | Strength | Defense | Speed | ChainPower
    | ColorFocus | SpecialBoost | FreezeTime | Poison | Explosive | Rainbow

  /** PotionEffect without its description: what the potion does, how strongly, for how long (0 is instant). */
  datatype PotionEffect = PotionEffect(effectType: string, value: real, duration: real)

  /** The effect multiplier of each rarity, growing with the grade. */
  function RarityMultiplier(r: Rarity): (m: real)
    ensures 1.0 <= m <= 2.5
  {
    match r
    case Common => 1.0
    case Uncommon => 1.3
    case Rare => 1.6
    case Epic => 2.0
    case Legendary => 2.5
  }

  /** A higher grade never has a smaller multiplier. */
  lemma RarityMultiplierMonotone(a: Rarity, b: Rarity)
    requires Value(a) <= Value(b)
    ensures RarityMultiplier(a) <= RarityMultiplier(b)
  {
  }

  /** _get_effect: the base effect of each type scaled by the rarity multiplier. */
  function EffectOf(t: PotionType, r: Rarity): PotionEffect {
    var m := RarityMultiplier(r);
    match t
    case Health => PotionEffect("heal", 30.0 * m, 0.0)
    case Energy => PotionEffect("energy_gain", 2.0 * m, 0.0)
    case Strength => PotionEffect("damage_boost", 25.0 * m, 30.0)
    case Defense => PotionEffect("damage_reduction", 20.0 * m, 30.0)
    case Speed => PotionEffect("puyo_speed_boost", 50.0 * m, 20.0)
    case ChainPower => PotionEffect("chain_damage_boost", 30.0 * m, 25.0)
    case ColorFocus => PotionEffect("color_reduction", if m < 2.0 then 1.0 else 2.0, 15.0)
    case SpecialBoost => PotionEffect("special_puyo_rate_boost", 200.0 * m, 20.0)
    case FreezeTime => PotionEffect("freeze_enemy", 3.0 * m, 0.0)
    case Poison => PotionEffect("poison_enemy", 8.0 * m, 15.0)
    case Explosive => PotionEffect("direct_damage", 40.0 * m, 0.0)
    case Rainbow => PotionEffect("spawn_rainbow_puyo", 2.0 + m.Floor as real, 0.0)
  }

  /**
   * Every potion has a positive effect, its kind and duration depend on the
   * type alone, and a rarer potion of the same type is never weaker.
   */
  lemma EffectGrowsWithRarity(t: PotionType, a: Rarity, b: Rarity)
    requires Value(a) <= Value(b)
    ensures EffectOf(t, a).value > 0.0
    ensures EffectOf(t, a).effectType == EffectOf(t, b).effectType
    ensures EffectOf(t, a).duration == EffectOf(t, b).duration
    ensures EffectOf(t, a).value <= EffectOf(t, b).value
  {
    RarityMultiplierMonotone(a, b);
  }

  class Potion {
    const potionType: PotionType
    const rarity: Rarity
    const effect: PotionEffect
    var used: bool

    /** A new, unused potion carrying the effect of its type and rarity. */
    constructor(potionType: PotionType, rarity: Rarity)
      ensures this.potionType == potionType && this.rarity == rarity
      ensures effect == EffectOf(potionType, rarity) && !used
    {
      this.potionType := potionType;
      this.rarity := rarity;
      effect := EffectOf(potionType, rarity);
      used := false;
    }

    /**
     * use: the first call marks the potion used and yields its effect;
     * every later call yields nothing.
     */
    method Use() returns (result: Option<PotionEffect>)
      modifies this
      ensures used
      ensures old(used) ==> result == None
      ensures !old(used) ==> result == Some(effect)
    {
      if used {
        return None;
      }
      used := true;
      return Some(effect);
    }
  }

  /** The list s with its i-th element popped. */
  function Popped<T>(s: seq<T>, i: int): (r: seq<T>)
    requires 0 <= i < |s|
    ensures |r| == |s| - 1
    ensures forall j :: 0 <= j < i ==> r[j] == s[j]
    ensures forall j :: i <= j < |r| ==> r[j] == s[j + 1]
  {
    s[..i] + s[i + 1..]
  }

  /** Popping loses exactly the popped element: the rest are kept with their multiplicities. */
  lemma PoppedIsPermutation<T>(s: seq<T>, i: int)
    requires 0 <= i < |s|
    ensures multiset(Popped(s, i)) + multiset{s[i]} == multiset(s)
  {
    assert s == s[..i] + [s[i]] + s[i + 1..];
  }

  class PotionInventory {
    const maxPotions: int
    var potions: seq<Potion>

    /** The inventory never holds more than its capacity. */
    predicate Valid()
      reads this
    {
      |potions| <= maxPotions
    }

    /** An empty inventory with the given capacity (3 by default). */
    constructor(maxPotions: int)
      ensures this.maxPotions == maxPotions && potions == []
      ensures maxPotions >= 0 ==> Valid()
    {
      this.maxPotions := maxPotions;
      potions := [];
    }

    /** is_full. */
    predicate IsFull()
      reads this
    {
      |potions| >= maxPotions
    }

    /**
     * add_potion: a full inventory refuses the potion and is unchanged;
     * otherwise the potion is appended.
     */
    method AddPotion(potion: Potion) returns (ok: bool)
      modifies this
      ensures ok <==> !old(IsFull())
      ensures ok ==> potions == old(potions) + [potion]
      ensures !ok ==> potions == old(potions)
      ensures old(Valid()) ==> Valid()
    {
      if |potions| >= maxPotions {
        return false;
      }
      potions := potions + [potion];
      return true;
    }

    /**
     * use_potion: for a valid index the potion there is used; when that
     * yields an effect the potion is popped, and a potion that was already
     * used stays in place. An invalid index yields nothing and changes nothing.
     */
    method UsePotion(index: int) returns (result: Option<PotionEffect>)
      modifies this, potions
      ensures !(0 <= index < |old(potions)|) ==> result == None && potions == old(potions) && unchanged(old(potions))
      ensures 0 <= index < |old(potions)| ==>
        var p := old(potions)[index];
        p.used &&
        (old(p.used) ==> result == None && potions == old(potions)) &&
        (!old(p.used) ==> result == Some(p.effect) && potions == Popped(old(potions), index))
      ensures forall q :: q in old(potions) && (0 <= index < |old(potions)| ==> q != old(potions)[index]) ==> q.used == old(q.used)
      ensures old(Valid()) ==> Valid()
    {
      if 0 <= index < |potions| {
        var potion := potions[index];
        result := potion.Use();
        if result.Some? {
          potions := Popped(potions, index);
        }
        return;
      }
      return None;
    }

    /** remove_potion: for a valid index the potion there is popped; otherwise nothing changes. */
    method RemovePotion(index: int) returns (ok: bool)
      modifies this
      ensures ok <==> 0 <= index < |old(potions)|
      ensures ok ==> potions == Popped(old(potions), index)
      ensures !ok ==> potions == old(potions)
      ensures old(Valid()) ==> Valid()
    {
      if 0 <= index < |potions| {
        potions := Popped(potions, index);
        return true;
      }
      return false;
    }
  }
}
