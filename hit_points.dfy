/**
 * The hit-point arithmetic shared by the player (src/core/player_data.py)
 * and the enemies (src/battle/enemy.py): healing is capped at the maximum,
 * damage stops at zero.
 */
module HitPoints {
  /** min(hp + amount, maxHp). */
  function Healed(hp: int, amount: int, maxHp: int): (r: int)
    ensures r <= maxHp && r <= hp + amount
    ensures r == hp + amount || r == maxHp
    ensures hp <= maxHp && amount >= 0 ==> hp <= r
  {
    if hp + amount < maxHp then hp + amount else maxHp
  }

  /** max(0, hp - damage): taking damage never leaves a negative hp. */
  function Damaged(hp: int, damage: int): (r: int)
    ensures r >= 0
    ensures r == hp - damage || r == 0
    ensures damage >= 0 && hp >= 0 ==> r <= hp
  {
    if hp - damage > 0 then hp - damage else 0
  }

  /** Healing a non-negative amount twice is the same as healing the sum once. */
  lemma HealedTwice(hp: int, a: int, b: int, maxHp: int)
    requires a >= 0 && b >= 0
    ensures Healed(Healed(hp, a, maxHp), b, maxHp) == Healed(hp, a + b, maxHp)
  {
  }

  /** At full health a heal of any non-negative amount changes nothing. */
  lemma HealedAtFull(maxHp: int, amount: int)
    requires amount >= 0
    ensures Healed(maxHp, amount, maxHp) == maxHp
  {
  }

  /** Two hits of non-negative damage leave what one hit of their sum leaves. */
  lemma DamagedTwice(hp: int, a: int, b: int)
    requires a >= 0 && b >= 0
    ensures Damaged(Damaged(hp, a), b) == Damaged(hp, a + b)
  {
  }

  /** Damage of at least the current hp leaves zero, and less than that leaves hp - damage. */
  lemma DamagedKills(hp: int, damage: int)
    ensures Damaged(hp, damage) == 0 <==> damage >= hp
    ensures damage < hp ==> Damaged(hp, damage) == hp - damage
  {
  }
}
