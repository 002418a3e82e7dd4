/**
 * Enemies and enemy groups in battle (src/battle/enemy.py): an enemy takes
 * damage reduced by guarding and by a defense buff, heals up to its
 * maximum, and can be stunned; a group keeps the list of living enemies
 * and the index of the one the player targets. Stat tables, the action AI,
 * attack timers and the per-frame effect countdown are not modelled.
 */
module PyEnemy {
  import opened Wrappers
  import opened HitPoints

  /** int(x) in Python: truncation toward zero. */
  function Trunc(x: real): (r: int)
    ensures x >= 0.0 ==> r as real <= x < r as real + 1.0
    ensures x < 0.0 ==> r as real - 1.0 < x <= r as real
  {
    if x >= 0.0 then x.Floor else -((-x).Floor)
  }

  /** guard_reduction. */
  const GuardReduction: real := 0.5

  /** damage_flash_duration. */
  const DamageFlashDuration: real := 0.3

  /** The value of the "defense_buff" entry of the buff table, if there is one. */
  function DefenseBuff(buffs: map<string, (int, real)>): Option<int> {
    if "defense_buff" in buffs then Some(buffs["defense_buff"].0) else None
  }

  /** int(v * f): an amount scaled by a factor and truncated. */
  function Scaled(v: int, f: real): int {
    Trunc(v as real * f)
  }

  /** The factor (1 - value / 100) a defense buff of that value leaves. */
  function BuffFactor(value: int): real {
    1.0 - value as real / 100.0
  }

  /**
   * The damage that reaches hp: truncated to (1 - guard_reduction) of it
   * when guarding, then truncated to (100 - v) percent of that with a
   * defense buff of value v.
   */
  function FinalDamage(damage: int, guarding: bool, defenseBuff: Option<int>): int {
    var guarded := if guarding then Scaled(damage, 1.0 - GuardReduction) else damage;
    if defenseBuff.Some? then Scaled(guarded, BuffFactor(defenseBuff.value)) else guarded
  }

  /**
   * For non-negative damage and a buff between 0 and 100 percent, the final
   * damage is between zero and the damage; guarding halves it (rounding
   * down) and the buff then applies to the halved amount.
   */
  lemma FinalDamageBounds(damage: int, guarding: bool, defenseBuff: Option<int>)
    requires damage >= 0
    requires defenseBuff.Some? ==> 0 <= defenseBuff.value <= 100
    ensures 0 <= FinalDamage(damage, guarding, defenseBuff) <= damage
    ensures FinalDamage(damage, true, defenseBuff) == FinalDamage(damage / 2, false, defenseBuff)
    ensures FinalDamage(damage, guarding, None) == if guarding then damage / 2 else damage
  {
    HalfTruncates(damage);
    if defenseBuff.Some? {
      BuffFactorWithin(defenseBuff.value);
      ScaledStaysWithin(damage / 2, BuffFactor(defenseBuff.value));
      ScaledStaysWithin(damage, BuffFactor(defenseBuff.value));
    }
  }

  lemma BuffFactorWithin(value: int)
    requires 0 <= value <= 100
    ensures 0.0 <= BuffFactor(value) <= 1.0
  {
  }

  lemma HalfTruncates(damage: int)
    requires damage >= 0
    ensures Scaled(damage, 1.0 - GuardReduction) == damage / 2
  {
    var x := damage as real * 0.5;
    var q := damage / 2;
    assert damage == 2 * q || damage == 2 * q + 1;
    assert q as real <= x < q as real + 1.0;
  }

  lemma ScaledStaysWithin(g: int, f: real)
    requires g >= 0 && 0.0 <= f <= 1.0
    ensures 0 <= Scaled(g, f) <= g
  {
    var x := g as real;
    MulNonNegative(x, f);
    MulNonNegative(x, 1.0 - f);
    assert x * f + x * (1.0 - f) == x;
  }

  lemma MulNonNegative(a: real, b: real)
    requires a >= 0.0 && b >= 0.0
    ensures a * b >= 0.0
  {
  }

  class Enemy {
    var maxHp: int
    var currentHp: int
    var isAlive: bool
    var isStunned: bool
    var stunDuration: real
    var isGuarding: bool
    var buffs: map<string, (int, real)>
    var damageFlashTimer: real

    /** A fresh enemy: alive at full hp, not stunned, not guarding, no buffs (maxHp comes from the stat tables). */
    constructor(maxHp: int)
      ensures this.maxHp == maxHp && currentHp == maxHp && isAlive
      ensures !isStunned && stunDuration == 0.0 && !isGuarding && buffs == map[] && damageFlashTimer == 0.0
    {
      this.maxHp := maxHp;
      currentHp := maxHp;
      isAlive := true;
      isStunned := false;
      stunDuration := 0.0;
      isGuarding := false;
      buffs := map[];
      damageFlashTimer := 0.0;
    }

    /**
     * take_damage: a defeated enemy refuses the hit and nothing changes;
     * otherwise hp drops by the final damage, stopping at zero, the damage
     * flash starts, and the result says whether hp reached zero, which also
     * marks the enemy as no longer alive.
     */
    method TakeDamage(damage: int) returns (defeated: bool)
      modifies this
      ensures !old(isAlive) ==> !defeated && unchanged(this)
      ensures old(isAlive) ==>
        var hit := FinalDamage(damage, old(isGuarding), DefenseBuff(old(buffs)));
        (defeated <==> old(currentHp) - hit <= 0) &&
        currentHp == Damaged(old(currentHp), hit) &&
        isAlive == !defeated &&
        damageFlashTimer == DamageFlashDuration
      ensures maxHp == old(maxHp) && isStunned == old(isStunned) && stunDuration == old(stunDuration)
      ensures isGuarding == old(isGuarding) && buffs == old(buffs)
    {
      if !isAlive {
        return false;
      }
      var finalDamage := damage;
      if isGuarding {
        finalDamage := Scaled(damage, 1.0 - GuardReduction);
      }
      if "defense_buff" in buffs {
        finalDamage := Scaled(finalDamage, BuffFactor(buffs["defense_buff"].0));
      }
      currentHp := currentHp - finalDamage;
      damageFlashTimer := DamageFlashDuration;
      if currentHp <= 0 {
        currentHp := 0;
        isAlive := false;
        return true;
      }
      return false;
    }

    /** apply_stun: stunned for the longer of the remaining and the new duration. */
    method ApplyStun(duration: real)
      modifies this
      ensures isStunned
      ensures stunDuration == (if old(stunDuration) >= duration then old(stunDuration) else duration)
      ensures stunDuration >= old(stunDuration) && stunDuration >= duration
      ensures maxHp == old(maxHp) && currentHp == old(currentHp) && isAlive == old(isAlive)
      ensures isGuarding == old(isGuarding) && buffs == old(buffs) && damageFlashTimer == old(damageFlashTimer)
    {
      isStunned := true;
      if duration > stunDuration {
        stunDuration := duration;
      }
    }

    /** apply_buff: the buff of that type is set to the value and duration, replacing any earlier one. */
    method ApplyBuff(buffType: string, value: int, duration: real)
      modifies this
      ensures buffs == old(buffs)[buffType := (value, duration)]
      ensures maxHp == old(maxHp) && currentHp == old(currentHp) && isAlive == old(isAlive)
      ensures isStunned == old(isStunned) && stunDuration == old(stunDuration)
      ensures isGuarding == old(isGuarding) && damageFlashTimer == old(damageFlashTimer)
    {
      buffs := buffs[buffType := (value, duration)];
    }

    /** heal: a living enemy gains hp up to its maximum; a defeated one is not healed. */
    method Heal(amount: int)
      modifies this
      ensures currentHp == if old(isAlive) then Healed(old(currentHp), amount, old(maxHp)) else old(currentHp)
      ensures maxHp == old(maxHp) && isAlive == old(isAlive) && isStunned == old(isStunned)
      ensures stunDuration == old(stunDuration) && isGuarding == old(isGuarding)
      ensures buffs == old(buffs) && damageFlashTimer == old(damageFlashTimer)
    {
      if !isAlive {
        return;
      }
      currentHp := if maxHp < currentHp + amount then maxHp else currentHp + amount;
    }
  }

  // ---------------------------------------------------------------------
  // Target selection
  // ---------------------------------------------------------------------

  /** select_next_target's index: one further, wrapping around, when more than one enemy is alive. */
  function NextIndex(i: int, n: int): (r: int)
    ensures n > 1 ==> 0 <= r < n
    ensures n <= 1 ==> r == i
  {
    if n > 1 then (i + 1) % n else i
  }

  /** select_previous_target's index: one back, wrapping around, when more than one enemy is alive. */
  function PreviousIndex(i: int, n: int): (r: int)
    ensures n > 1 ==> 0 <= r < n
    ensures n <= 1 ==> r == i
  {
    if n > 1 then (i - 1) % n else i
  }

  /** Moving to the next target and back, or back and then on, returns to an index in range. */
  lemma NextPreviousInverse(i: int, n: int)
    requires 0 <= i < n
    ensures PreviousIndex(NextIndex(i, n), n) == i
    ensures NextIndex(PreviousIndex(i, n), n) == i
  {
    if n > 1 {
      NextIndexInRange(i, n);
      PreviousIndexInRange(i, n);
      NextIndexInRange(PreviousIndex(i, n), n);
      PreviousIndexInRange(NextIndex(i, n), n);
    }
  }

  /** Inside the range, the next index is one further, or 0 after the last. */
  lemma NextIndexInRange(i: int, n: int)
    requires 0 <= i < n && n > 1
    ensures NextIndex(i, n) == if i + 1 < n then i + 1 else 0
  {
    if i + 1 < n {
      ModUnique(i + 1, n, 0, i + 1);
    } else {
      ModUnique(i + 1, n, 1, 0);
    }
  }

  /** Inside the range, the previous index is one back, or the last before 0. */
  lemma PreviousIndexInRange(i: int, n: int)
    requires 0 <= i < n && n > 1
    ensures PreviousIndex(i, n) == if i > 0 then i - 1 else n - 1
  {
    if i > 0 {
      ModUnique(i - 1, n, 0, i - 1);
    } else {
      ModUnique(i - 1, n, -1, n - 1);
    }
  }

  /** The index after k steps forward from i. */
  function StepForward(i: int, n: int, k: nat): int {
    if k == 0 then i else NextIndex(StepForward(i, n, k - 1), n)
  }

  /** Stepping forward k times from index 0 reaches k mod n: the targets are visited in order, round and round. */
  lemma {:induction false} StepForwardCycles(n: int, k: nat)
    requires n > 1
    ensures StepForward(0, n, k) == k % n
  {
    if k == 0 {
      ModUnique(0, n, 0, 0);
    } else {
      StepForwardCycles(n, k - 1);
      NextIndexOfMod(k - 1, n);
    }
  }

  /** One step forward from a mod n reaches (a + 1) mod n. */
  lemma NextIndexOfMod(a: int, n: int)
    requires n > 1
    ensures NextIndex(a % n, n) == (a + 1) % n
  {
    var q, p := a / n, a % n;
    assert a == q * n + p;
    if p + 1 < n {
      ModUnique(a + 1, n, q, p + 1);
      ModUnique(p + 1, n, 0, p + 1);
    } else {
      assert (q + 1) * n == q * n + n;
      ModUnique(a + 1, n, q + 1, 0);
      ModUnique(p + 1, n, 1, 0);
    }
  }

  /** Euclidean division is unique: a == q * n + r with 0 <= r < n fixes a % n and a / n. */
  lemma ModUnique(a: int, n: int, q: int, r: int)
    requires n > 0 && 0 <= r < n && a == q * n + r
    ensures a % n == r && a / n == q
  {
    var q2, r2 := a / n, a % n;
    assert a == q2 * n + r2 && 0 <= r2 < n;
    assert (q - q2) * n == r2 - r;
    if q2 < q {
      MulAtLeast(q - q2, n);
    } else if q2 > q {
      MulAtLeast(q2 - q, n);
    }
  }

  lemma MulAtLeast(d: int, n: int)
    requires d >= 1 && n > 0
    ensures d * n >= n
  {
  }

  /** The enemies of es that are alive, in order (the list comprehension of update). */
  function AliveOf(es: seq<Enemy>): (r: seq<Enemy>)
    reads es
    ensures |r| <= |es|
    ensures forall e :: e in r ==> e in es && e.isAlive
    ensures forall e :: e in es && e.isAlive ==> e in r
  {
    if |es| == 0 then []
    else AliveOf(es[..|es| - 1]) + (if es[|es| - 1].isAlive then [es[|es| - 1]] else [])
  }

  class EnemyGroup {
    var enemies: seq<Enemy>
    var aliveEnemies: seq<Enemy>
    var selectedTargetIndex: int

    /** A new group: every enemy counted as alive, the first one targeted. */
    constructor(enemies: seq<Enemy>)
      ensures this.enemies == enemies && aliveEnemies == enemies && selectedTargetIndex == 0
    {
      this.enemies := enemies;
      aliveEnemies := enemies;
      selectedTargetIndex := 0;
    }

    /**
     * The bookkeeping part of update: the living enemies are recounted and
     * a target index past their end is reset to 0.
     */
    method RefreshTargets()
      modifies this
      ensures enemies == old(enemies)
      ensures aliveEnemies == AliveOf(enemies)
      ensures selectedTargetIndex == if old(selectedTargetIndex) >= |aliveEnemies| then 0 else old(selectedTargetIndex)
    {
      aliveEnemies := AliveOf(enemies);
      if selectedTargetIndex >= |aliveEnemies| {
        selectedTargetIndex := 0;
      }
    }

    /** get_selected_target: the targeted living enemy, or None when the index is out of range. */
    function SelectedTarget(): (r: Option<Enemy>)
      reads this
      ensures r.Some? <==> 0 <= selectedTargetIndex < |aliveEnemies|
      ensures r.Some? ==> r.value == aliveEnemies[selectedTargetIndex]
    {
      if 0 <= selectedTargetIndex < |aliveEnemies| then Some(aliveEnemies[selectedTargetIndex]) else None
    }

    /** select_next_target. */
    method SelectNextTarget()
      modifies this
      ensures selectedTargetIndex == NextIndex(old(selectedTargetIndex), |aliveEnemies|)
      ensures enemies == old(enemies) && aliveEnemies == old(aliveEnemies)
    {
      if |aliveEnemies| > 1 {
        selectedTargetIndex := (selectedTargetIndex + 1) % |aliveEnemies|;
      }
    }

    /** select_previous_target. */
    method SelectPreviousTarget()
      modifies this
      ensures selectedTargetIndex == PreviousIndex(old(selectedTargetIndex), |aliveEnemies|)
      ensures enemies == old(enemies) && aliveEnemies == old(aliveEnemies)
    {
      if |aliveEnemies| > 1 {
        selectedTargetIndex := (selectedTargetIndex - 1) % |aliveEnemies|;
      }
    }

    /** is_all_defeated: no enemy is counted as alive. */
    predicate IsAllDefeated()
      reads this
    {
      |aliveEnemies| == 0
    }
  }

  /** After a refresh there is a target exactly when some enemy is alive, and it is a living enemy. */
  lemma RefreshedTargetExists(es: seq<Enemy>, index: int)
    requires index >= 0
    ensures var alive := AliveOf(es);
      var i := if index >= |alive| then 0 else index;
      (0 <= i < |alive| <==> exists e :: e in es && e.isAlive) &&
      (0 <= i < |alive| ==> alive[i] in es && alive[i].isAlive)
  {
    var alive := AliveOf(es);
    if exists e :: e in es && e.isAlive {
      var e :| e in es && e.isAlive;
      assert e in alive;
    }
    if |alive| > 0 {
      assert alive[0] in alive;
    }
  }
}
