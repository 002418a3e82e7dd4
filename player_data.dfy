/**
 * The player's persistent state (src/core/player_data.py): hit points,
 * gold, the chain count used by the damage formula, and the run's
 * statistics. Skills, buffs, the inventory object, special-puyo rates and
 * saving and loading are not modelled.
 */
module PyPlayer {
  import opened HitPoints

  /** PLAYER_MAX_HP and PLAYER_INITIAL_HP. */
  const PlayerMaxHp: int := 100
  const PlayerInitialHp: int := 100

  /** The gold a new player starts with. */
  const InitialGold: int := 50

  /** PlayerStats: the counters of one run. */
  datatype PlayerStats = PlayerStats(
    totalBattles: int,
    battlesWon: int,
    battlesLost: int,
    totalDamageDealt: int,
    totalChainsMade: int,
    highestChain: int,
    floorsCleared: int,
    roomsVisited: int,
    eliteBattles: int,
    bossBattles: int,
    totalGoldEarned: int,
    totalGoldSpent: int,
    itemsPurchased: int,
    eventsEncountered: int,
    restSitesUsed: int,
    treasuresFound: int)

  /** Every counter at zero. */
  const NoStats: PlayerStats := PlayerStats(0, 0, 0, 0, 0, 0, 0, 0, 0, 0, 0, 0, 0, 0, 0, 0)

  /** get_win_rate: battles won as a percentage of all battles, 0 before the first. */
  function WinRate(s: PlayerStats): (r: real)
    ensures s.totalBattles == 0 ==> r == 0.0
    ensures s.totalBattles != 0 ==> r * (s.totalBattles as real) == (s.battlesWon as real) * 100.0
  {
    if s.totalBattles == 0 then 0.0 else s.battlesWon as real / s.totalBattles as real * 100.0
  }

  /** A win rate is a percentage when no more battles are won than fought. */
  lemma WinRateIsPercentage(s: PlayerStats)
    requires 0 <= s.battlesWon <= s.totalBattles
    ensures 0.0 <= WinRate(s) <= 100.0
    ensures WinRate(s) == 100.0 <==> s.totalBattles > 0 && s.battlesWon == s.totalBattles
  {
    if s.totalBattles > 0 {
      var t := s.totalBattles as real;
      var w := s.battlesWon as real;
      var r := WinRate(s);
      assert r * t == w * 100.0;
      assert 0.0 <= w <= t;
      CancelPositive(0.0, r, t);
      CancelPositive(r, 100.0, t);
      if s.battlesWon == s.totalBattles {
        CancelPositive(100.0, r, t);
      }
    }
  }

  /** Dividing both sides of an inequality by a positive factor. */
  lemma CancelPositive(a: real, b: real, t: real)
    requires t > 0.0 && a * t <= b * t
    ensures a <= b
  {
  }

  /**
   * The statistics after update_combat_stats: one more battle, its damage
   * and chains added, the highest chain kept as a running maximum, and one
   * more win or one more loss.
   */
  function CombatRecorded(s: PlayerStats, damageDealt: int, chainsMade: int, won: bool): (r: PlayerStats)
    ensures r.totalBattles == s.totalBattles + 1
    ensures r.highestChain >= s.highestChain && r.highestChain >= chainsMade
    ensures r.highestChain == s.highestChain || r.highestChain == chainsMade
    ensures r.battlesWon + r.battlesLost == s.battlesWon + s.battlesLost + 1
    ensures won <==> r.battlesWon == s.battlesWon + 1
  {
    s.(totalBattles := s.totalBattles + 1,
       totalDamageDealt := s.totalDamageDealt + damageDealt,
       totalChainsMade := s.totalChainsMade + chainsMade,
       highestChain := if chainsMade > s.highestChain then chainsMade else s.highestChain,
       battlesWon := if won then s.battlesWon + 1 else s.battlesWon,
       battlesLost := if won then s.battlesLost else s.battlesLost + 1)
  }

  /** The statistics after take_damage brings hp to zero: one more loss, nothing else. */
  function DeathRecorded(s: PlayerStats): (r: PlayerStats)
    ensures r.battlesLost == s.battlesLost + 1
    ensures r.totalBattles == s.totalBattles && r.battlesWon == s.battlesWon
  {
    s.(battlesLost := s.battlesLost + 1)
  }

  /** Every battle fought is counted as exactly one win or one loss. */
  predicate Balanced(s: PlayerStats) {
    0 <= s.battlesWon && 0 <= s.battlesLost && s.battlesWon + s.battlesLost == s.totalBattles
  }

  /**
   * Recording a battle keeps the win and loss counts balanced against the
   * battles fought; a death recorded by take_damage does not, since it
   * counts a loss without a battle.
   */
  lemma CombatKeepsBalance(s: PlayerStats, damageDealt: int, chainsMade: int, won: bool)
    ensures Balanced(s) ==> Balanced(CombatRecorded(s, damageDealt, chainsMade, won))
    ensures Balanced(s) ==> !Balanced(DeathRecorded(s))
  {
  }

  /** A sequence of update_combat_stats calls, each (damage, chains, won). */
  function AllRecorded(s: PlayerStats, battles: seq<(int, int, bool)>): PlayerStats
    decreases |battles|
  {
    if |battles| == 0 then s
    else
      var b := battles[|battles| - 1];
      CombatRecorded(AllRecorded(s, battles[..|battles| - 1]), b.0, b.1, b.2)
  }

  /**
   * After any number of battles the battle count has grown by their number
   * and the highest chain is the maximum of the starting value and every
   * battle's chains, attained by one of them.
   */
  lemma {:induction false} HighestChainIsRunningMax(s: PlayerStats, battles: seq<(int, int, bool)>)
    ensures AllRecorded(s, battles).totalBattles == s.totalBattles + |battles|
    ensures AllRecorded(s, battles).highestChain >= s.highestChain
    ensures forall i :: 0 <= i < |battles| ==> AllRecorded(s, battles).highestChain >= battles[i].1
    ensures AllRecorded(s, battles).highestChain == s.highestChain ||
            exists i :: 0 <= i < |battles| && AllRecorded(s, battles).highestChain == battles[i].1
    decreases |battles|
  {
    if |battles| > 0 {
      var front := battles[..|battles| - 1];
      HighestChainIsRunningMax(s, front);
      var r := AllRecorded(s, battles);
      var b := battles[|battles| - 1];
      assert r == CombatRecorded(AllRecorded(s, front), b.0, b.1, b.2);
      forall i | 0 <= i < |battles|
        ensures r.highestChain >= battles[i].1
      {
        if i < |front| {
          assert battles[i] == front[i];
        }
      }
      if r.highestChain != s.highestChain {
        if r.highestChain == b.1 {
          assert battles[|battles| - 1].1 == r.highestChain;
        } else {
          var i :| 0 <= i < |front| && AllRecorded(s, front).highestChain == front[i].1;
          assert battles[i] == front[i];
        }
      }
    }
  }

  class PlayerData {
    var hp: int
    var maxHp: int
    var gold: int
    var currentChainCount: int
    var stats: PlayerStats

    /** A sound player: hp within [0, max_hp], no debt, and a chain count of at least one. */
    predicate Valid()
      reads this
    {
      0 <= hp <= maxHp && gold >= 0 && currentChainCount >= 1
    }

    /** A new player: full hp, 50 gold, chain count 1, and no statistics yet. */
    constructor()
      ensures hp == PlayerInitialHp && maxHp == PlayerMaxHp && gold == InitialGold
      ensures currentChainCount == 1 && stats == NoStats
      ensures Valid()
    {
      hp := PlayerInitialHp;
      maxHp := PlayerMaxHp;
      gold := InitialGold;
      currentChainCount := 1;
      stats := NoStats;
    }

    /**
     * heal: hp rises by the amount but not past max_hp, and the result is
     * the hp actually gained, which is zero at full health.
     */
    method Heal(amount: int) returns (healed: int)
      modifies this
      ensures hp == Healed(old(hp), amount, maxHp)
      ensures healed == hp - old(hp)
      ensures old(Valid()) && amount >= 0 ==> Valid() && 0 <= healed <= amount
      ensures old(hp) == maxHp && amount >= 0 ==> healed == 0
      ensures maxHp == old(maxHp) && gold == old(gold)
      ensures currentChainCount == old(currentChainCount) && stats == old(stats)
    {
      var oldHp := hp;
      hp := if hp + amount < maxHp then hp + amount else maxHp;
      healed := hp - oldHp;
    }

    /** set_chain_count: the count used for damage, never below one. */
    method SetChainCount(chainCount: int)
      modifies this
      ensures currentChainCount >= 1
      ensures chainCount >= 1 ==> currentChainCount == chainCount
      ensures chainCount < 1 ==> currentChainCount == 1
      ensures hp == old(hp) && maxHp == old(maxHp) && gold == old(gold) && stats == old(stats)
      ensures old(Valid()) ==> Valid()
    {
      currentChainCount := if chainCount > 1 then chainCount else 1;
    }

    /** reset_chain_count. */
    method ResetChainCount()
      modifies this
      ensures currentChainCount == 1
      ensures hp == old(hp) && maxHp == old(maxHp) && gold == old(gold) && stats == old(stats)
    {
      currentChainCount := 1;
    }

    /**
     * take_damage: hp drops by the damage but not below zero; the result is
     * false, and one more loss is counted, exactly when hp is then zero.
     */
    method TakeDamage(damage: int) returns (alive: bool)
      modifies this
      ensures hp == Damaged(old(hp), damage)
      ensures alive <==> hp > 0
      ensures alive ==> stats == old(stats)
      ensures !alive ==> stats == DeathRecorded(old(stats))
      ensures old(Valid()) && damage >= 0 ==> Valid()
      ensures maxHp == old(maxHp) && gold == old(gold) && currentChainCount == old(currentChainCount)
    {
      hp := if hp - damage > 0 then hp - damage else 0;
      if hp <= 0 {
        stats := stats.(battlesLost := stats.battlesLost + 1);
        return false;
      }
      return true;
    }

    /**
     * spend_gold: succeeds exactly when the player has at least the amount,
     * then deducts it and counts it as spent; otherwise nothing changes.
     */
    method SpendGold(amount: int) returns (ok: bool)
      modifies this
      ensures ok <==> old(gold) >= amount
      ensures ok ==> gold == old(gold) - amount &&
                     stats == old(stats).(totalGoldSpent := old(stats).totalGoldSpent + amount)
      ensures !ok ==> gold == old(gold) && stats == old(stats)
      ensures old(Valid()) && amount >= 0 ==> Valid()
      ensures hp == old(hp) && maxHp == old(maxHp) && currentChainCount == old(currentChainCount)
    {
      if gold >= amount {
        gold := gold - amount;
        stats := stats.(totalGoldSpent := stats.totalGoldSpent + amount);
        return true;
      }
      return false;
    }

    /** update_combat_stats: records one battle in the statistics and changes nothing else. */
    method UpdateCombatStats(damageDealt: int, chainsMade: int, won: bool)
      modifies this
      ensures stats == CombatRecorded(old(stats), damageDealt, chainsMade, won)
      ensures hp == old(hp) && maxHp == old(maxHp) && gold == old(gold)
      ensures currentChainCount == old(currentChainCount)
    {
      stats := stats.(totalBattles := stats.totalBattles + 1);
      stats := stats.(totalDamageDealt := stats.totalDamageDealt + damageDealt);
      stats := stats.(totalChainsMade := stats.totalChainsMade + chainsMade);
      stats := stats.(highestChain := if stats.highestChain > chainsMade then stats.highestChain else chainsMade);
      if won {
        stats := stats.(battlesWon := stats.battlesWon + 1);
      } else {
        stats := stats.(battlesLost := stats.battlesLost + 1);
      }
    }
  }
}
