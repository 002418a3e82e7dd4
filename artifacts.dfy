/**
 * Artifacts (src/items/artifacts.py): permanent equipment with effects that
 * fire on a trigger, some of them limited by charges, kept in a collection
 * that holds at most one artifact of each type. Names, descriptions,
 * colours, icons, cooldowns and the random artifact factory are not
 * modelled.
 */
module PyArtifacts {
  import opened Wrappers
  import opened GameRarity

  datatype ArtifactType =
    | PowerRing | DefenseAmulet | VampireFang | BerserkerMask
    | SpeedBoots | ChainCrown | ColorLens | LuckyCharm | RainbowCrystal
    | HealingPendant | EnergyCrystal | PotionBelt | TreasureMap
    | PhoenixFeather | TimeShard | CurseShield | DoubleStrike

  /** ArtifactEffect without its description: what it does, how strongly, and on which trigger. */
  datatype ArtifactEffect = ArtifactEffect(effectType: string, value: real, trigger: string)

  /** The effect multiplier of each rarity (common falls back to 1.0). */
  function RarityMultiplier(r: Rarity): (m: real)
    ensures 1.0 <= m <= 2.5
  {
    match r
    case Common => 1.0
    case Uncommon => 1.0
    case Rare => 1.4
    case Epic => 1.8
    case Legendary => 2.5
  }

  /** _get_effects: every type has exactly one effect, scaled by the rarity multiplier. */
  function EffectsOf(t: ArtifactType, r: Rarity): seq<ArtifactEffect> {
    var m := RarityMultiplier(r);
    match t
    case PowerRing => [ArtifactEffect("damage_boost", 15.0 * m, "passive")]
    case DefenseAmulet => [ArtifactEffect("damage_reduction", 12.0 * m, "passive")]
    case VampireFang => [ArtifactEffect("lifesteal", 20.0 * m, "on_damage")]
    case BerserkerMask => [ArtifactEffect("low_hp_damage_boost", 2.0 * m, "passive")]
    case SpeedBoots => [ArtifactEffect("puyo_speed_boost", 30.0 * m, "passive")]
    case ChainCrown => [ArtifactEffect("chain_damage_boost", 25.0 * m, "passive")]
    case ColorLens => [ArtifactEffect("color_reduction", if m < 2.0 then 1.0 else 2.0, "passive")]
    case LuckyCharm => [ArtifactEffect("special_puyo_rate_boost", 100.0 * m, "passive")]
    case RainbowCrystal => [ArtifactEffect("rainbow_puyo_spawn", 1.0, "periodic")]
    case HealingPendant => [ArtifactEffect("battle_victory_heal", 20.0 * m, "battle_end")]
    case EnergyCrystal => [ArtifactEffect("max_energy_boost", 1.0 + (m / 2.0).Floor as real, "passive")]
    case PotionBelt => [ArtifactEffect("potion_capacity_boost", 1.0 + (m / 2.0).Floor as real, "passive")]
    case TreasureMap => [ArtifactEffect("reward_boost", 30.0 * m, "passive")]
    case PhoenixFeather => [ArtifactEffect("revive", 50.0 * m, "on_death")]
    case TimeShard => [ArtifactEffect("enemy_speed_reduction", 20.0 * m, "passive")]
    case CurseShield => [ArtifactEffect("debuff_immunity", (2.0 * m).Floor as real, "on_debuff")]
    case DoubleStrike => [ArtifactEffect("chain_double_trigger", 1.0, "on_chain")]
  }

  /**
   * _get_max_charges: the phoenix feather has one charge, the curse shield
   * int(2 * (1 + rarity * 0.5)), every other artifact none.
   */
  function MaxCharges(t: ArtifactType, r: Rarity): int {
    match t
    case PhoenixFeather => 1
    case CurseShield => (2.0 * (1.0 + Value(r) as real * 0.5)).Floor
    case _ => 0
  }

  /**
   * Exactly the phoenix feather and the curse shield are charged; the curse
   * shield has 2 + rarity charges, more than the debuff count its own
   * effect value (int(2 * multiplier)) announces.
   */
  lemma MaxChargesTable(t: ArtifactType, r: Rarity)
    ensures MaxCharges(t, r) >= 0
    ensures MaxCharges(t, r) > 0 <==> t == PhoenixFeather || t == CurseShield
    ensures t == CurseShield ==> MaxCharges(t, r) == 2 + Value(r)
    ensures t == CurseShield ==> MaxCharges(t, r) as real > EffectsOf(t, r)[0].value
  {
    if t == CurseShield {
      var v := Value(r);
      assert 2.0 * (1.0 + v as real * 0.5) == (2 + v) as real;
    }
  }

  /** Whether an effect fires on a trigger: its own trigger or any trigger when passive. */
  predicate Fires(e: ArtifactEffect, triggerType: string) {
    e.trigger == triggerType || e.trigger == "passive"
  }

  /** The effects of es that fire on the trigger, in order. */
  function Firing(es: seq<ArtifactEffect>, triggerType: string): (r: seq<ArtifactEffect>)
    ensures |r| <= |es|
    ensures forall e :: e in r ==> e in es && Fires(e, triggerType)
    decreases |es|
  {
    if |es| == 0 then []
    else
      var e := es[|es| - 1];
      Firing(es[..|es| - 1], triggerType) + (if Fires(e, triggerType) then [e] else [])
  }

  /** What trigger_effect has produced so far: the effects fired, the charges left, whether still active. */
  datatype TriggerState = TriggerState(results: seq<ArtifactEffect>, charges: int, active: bool)

  /**
   * One turn of trigger_effect's loop: a firing effect of an uncharged
   * artifact is always produced; a charged artifact produces it only
   * while it has charges, spends one, and deactivates at zero.
   */
  function TriggerStep(s: TriggerState, e: ArtifactEffect, triggerType: string, maxCharges: int): TriggerState {
    if !Fires(e, triggerType) then s
    else if maxCharges > 0 then
      if s.charges <= 0 then s
      else TriggerState(s.results + [e], s.charges - 1, if s.charges - 1 <= 0 then false else s.active)
    else TriggerState(s.results + [e], s.charges, s.active)
  }

  /** trigger_effect's loop over the effects es, from the state s. */
  function Triggered(es: seq<ArtifactEffect>, triggerType: string, maxCharges: int, s: TriggerState): TriggerState
    decreases |es|
  {
    if |es| == 0 then s
    else TriggerStep(Triggered(es[..|es| - 1], triggerType, maxCharges, s), es[|es| - 1], triggerType, maxCharges)
  }

  function Min(a: int, b: int): int {
    if a < b then a else b
  }

  /**
   * What a trigger does from non-negative charges: an uncharged artifact
   * produces every firing effect and keeps its state; a charged one
   * produces the first min(charges, firing) of them, spends one charge for
   * each, and is still active exactly when it was and either produced
   * nothing or has charges left.
   */
  lemma {:induction false} TriggeredSpendsCharges(es: seq<ArtifactEffect>, triggerType: string, maxCharges: int, charges: int, active: bool)
    requires charges >= 0
    ensures var r := Triggered(es, triggerType, maxCharges, TriggerState([], charges, active));
      maxCharges <= 0 ==> r == TriggerState(Firing(es, triggerType), charges, active)
    ensures var r := Triggered(es, triggerType, maxCharges, TriggerState([], charges, active));
      var f := Firing(es, triggerType);
      maxCharges > 0 ==>
        |r.results| == Min(charges, |f|) &&
        r.results == f[..|r.results|] &&
        r.charges == charges - |r.results| &&
        (r.active <==> active && (|r.results| == 0 || r.charges > 0))
    decreases |es|
  {
    if |es| > 0 {
      var front := es[..|es| - 1];
      var e := es[|es| - 1];
      TriggeredSpendsCharges(front, triggerType, maxCharges, charges, active);
      var f0 := Firing(front, triggerType);
      var f := Firing(es, triggerType);
      assert f == f0 + (if Fires(e, triggerType) then [e] else []);
      var r0 := Triggered(front, triggerType, maxCharges, TriggerState([], charges, active));
      if maxCharges > 0 && Fires(e, triggerType) && r0.charges <= 0 {
        assert f0[..|r0.results|] == f[..|r0.results|];
      }
    }
  }

  /** When every effect is passive, every trigger fires all of them. */
  lemma {:induction false} PassiveIgnoresTrigger(es: seq<ArtifactEffect>, t1: string, t2: string)
    requires forall e :: e in es ==> e.trigger == "passive"
    ensures Firing(es, t1) == Firing(es, t2) == es
    decreases |es|
  {
    if |es| > 0 {
      var front := es[..|es| - 1];
      var e := es[|es| - 1];
      assert es == front + [e];
      assert e in es;
      assert forall x :: x in front ==> x in es;
      PassiveIgnoresTrigger(front, t1, t2);
      assert Firing(es, t1) == front + [e];
      assert Firing(es, t2) == front + [e];
    }
  }


  class Artifact {
    const artifactType: ArtifactType
    const rarity: Rarity
    const effects: seq<ArtifactEffect>
    const maxCharges: int
    var equipped: bool
    var charges: int
    var active: bool

    /** A new artifact: its table effects, full charges, active and not equipped. */
    constructor(artifactType: ArtifactType, rarity: Rarity)
      ensures this.artifactType == artifactType && this.rarity == rarity
      ensures effects == EffectsOf(artifactType, rarity)
      ensures maxCharges == MaxCharges(artifactType, rarity) && charges == maxCharges
      ensures active && !equipped
    {
      this.artifactType := artifactType;
      this.rarity := rarity;
      effects := EffectsOf(artifactType, rarity);
      maxCharges := MaxCharges(artifactType, rarity);
      charges := MaxCharges(artifactType, rarity);
      equipped := false;
      active := true;
    }

    /**
     * trigger_effect: an inactive artifact produces nothing; an active one
     * runs through its effects as Triggered describes.
     */
    method TriggerEffect(triggerType: string) returns (triggered: seq<ArtifactEffect>)
      modifies this
      ensures !old(active) ==> triggered == [] && charges == old(charges) && !active
      ensures old(active) ==>
        Triggered(effects, triggerType, maxCharges, TriggerState([], old(charges), true)) ==
        TriggerState(triggered, charges, active)
      ensures equipped == old(equipped)
    {
      if !active {
        return [];
      }
      triggered := [];
      var i := 0;
      while i < |effects|
        invariant 0 <= i <= |effects|
        invariant Triggered(effects[..i], triggerType, maxCharges, TriggerState([], old(charges), true)) ==
                  TriggerState(triggered, charges, active)
        invariant equipped == old(equipped)
      {
        assert effects[..i + 1][..i] == effects[..i];
        var effect := effects[i];
        if effect.trigger == triggerType || effect.trigger == "passive" {
          if maxCharges > 0 {
            if charges <= 0 {
              i := i + 1;
              continue;
            }
            charges := charges - 1;
            if charges <= 0 {
              active := false;
            }
          }
          triggered := triggered + [effect];
        }
        i := i + 1;
      }
      assert effects[..i] == effects;
    }
  }

  /** The index of the first artifact of type t. */
  function IndexOfType(s: seq<Artifact>, t: ArtifactType): (r: Option<nat>)
    ensures r.Some? ==> r.value < |s| && s[r.value].artifactType == t &&
                        forall j :: 0 <= j < r.value ==> s[j].artifactType != t
    ensures r.None? ==> forall j :: 0 <= j < |s| ==> s[j].artifactType != t
    decreases |s|
  {
    if |s| == 0 then None
    else if s[0].artifactType == t then Some(0)
    else match IndexOfType(s[1..], t)
      case None => None
      case Some(i) => Some(i + 1)
  }

  /** The index of the first occurrence of the object a. */
  function IndexOf(s: seq<Artifact>, a: Artifact): (r: Option<nat>)
    ensures r.Some? ==> r.value < |s| && s[r.value] == a && forall j :: 0 <= j < r.value ==> s[j] != a
    ensures r.None? <==> a !in s
    decreases |s|
  {
    if |s| == 0 then None
    else if s[0] == a then Some(0)
    else match IndexOf(s[1..], a)
      case None => None
      case Some(i) => Some(i + 1)
  }

  /** list.remove: s without the first occurrence of a, or s when a is absent. */
  function Removed(s: seq<Artifact>, a: Artifact): (r: seq<Artifact>)
    ensures a in s ==> |r| == |s| - 1 && multiset(r) + multiset{a} == multiset(s)
    ensures a !in s ==> r == s
  {
    match IndexOf(s, a)
    case None => s
    case Some(i) =>
      assert s == s[..i] + [s[i]] + s[i + 1..];
      s[..i] + s[i + 1..]
  }

  /** The first artifact of a type is also the first occurrence of that object. */
  lemma FirstOfTypeIsFirstOccurrence(s: seq<Artifact>, t: ArtifactType)
    requires IndexOfType(s, t).Some?
    ensures IndexOf(s, s[IndexOfType(s, t).value]) == IndexOfType(s, t)
  {
    var i := IndexOfType(s, t).value;
    var j := IndexOf(s, s[i]);
    assert j.Some?;
    assert s[j.value].artifactType == t;
  }

  /** At most one artifact of each type. */
  predicate UniqueTypes(s: seq<Artifact>) {
    forall i, j :: 0 <= i < j < |s| ==> s[i].artifactType != s[j].artifactType
  }

  /** Dropping one artifact keeps the types unique. */
  lemma PoppedKeepsUnique(s: seq<Artifact>, i: int)
    requires UniqueTypes(s) && 0 <= i < |s|
    ensures UniqueTypes(s[..i] + s[i + 1..])
    ensures forall a :: a in s[..i] + s[i + 1..] ==> a.artifactType != s[i].artifactType
  {
    var r := s[..i] + s[i + 1..];
    assert forall k :: 0 <= k < |r| ==> r[k] == if k < i then s[k] else s[k + 1];
  }

  /** Appending an artifact of a type not yet held keeps the types unique. */
  lemma AppendKeepsUnique(s: seq<Artifact>, a: Artifact)
    requires UniqueTypes(s)
    requires forall b :: b in s ==> b.artifactType != a.artifactType
    ensures UniqueTypes(s + [a])
  {
    var r := s + [a];
    forall i, j | 0 <= i < j < |r|
      ensures r[i].artifactType != r[j].artifactType
    {
      if j == |s| {
        assert r[i] in s;
      }
    }
  }

  /** The effects of the active artifacts of s, artifact by artifact. */
  function ActiveEffects(s: seq<Artifact>): seq<ArtifactEffect>
    reads s
    decreases |s|
  {
    if |s| == 0 then []
    else
      var a := s[|s| - 1];
      ActiveEffects(s[..|s| - 1]) + (if a.active then a.effects else [])
  }

  /** One passive effect's value added to its type's entry; other effects change nothing. */
  function AddBonus(m: map<string, real>, e: ArtifactEffect): map<string, real> {
    if e.trigger != "passive" then m
    else if e.effectType in m then m[e.effectType := m[e.effectType] + e.value]
    else m[e.effectType := e.value]
  }

  /** The passive bonuses accumulated over es, effect by effect. */
  function Bonuses(es: seq<ArtifactEffect>): map<string, real>
    decreases |es|
  {
    if |es| == 0 then map[] else AddBonus(Bonuses(es[..|es| - 1]), es[|es| - 1])
  }

  lemma BonusesSnoc(es: seq<ArtifactEffect>, e: ArtifactEffect)
    ensures Bonuses(es + [e]) == AddBonus(Bonuses(es), e)
  {
    assert (es + [e])[..|es|] == es;
  }

  /** The inner loop of get_passive_bonuses: the passive effects of one artifact added to start, which holds the bonuses of done. */
  method AddPassiveEffects(ghost done: seq<ArtifactEffect>, start: map<string, real>, effects: seq<ArtifactEffect>)
    returns (bonuses: map<string, real>)
    requires start == Bonuses(done)
    ensures bonuses == Bonuses(done + effects)
  {
    bonuses := start;
    assert done + effects[..0] == done;
    var j := 0;
    while j < |effects|
      invariant 0 <= j <= |effects|
      invariant bonuses == Bonuses(done + effects[..j])
    {
      var effect := effects[j];
      assert done + effects[..j + 1] == done + effects[..j] + [effect];
      BonusesSnoc(done + effects[..j], effect);
      if effect.trigger == "passive" {
        if effect.effectType in bonuses {
          bonuses := bonuses[effect.effectType := bonuses[effect.effectType] + effect.value];
        } else {
          bonuses := bonuses[effect.effectType := effect.value];
        }
      }
      j := j + 1;
    }
    assert effects[..j] == effects;
  }

  /** The sum of the values of the passive effects of es of type k. */
  function PassiveSum(es: seq<ArtifactEffect>, k: string): real
    decreases |es|
  {
    if |es| == 0 then 0.0
    else
      var e := es[|es| - 1];
      PassiveSum(es[..|es| - 1], k) + (if e.trigger == "passive" && e.effectType == k then e.value else 0.0)
  }

  /**
   * The bonus table has an entry for exactly the types of the passive
   * effects, and each entry is the sum of those effects' values.
   */
  lemma {:induction false} BonusesAreSums(es: seq<ArtifactEffect>)
    ensures forall k :: k in Bonuses(es) <==> exists e :: e in es && e.trigger == "passive" && e.effectType == k
    ensures forall k :: k in Bonuses(es) ==> Bonuses(es)[k] == PassiveSum(es, k)
    decreases |es|
  {
    if |es| > 0 {
      var front := es[..|es| - 1];
      var e := es[|es| - 1];
      BonusesAreSums(front);
      assert es == front + [e];
      forall k | k !in Bonuses(front)
        ensures PassiveSum(front, k) == 0.0
      {
        NoPassiveSumsToZero(front, k);
      }
    }
  }

  lemma {:induction false} NoPassiveSumsToZero(es: seq<ArtifactEffect>, k: string)
    requires forall e :: e in es ==> !(e.trigger == "passive" && e.effectType == k)
    ensures PassiveSum(es, k) == 0.0
    decreases |es|
  {
    if |es| > 0 {
      NoPassiveSumsToZero(es[..|es| - 1], k);
    }
  }

  class ArtifactCollection {
    const maxArtifacts: int
    var artifacts: seq<Artifact>

    /** Never more than the capacity, and at most one artifact of each type. */
    predicate Valid()
      reads this
    {
      |artifacts| <= maxArtifacts && UniqueTypes(artifacts)
    }

    /** An empty collection with the given capacity (10 by default). */
    constructor(maxArtifacts: int)
      ensures this.maxArtifacts == maxArtifacts && artifacts == []
      ensures maxArtifacts >= 0 ==> Valid()
    {
      this.maxArtifacts := maxArtifacts;
      artifacts := [];
    }

    /** is_full. */
    predicate IsFull()
      reads this
    {
      |artifacts| >= maxArtifacts
    }

    /** find_artifact_by_type: the first artifact of the type, if any. */
    method FindByType(t: ArtifactType) returns (found: Option<Artifact>)
      ensures found.None? <==> IndexOfType(artifacts, t).None?
      ensures found.Some? ==> found.value == artifacts[IndexOfType(artifacts, t).value]
    {
      var i := 0;
      while i < |artifacts|
        invariant 0 <= i <= |artifacts|
        invariant forall j :: 0 <= j < i ==> artifacts[j].artifactType != t
      {
        if artifacts[i].artifactType == t {
          return Some(artifacts[i]);
        }
        i := i + 1;
      }
      return None;
    }

    /**
     * add_artifact: a full collection refuses. An artifact of a type already
     * held replaces the held one, moving to the end, only when strictly
     * rarer, and is then not marked equipped; otherwise it is refused. An
     * artifact of a new type is appended and marked equipped.
     */
    method AddArtifact(artifact: Artifact) returns (ok: bool)
      modifies this, artifact
      ensures old(IsFull()) ==> !ok && artifacts == old(artifacts) && artifact.equipped == old(artifact.equipped)
      ensures !old(IsFull()) && IndexOfType(old(artifacts), artifact.artifactType).None? ==>
        ok && artifacts == old(artifacts) + [artifact] && artifact.equipped
      ensures !old(IsFull()) && IndexOfType(old(artifacts), artifact.artifactType).Some? ==>
        var i := IndexOfType(old(artifacts), artifact.artifactType).value;
        (ok <==> Value(artifact.rarity) > Value(old(artifacts)[i].rarity)) &&
        (ok ==> artifacts == old(artifacts)[..i] + old(artifacts)[i + 1..] + [artifact]) &&
        (!ok ==> artifacts == old(artifacts)) &&
        artifact.equipped == old(artifact.equipped)
      ensures artifact.charges == old(artifact.charges) && artifact.active == old(artifact.active)
      ensures old(Valid()) ==> Valid()
    {
      if |artifacts| >= maxArtifacts {
        return false;
      }
      var existing := FindByType(artifact.artifactType);
      if existing.Some? {
        var held := existing.value;
        if Value(artifact.rarity) > Value(held.rarity) {
          ghost var i := IndexOfType(artifacts, artifact.artifactType).value;
          FirstOfTypeIsFirstOccurrence(artifacts, artifact.artifactType);
          if UniqueTypes(artifacts) {
            PoppedKeepsUnique(artifacts, i);
            AppendKeepsUnique(artifacts[..i] + artifacts[i + 1..], artifact);
          }
          artifacts := Removed(artifacts, held) + [artifact];
          return true;
        }
        return false;
      }
      if UniqueTypes(artifacts) {
        AppendKeepsUnique(artifacts, artifact);
      }
      artifacts := artifacts + [artifact];
      artifact.equipped := true;
      return true;
    }

    /**
     * remove_artifact: a held artifact is removed (its first occurrence)
     * and marked not equipped; an absent one is refused and nothing changes.
     */
    method RemoveArtifact(artifact: Artifact) returns (ok: bool)
      modifies this, artifact
      ensures ok <==> artifact in old(artifacts)
      ensures ok ==> artifacts == Removed(old(artifacts), artifact) && !artifact.equipped
      ensures !ok ==> artifacts == old(artifacts) && artifact.equipped == old(artifact.equipped)
      ensures artifact.charges == old(artifact.charges) && artifact.active == old(artifact.active)
      ensures old(Valid()) ==> Valid()
    {
      if artifact in artifacts {
        if UniqueTypes(artifacts) {
          PoppedKeepsUnique(artifacts, IndexOf(artifacts, artifact).value);
        }
        artifacts := Removed(artifacts, artifact);
        artifact.equipped := false;
        return true;
      }
      return false;
    }

    /**
     * get_passive_bonuses: over the active artifacts, each passive effect's
     * value added to its type's entry.
     */
    method GetPassiveBonuses() returns (bonuses: map<string, real>)
      ensures bonuses == Bonuses(ActiveEffects(artifacts))
    {
      bonuses := map[];
      var i := 0;
      while i < |artifacts|
        invariant 0 <= i <= |artifacts|
        invariant bonuses == Bonuses(ActiveEffects(artifacts[..i]))
      {
        var artifact := artifacts[i];
        assert artifacts[..i + 1][..i] == artifacts[..i];
        assert ActiveEffects(artifacts[..i + 1]) ==
          ActiveEffects(artifacts[..i]) + (if artifact.active then artifact.effects else []);
        if artifact.active {
          bonuses := AddPassiveEffects(ActiveEffects(artifacts[..i]), bonuses, artifact.effects);
        } else {
          assert ActiveEffects(artifacts[..i + 1]) == ActiveEffects(artifacts[..i]);
        }
        i := i + 1;
      }
      assert artifacts[..i] == artifacts;
    }
  }
}
