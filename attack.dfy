// Character.attack of game_state.py: the hit rule against the target's armour
// class, the damage-dice parse, the damage roll and the 10% poison chance.

module Attacks {
  import opened Wrappers
  import opened Dice
  import opened HitPoints
  import opened StatusEffects
  import opened Combatants
  import opened GameState

  /** A participant of a fight: a Player or an NPC, each built around its Character. */
  datatype Combatant = PlayerC(player: Player) | NpcC(npc: Npc)
  {
    /** The Character part, which holds hit points and status effects. */
    function Core(): Character
    {
      match this
      case PlayerC(p) => p.character
      case NpcC(n) => n.character
    }

    /** The objects whose fields the combat rules read. */
    function Frame(): set<object>
    {
      match this
      case PlayerC(p) => {p, p.character}
      case NpcC(n) => {n.character}
    }

    /** The objects the combat numbers read: a Player's equipment; a Character's stats never change. */
    function Gear(): set<object>
    {
      match this
      case PlayerC(p) => {p}
      case NpcC(n) => {}
    }

    ghost predicate Valid()
      reads Frame()
    {
      match this
      case PlayerC(p) => p.Valid()
      case NpcC(n) => n.character.Valid()
    }
  }

  /** combat_stats attack_bonus, plus the weapon's for a Player. */
  function AttackBonus(attacker: Combatant): int
    reads attacker.Gear()
  {
    attacker.Core().Stat("attack_bonus", 0)
      + (if attacker.PlayerC? then EquippedWeaponStats(attacker.player.equipment).attackBonus else 0)
  }

  /** combat_stats damage_bonus, plus the weapon's for a Player. */
  function DamageBonus(attacker: Combatant): int
    reads attacker.Gear()
  {
    attacker.Core().Stat("damage_bonus", 0)
      + (if attacker.PlayerC? then EquippedWeaponStats(attacker.player.equipment).damageBonus else 0)
  }

  /** The weapon's dice for a Player, base_damage_dice for an NPC. */
  function DamageDice(attacker: Combatant): string
    reads attacker.Gear()
  {
    if attacker.PlayerC? then EquippedWeaponStats(attacker.player.equipment).damageDice
    else attacker.Core().baseDamageDice
  }

  /** The effective armour class of a Player target, armor_class (default 10) of an NPC target. */
  function TargetArmorClass(target: Combatant): int
    reads target.Gear()
  {
    if target.PlayerC? then target.player.EffectiveArmorClass()
    else target.Core().Stat("armor_class", 10)
  }

  /** The hit rule: the d20 plus the attack bonus meets or beats the armour class. */
  predicate Hits(d20: int, attackBonus: int, armorClass: int)
  {
    d20 + attackBonus >= armorClass
  }

  /** max(0, roll + bonus) */
  function DamageOf(roll: int, bonus: int): (r: int)
    ensures r >= 0 && r >= roll + bonus
    ensures roll + bonus >= 0 ==> r == roll + bonus
  {
    if roll + bonus > 0 then roll + bonus else 0
  }

  /** The 10% poison chance of a surviving target: randint(1, 100) <= 10. */
  predicate PoisonRoll(percent: int)
  {
    percent <= 10
  }

  /** What an attack did, without its message text. */
  datatype AttackOutcome =
    | SelfAttack
    | Miss(total: int, armorClass: int)
    | Hit(total: int, armorClass: int, damage: int, poisoned: bool, defeated: bool)

  /** The outcome the hit rule decides: nothing on oneself, else a hit exactly when Hits holds, with the total and the armour class. */
  predicate Decided(o: AttackOutcome, self: bool, d20: int, attackBonus: int, armorClass: int)
  {
    if self then o == SelfAttack
    else if Hits(d20, attackBonus, armorClass) then o.Hit? && o.total == d20 + attackBonus && o.armorClass == armorClass
    else o == Miss(d20 + attackBonus, armorClass)
  }

  /**
   * What a hit does to its target, from its hit points and effects before (hp0, effects0) to
   * after (hp1, effects1): max(0, roll + damage bonus) damage, then poison (3 turns, potency 2)
   * when the target survives and the percentile is at most 10.
   */
  predicate HitLanded(o: AttackOutcome, damageRoll: int, damageBonus: int, percent: int,
                      hp0: int, effects0: seq<StatusEffect>, hp1: int, effects1: seq<StatusEffect>)
  {
    o.Hit?
    && o.damage == DamageOf(damageRoll, damageBonus)
    && hp1 == AfterDamage(hp0, o.damage)
    && (o.poisoned <==> hp1 > 0 && PoisonRoll(percent))
    && effects1 == (if o.poisoned then AddOrRefresh(effects0, Poison, 3, 2) else effects0)
    && (o.defeated <==> hp1 <= 0)
  }

  /**
   * attacker.attack(target) with the d20, the damage roll and the poison percentile given.
   * An attack on oneself and a miss change nothing; a hit whose dice do not parse raises
   * (Err) before any damage; a hit deals max(0, roll + damage bonus) and, when the target
   * survives and the percentile is at most 10, poisons it (3 turns, potency 2).
   */
  method Attack(attacker: Combatant, target: Combatant, d20: int, damageRoll: int, percent: int)
    returns (r: Result<AttackOutcome, DiceError>)
    requires attacker.Valid() && target.Valid()
    modifies target.Core()
    ensures target.Valid() && attacker.Valid()
    ensures attacker.Core() == target.Core() ==> r == Ok(SelfAttack)
    ensures attacker.Core() != target.Core() && !Hits(d20, AttackBonus(attacker), TargetArmorClass(target)) ==>
      r == Ok(Miss(d20 + AttackBonus(attacker), TargetArmorClass(target)))
    ensures attacker.Core() != target.Core() && Hits(d20, AttackBonus(attacker), TargetArmorClass(target)) && r.Ok? ==>
      r.value.Hit?
    ensures r.Err? <==> (attacker.Core() != target.Core() && Hits(d20, AttackBonus(attacker), TargetArmorClass(target))
      && ParseDice(DamageDice(attacker)).Err?)
    ensures r.Err? ==> ParseDice(DamageDice(attacker)) == Err(r.error)
    ensures !(r.Ok? && r.value.Hit?) ==>
      target.Core().currentHp == old(target.Core().currentHp) && target.Core().statusEffects == old(target.Core().statusEffects)
    ensures r.Ok? ==> Decided(r.value, attacker.Core() == target.Core(), d20, AttackBonus(attacker), TargetArmorClass(target))
    ensures r.Ok? && r.value.Hit? ==> (
      attacker.Core() != target.Core() && Hits(d20, AttackBonus(attacker), TargetArmorClass(target))
      && ParseDice(DamageDice(attacker)).Ok?
      && HitLanded(r.value, damageRoll, DamageBonus(attacker), percent, old(target.Core().currentHp),
           old(target.Core().statusEffects), target.Core().currentHp, target.Core().statusEffects))
  {
    var victim := target.Core();
    if attacker.Core() == victim {
      return Ok(SelfAttack);
    }
    var attackBonus := attacker.Core().Stat("attack_bonus", 0);
    var damageBonus := attacker.Core().Stat("damage_bonus", 0);
    var dice := attacker.Core().baseDamageDice;
    if attacker.PlayerC? {
      var weapon := EquippedWeaponStats(attacker.player.equipment);
      dice := weapon.damageDice;
      attackBonus := attackBonus + weapon.attackBonus;
      damageBonus := damageBonus + weapon.damageBonus;
    }
    var total := d20 + attackBonus;
    var armorClass := if target.PlayerC? then target.player.EffectiveArmorClass() else victim.Stat("armor_class", 10);
    if total < armorClass {
      return Ok(Miss(total, armorClass));
    }
    var parsed := ParseDice(dice);
    if parsed.Err? {
      return Err(parsed.error);
    }
    var damage := DamageOf(damageRoll, damageBonus);
    var _ := victim.TakeDamage(damage);
    var poisoned := false;
    if victim.Alive() && PoisonRoll(percent) {
      var _ := victim.AddStatusEffect(Poison, 3, 2);
      poisoned := true;
    }
    return Ok(Hit(total, armorClass, damage, poisoned, !victim.Alive()));
  }

  /** A Player's equipped weapon always has dice the parser accepts, so a Player's hit never raises. */
  lemma PlayerAttackNeverRaises(attacker: Combatant)
    requires attacker.Valid() && attacker.PlayerC?
    ensures ParseDice(DamageDice(attacker)).Ok?
  {
    WeaponDiceParse(attacker.player.equipment);
  }
}
