// game_state.py's Player and NPC on top of the shared Character: the item
// database, equipment and the armour class and weapon it yields, the
// inventory, ability modifiers and skill checks, spell slots and spell casting.

module GameState {
  import opened Wrappers
  import opened PyText
  import opened PyList
  import opened Json
  import opened Dice
  import opened HitPoints
  import opened Combatants
  import opened Tables

  // ---------------------------------------------------------------- items

  /** An entry of ITEM_DATABASE; the fields an item type does not have are None. */
  datatype ItemData = ItemData(
    id: string,
    name: string,
    itemType: string,
    damageDice: Option<string>,
    attackBonus: Option<int>,
    damageBonus: Option<int>,
    acBonus: Option<int>)

  const ItemDatabase: map<string, ItemData> := map[
    "short_sword" := ItemData("short_sword", "Short Sword", "weapon", Some("1d6"), Some(1), Some(0), None),
    "long_sword" := ItemData("long_sword", "Long Sword", "weapon", Some("1d8"), Some(1), Some(1), None),
    "leather_armor" := ItemData("leather_armor", "Leather Armor", "armor", None, None, None, Some(2)),
    "wooden_shield" := ItemData("wooden_shield", "Wooden Shield", "shield", None, None, None, Some(1)),
    "steel_shield" := ItemData("steel_shield", "Steel Shield", "shield", None, None, None, Some(2))
  ]

  /** _load_item_data: an empty id loads nothing, any other id its database entry if there is one. */
  function LoadItem(itemId: string): (r: Option<ItemData>)
    ensures r.Some? <==> itemId in ItemDatabase
    ensures r.Some? ==> r.value == ItemDatabase[itemId]
  {
    if itemId == "" then None
    else if itemId in ItemDatabase then Some(ItemDatabase[itemId])
    else None
  }

  // ---------------------------------------------------------------- equipment

  /** Player.equipment: slot name to the id of the item in it. */
  type Equipment = map<string, Option<string>>

  /** The slots a new Player has, all empty. */
  const NoEquipment: Equipment := map["weapon" := None, "armor" := None, "shield" := None]

  /** The type checks of equip_item: each of the three slots takes only its own item type. */
  predicate Fits(slot: string, itemType: string)
  {
    (slot == "weapon" ==> itemType == "weapon")
    && (slot == "armor" ==> itemType == "armor")
    && (slot == "shield" ==> itemType == "shield")
  }

  /** The three slots exist and each holds nothing or a database item of the slot's own type. */
  predicate WellEquipped(equipment: Equipment)
  {
    equipment.Keys == NoEquipment.Keys
    && forall slot | slot in equipment && equipment[slot].Some? ::
         equipment[slot].value in ItemDatabase && ItemDatabase[equipment[slot].value].itemType == slot
  }

  /** equip_item on an equipment dict; None where it returns False and changes nothing. */
  function Equip(equipment: Equipment, itemId: string, slot: string): Option<Equipment>
  {
    match LoadItem(itemId)
    case None => None
    case Some(item) =>
      if slot !in equipment || !Fits(slot, item.itemType) then None
      else Some(equipment[slot := Some(itemId)])
  }

  /** unequip_item on an equipment dict: the new dict and the id it returns. */
  function Unequip(equipment: Equipment, slot: string): (Equipment, Option<string>)
  {
    if slot !in equipment then (equipment, None)
    else
      match equipment[slot]
      case None => (equipment, None)
      case Some(id) => if id == "" then (equipment, Some(id)) else (equipment[slot := None], Some(id))
  }

  /** Equipping succeeds exactly for a database item whose type is the slot's, and puts it in that slot. */
  lemma EquipAccepts(equipment: Equipment, itemId: string, slot: string)
    requires WellEquipped(equipment)
    ensures Equip(equipment, itemId, slot).Some? <==>
      itemId in ItemDatabase && slot in NoEquipment && ItemDatabase[itemId].itemType == slot
    ensures Equip(equipment, itemId, slot).Some? ==>
      WellEquipped(Equip(equipment, itemId, slot).value) && Equip(equipment, itemId, slot).value[slot] == Some(itemId)
  {
  }

  /** Unequipping what was just equipped hands back its id and leaves the slot empty. */
  lemma UnequipAfterEquip(equipment: Equipment, itemId: string, slot: string)
    requires Equip(equipment, itemId, slot).Some?
    ensures Unequip(Equip(equipment, itemId, slot).value, slot) == (equipment[slot := None], Some(itemId))
  {
    assert itemId != "";
    var equipped := equipment[slot := Some(itemId)];
    assert Equip(equipment, itemId, slot).value == equipped;
    assert equipped[slot := None] == equipment[slot := None];
  }

  /** Unequipping keeps the equipment well formed and returns what the slot held. */
  lemma UnequipKeepsWellEquipped(equipment: Equipment, slot: string)
    requires WellEquipped(equipment)
    ensures WellEquipped(Unequip(equipment, slot).0)
    ensures Unequip(equipment, slot).1 == (if slot in equipment then equipment[slot] else None)
    ensures slot in equipment ==> Unequip(equipment, slot).0[slot] == None
  {
    if slot in equipment && equipment[slot].Some? {
      assert equipment[slot].value in ItemDatabase;
    }
  }

  /** The ac_bonus one slot contributes: a database item of the slot's type, else nothing. */
  function SlotAc(equipment: Equipment, slot: string): int
  {
    if slot !in equipment then 0
    else
      match equipment[slot]
      case None => 0
      case Some(id) =>
        match LoadItem(id)
        case None => 0
        case Some(item) => if item.itemType == slot then item.acBonus.GetOr(0) else 0
  }

  /** get_equipped_armor_ac_bonus */
  function ArmorAcBonus(equipment: Equipment): int
  {
    SlotAc(equipment, "armor") + SlotAc(equipment, "shield")
  }

  /** Nothing equipped adds nothing, and every item in the database adds a non-negative bonus. */
  lemma ArmorAcBonusRange(equipment: Equipment)
    ensures ArmorAcBonus(NoEquipment) == 0
    ensures 0 <= ArmorAcBonus(equipment) <= 4
  {
  }

  /**
   * Equipping changes the armour bonus by the new item's bonus less the old item's:
   * armour and shields replace what was in their slot, any other slot changes nothing.
   */
  lemma ArmorAcBonusAfterEquip(equipment: Equipment, itemId: string, slot: string)
    requires Equip(equipment, itemId, slot).Some?
    ensures ArmorAcBonus(Equip(equipment, itemId, slot).value) ==
      ArmorAcBonus(equipment) + (if slot != "armor" && slot != "shield" then 0 else ItemDatabase[itemId].acBonus.GetOr(0) - SlotAc(equipment, slot))
  {
    var item := ItemDatabase[itemId];
    var equipped := equipment[slot := Some(itemId)];
    assert LoadItem(itemId) == Some(item);
    assert Equip(equipment, itemId, slot).value == equipped;
    if slot == "armor" {
      assert SlotAc(equipped, "armor") == item.acBonus.GetOr(0);
      assert SlotAc(equipped, "shield") == SlotAc(equipment, "shield");
    } else if slot == "shield" {
      assert SlotAc(equipped, "shield") == item.acBonus.GetOr(0);
      assert SlotAc(equipped, "armor") == SlotAc(equipment, "armor");
    } else {
      assert SlotAc(equipped, "shield") == SlotAc(equipment, "shield");
      assert SlotAc(equipped, "armor") == SlotAc(equipment, "armor");
    }
  }

  /** The three values get_equipped_weapon_stats reports. */
  datatype WeaponStats = WeaponStats(damageDice: string, attackBonus: int, damageBonus: int)

  /** An unarmed strike. */
  const Unarmed: WeaponStats := WeaponStats("1d4", 0, 0)

  /** get_equipped_weapon_stats */
  function EquippedWeaponStats(equipment: Equipment): WeaponStats
  {
    if "weapon" !in equipment then Unarmed
    else
      match equipment["weapon"]
      case None => Unarmed
      case Some(id) =>
        match LoadItem(id)
        case Some(item) =>
          if item.itemType == "weapon" then
            WeaponStats(item.damageDice.GetOr("1d4"), item.attackBonus.GetOr(0), item.damageBonus.GetOr(0))
          else Unarmed
        case None => Unarmed
  }

  /** With a well-formed equipment, the weapon slot alone decides the stats: its item's, or an unarmed strike. */
  lemma WeaponStatsOfSlot(equipment: Equipment)
    requires WellEquipped(equipment)
    ensures equipment["weapon"].None? ==> EquippedWeaponStats(equipment) == Unarmed
    ensures equipment["weapon"] == Some("short_sword") ==> EquippedWeaponStats(equipment) == WeaponStats("1d6", 1, 0)
    ensures equipment["weapon"] == Some("long_sword") ==> EquippedWeaponStats(equipment) == WeaponStats("1d8", 1, 1)
    ensures EquippedWeaponStats(equipment).damageDice in ["1d4", "1d6", "1d8"]
  {
    assert "weapon" in NoEquipment;
    var weapon := equipment["weapon"];
    if weapon.Some? {
      assert weapon.value in ItemDatabase;
    }
  }

  /** Whatever is equipped, the weapon's dice are ones the attack's dice parser accepts. */
  lemma WeaponDiceParse(equipment: Equipment)
    requires WellEquipped(equipment)
    ensures ParseDice(EquippedWeaponStats(equipment).damageDice).Ok?
  {
    WeaponStatsOfSlot(equipment);
    var dice := EquippedWeaponStats(equipment).damageDice;
    var sides := if dice == "1d4" then 4 else if dice == "1d6" then 6 else 8;
    assert dice == [DigitChar(1), 'd', DigitChar(sides)];
    ParseDiceSingleDigits(1, sides);
  }

  // ---------------------------------------------------------------- abilities and skills

  /** get_ability_modifier: floor((score - 10) / 2), or 0 for a missing or non-integer score (a bool counts as an int). */
  function AbilityModifier(scores: map<string, Json>, abilityName: string): (r: int)
    ensures Lower(abilityName) !in scores ==> r == 0
    ensures Lower(abilityName) in scores && AsInt(scores[Lower(abilityName)]).None? ==> r == 0
    ensures Lower(abilityName) in scores && AsInt(scores[Lower(abilityName)]).Some? ==>
      2 * r <= AsInt(scores[Lower(abilityName)]).value - 10 < 2 * r + 2
  {
    var key := Lower(abilityName);
    if key !in scores then 0
    else
      match AsInt(scores[key])
      case None => 0
      case Some(score) => (score - 10) / 2
  }

  /** A higher score never gives a lower modifier, and 10 or 11 give none. */
  lemma AbilityModifierMonotone(scores: map<string, Json>, name: string, a: int, b: int)
    requires a <= b
    ensures AbilityModifier(scores[Lower(name) := JInt(a)], name) <= AbilityModifier(scores[Lower(name) := JInt(b)], name)
    ensures AbilityModifier(scores[Lower(name) := JInt(10)], name) == 0
    ensures AbilityModifier(scores[Lower(name) := JInt(11)], name) == 0
  {
  }

  /** What perform_skill_check returns, without the breakdown text. */
  datatype SkillCheck = SkillCheck(success: bool, roll: int, total: int)

  /** The ability modifier a skill check adds: none for a skill outside SKILL_ABILITY_MAP. */
  function SkillAbilityBonus(scores: map<string, Json>, skill: string): int
  {
    match SkillAbility(Lower(skill))
    case None => 0
    case Some(ability) => AbilityModifier(scores, ability)
  }

  /** Whether proficiencies_map['skills'] lists the lower-cased skill; a non-list lists nothing. */
  predicate Proficient(proficientSkills: Json, skill: string)
  {
    proficientSkills.JArray? && JStr(Lower(skill)) in proficientSkills.items
  }

  /** perform_skill_check for a d20 roll. */
  function PerformSkillCheck(scores: map<string, Json>, proficientSkills: Json, skill: string, dc: int, d20: int): (r: SkillCheck)
    ensures r.roll == d20
    ensures r.success <==> r.total >= dc
    ensures r.total == d20 + SkillAbilityBonus(scores, skill) + (if Proficient(proficientSkills, skill) then ProficiencyBonus else 0)
  {
    var bonus := if Proficient(proficientSkills, skill) then ProficiencyBonus else 0;
    var total := d20 + SkillAbilityBonus(scores, skill) + bonus;
    SkillCheck(total >= dc, d20, total)
  }

  /** Proficiency in a skill adds exactly 2 to the check; a better roll never turns a success into a failure. */
  lemma SkillCheckProperties(scores: map<string, Json>, skills: seq<Json>, skill: string, dc: int, d20: int, better: int)
    requires d20 <= better
    ensures PerformSkillCheck(scores, JArray(skills + [JStr(Lower(skill))]), skill, dc, d20).total ==
      PerformSkillCheck(scores, JArray(skills), skill, dc, d20).total + (if JStr(Lower(skill)) in skills then 0 else 2)
    ensures PerformSkillCheck(scores, JArray(skills), skill, dc, d20).success ==>
      PerformSkillCheck(scores, JArray(skills), skill, dc, better).success
  {
    assert JStr(Lower(skill)) in skills + [JStr(Lower(skill))];
  }

  // ---------------------------------------------------------------- spell slots

  /** Player.spell_slots: "level_N" to a dict holding "current" (and "max"). */
  type SpellSlots = map<string, map<string, int>>

  /** f"level_{spell_level}" */
  function SlotKey(level: int): string
  {
    "level_" + IntToString(level)
  }

  /** spell_slots[key].get("current", 0), and 0 for an undefined level. */
  function CurrentSlots(slots: SpellSlots, level: int): int
  {
    var key := SlotKey(level);
    if key !in slots then 0
    else if "current" in slots[key] then slots[key]["current"]
    else 0
  }

  /** has_spell_slot */
  predicate HasSpellSlot(slots: SpellSlots, level: int)
  {
    CurrentSlots(slots, level) > 0
  }

  /** consume_spell_slot on a slots dict: one fewer current slot of the level, or None when there is none. */
  function ConsumeSlot(slots: SpellSlots, level: int): (r: Option<SpellSlots>)
    ensures r.Some? <==> HasSpellSlot(slots, level)
  {
    var key := SlotKey(level);
    if !HasSpellSlot(slots, level) then None
    else Some(slots[key := slots[key]["current" := slots[key]["current"] - 1]])
  }

  /** Distinct levels have distinct keys. */
  lemma SlotKeyInjective(a: int, b: int)
    requires SlotKey(a) == SlotKey(b)
    ensures a == b
  {
    var prefix := "level_";
    assert IntToString(a) == SlotKey(a)[|prefix|..];
    assert IntToString(b) == SlotKey(b)[|prefix|..];
    ParseIntOfIntToString(a);
    ParseIntOfIntToString(b);
  }

  /** Consuming takes one slot of its own level and leaves every other level's count alone. */
  lemma ConsumeSlotCounts(slots: SpellSlots, level: int, other: int)
    requires HasSpellSlot(slots, level)
    ensures CurrentSlots(ConsumeSlot(slots, level).value, level) == CurrentSlots(slots, level) - 1 >= 0
    ensures other != level ==> CurrentSlots(ConsumeSlot(slots, level).value, other) == CurrentSlots(slots, other)
  {
    if other != level && SlotKey(other) == SlotKey(level) {
      SlotKeyInjective(other, level);
    }
  }

  /** A level never defined in the slots dict is never available. */
  lemma UndefinedLevelUnavailable(slots: SpellSlots, level: int)
    requires SlotKey(level) !in slots
    ensures !HasSpellSlot(slots, level) && ConsumeSlot(slots, level).None?
  {
  }

  // ---------------------------------------------------------------- spells

  /** What cast_spell reports, without its text. */
  datatype SpellEffect = Healed | Dealt | UnknownEffect
  datatype CastOutcome =
    | SpellNotFound
    | TargetRequired
    | NoSlot(level: int)
    | InvalidDice
    | Cast(effect: SpellEffect, amount: int)

  /** The dice part of cast_spell: nothing for an empty expression, the rolled value otherwise. */
  function SpellDice(spell: Spell, roll: int): Result<int, DiceError>
  {
    if spell.diceExpression == "" then Ok(0)
    else
      match ParseDice(spell.diceExpression)
      case Err(e) => Err(e)
      case Ok(_) => Ok(roll)
  }

  /**
   * The checks of cast_spell in their order: the spell must exist, a target must be given,
   * a slot of the spell's level must be available and its dice must parse. None: the spell is cast.
   */
  function CastRefusal(spellName: string, hasTarget: bool, slots: SpellSlots, roll: int): (r: Option<CastOutcome>)
    ensures r.Some? ==> !r.value.Cast?
    ensures r.None? || r.value == InvalidDice ==>
      hasTarget && LookupSpell(spellName).Some? && HasSpellSlot(slots, LookupSpell(spellName).value.level)
    ensures r.None? ==> SpellDice(LookupSpell(spellName).value, roll).Ok?
  {
    match LookupSpell(spellName)
    case None => Some(SpellNotFound)
    case Some(spell) =>
      if !hasTarget then Some(TargetRequired)
      else if !HasSpellSlot(slots, spell.level) then Some(NoSlot(spell.level))
      else if SpellDice(spell, roll).Err? then Some(InvalidDice)
      else None
  }

  /** With a target given, a spell of the book is cast exactly when a level-1 slot is left, since its dice always parse. */
  lemma BookSpellCastIffSlot(spellName: string, slots: SpellSlots, roll: int)
    requires LookupSpell(spellName).Some?
    ensures CastRefusal(spellName, true, slots, roll).None? <==> HasSpellSlot(slots, 1)
    ensures !HasSpellSlot(slots, 1) ==> CastRefusal(spellName, true, slots, roll) == Some(NoSlot(1))
  {
    SpellbookDiceParse(spellName, roll);
  }

  /** The ability modifier a spell adds: none when it names no ability. */
  function SpellModifier(scores: map<string, Json>, spell: Spell): int
  {
    match spell.statModifierAbility
    case None => 0
    case Some(ability) => if ability == "" then 0 else AbilityModifier(scores, ability)
  }

  /** max(0, dice + modifier): the amount a spell heals or deals. */
  function SpellAmount(base: int, modifier: int): (r: int)
    ensures r >= 0 && r >= base + modifier
    ensures base + modifier >= 0 ==> r == base + modifier
  {
    if base + modifier > 0 then base + modifier else 0
  }

  /** Both spells in the book have dice the parser accepts. */
  lemma SpellbookDiceParse(name: string, roll: int)
    requires LookupSpell(name).Some?
    ensures SpellDice(LookupSpell(name).value, roll) == Ok(roll)
  {
    StandardDice();
  }

  // ---------------------------------------------------------------- the player

  /** The fields of player_data Player.__init__ reads; None where the key is absent. */
  datatype PlayerData = PlayerData(
    id: Option<string>,
    name: Option<string>,
    maxHp: Option<int>,
    combatStats: Option<map<string, int>>,
    baseDamageDice: Option<string>,
    abilityScores: Option<map<string, Json>>,
    proficiencies: Option<Dict>,
    spellSlots: Option<SpellSlots>,
    equipment: Option<seq<(string, Option<string>)>>)

  /** proficiencies_map['skills'] after __init__ made sure the key exists. */
  function ProficientSkillsOf(data: PlayerData): Json
  {
    match data.proficiencies
    case None => JArray([])
    case Some(d) => Lookup(d, "skills").GetOr(JArray([]))
  }

  /** One entry of the equipment dict __init__ walks: a falsy id is skipped, a refused item ignored. */
  function EquipEntry(equipment: Equipment, entry: (string, Option<string>)): Equipment
  {
    match entry.1
    case None => equipment
    case Some(id) => if id == "" then equipment else Equip(equipment, id, entry.0).GetOr(equipment)
  }

  /** The equipment after __init__ walked the entries in order. */
  function EquipAll(equipment: Equipment, entries: seq<(string, Option<string>)>): Equipment
  {
    if entries == [] then equipment else EquipAll(EquipEntry(equipment, entries[0]), entries[1..])
  }

  /** Walking the entries keeps the equipment well formed. */
  lemma {:induction false} EquipAllWellEquipped(equipment: Equipment, entries: seq<(string, Option<string>)>)
    requires WellEquipped(equipment)
    ensures WellEquipped(EquipAll(equipment, entries))
  {
    if entries != [] {
      var entry := entries[0];
      if entry.1.Some? && entry.1.value != "" {
        EquipAccepts(equipment, entry.1.value, entry.0);
      }
      EquipAllWellEquipped(EquipEntry(equipment, entry), entries[1..]);
    }
  }

  class Player {
    const character: Character
    const abilityScores: map<string, Json>
    const proficientSkills: Json
    const baseArmorClass: int
    var spellSlots: SpellSlots
    var equipment: Equipment
    var inventory: seq<string>

    ghost predicate Valid()
      reads this, character
    {
      character.Valid() && WellEquipped(equipment)
    }

    /** The Player part of __init__ around an already built Character: empty slots and inventory. */
    constructor(character: Character, abilityScores: map<string, Json>, proficientSkills: Json, spellSlots: SpellSlots)
      requires character.Valid()
      ensures Valid()
      ensures this.character == character && this.abilityScores == abilityScores
      ensures this.proficientSkills == proficientSkills && this.spellSlots == spellSlots
      ensures baseArmorClass == character.Stat("armor_class", 10)
      ensures equipment == NoEquipment && inventory == []
    {
      this.character := character;
      this.abilityScores := abilityScores;
      this.proficientSkills := proficientSkills;
      this.spellSlots := spellSlots;
      baseArmorClass := character.Stat("armor_class", 10);
      equipment := NoEquipment;
      inventory := [];
    }

    /**
     * Player(player_data, equipment_data): the defaults for missing keys, the Character
     * checks, then every entry of equipment_data (or of player_data's "equipment") equipped in order.
     */
    static method Create(data: PlayerData, equipmentData: Option<seq<(string, Option<string>)>>)
      returns (r: Result<Player, InitError>)
      ensures r.Err? <==> CheckCharacterArgs(data.id.GetOr("default_player_id"), data.name.GetOr("Player"),
        data.maxHp.GetOr(10), data.baseDamageDice.GetOr("1d4")).Some?
      ensures r.Err? ==> CheckCharacterArgs(data.id.GetOr("default_player_id"), data.name.GetOr("Player"),
        data.maxHp.GetOr(10), data.baseDamageDice.GetOr("1d4")) == Some(r.error)
      ensures r.Ok? ==> (fresh(r.value) && fresh(r.value.character) && r.value.Valid()
        && r.value.character.id == data.id.GetOr("default_player_id")
        && r.value.character.name == data.name.GetOr("Player")
        && r.value.character.currentHp == r.value.character.maxHp == data.maxHp.GetOr(10)
        && r.value.character.combatStats == data.combatStats.GetOr(map[])
        && r.value.character.baseDamageDice == data.baseDamageDice.GetOr("1d4")
        && r.value.character.statusEffects == []
        && r.value.baseArmorClass == r.value.character.Stat("armor_class", 10)
        && r.value.abilityScores == data.abilityScores.GetOr(map[])
        && r.value.proficientSkills == ProficientSkillsOf(data)
        && r.value.spellSlots == data.spellSlots.GetOr(map[])
        && r.value.inventory == []
        && r.value.equipment == EquipAll(NoEquipment,
             if equipmentData.Some? then equipmentData.value else data.equipment.GetOr([])))
    {
      var created := Character.Create(data.id.GetOr("default_player_id"), data.name.GetOr("Player"),
        data.maxHp.GetOr(10), data.combatStats.GetOr(map[]), data.baseDamageDice.GetOr("1d4"));
      if created.Err? {
        return Err(created.error);
      }
      var p := new Player(created.value, data.abilityScores.GetOr(map[]), ProficientSkillsOf(data), data.spellSlots.GetOr(map[]));
      p.EquipEach(if equipmentData.Some? then equipmentData.value else data.equipment.GetOr([]));
      return Ok(p);
    }

    /** The loop of __init__ over the equipment entries, each equipped in turn; refused entries are skipped. */
    method EquipEach(entries: seq<(string, Option<string>)>)
      requires Valid()
      modifies this
      ensures Valid()
      ensures equipment == EquipAll(old(equipment), entries)
      ensures inventory == old(inventory) && spellSlots == old(spellSlots)
    {
      var pending := entries;
      while pending != []
        invariant Valid()
        invariant inventory == old(inventory) && spellSlots == old(spellSlots)
        invariant EquipAll(equipment, pending) == EquipAll(old(equipment), entries)
        decreases |pending|
      {
        var slot, item := pending[0].0, pending[0].1;
        if item.Some? && item.value != "" {
          var _ := EquipItem(item.value, slot);
        }
        pending := pending[1..];
      }
    }

    /** equip_item: False and no change for an unknown item, an unknown slot or a type the slot does not take. */
    method EquipItem(itemId: string, slot: string) returns (ok: bool)
      requires Valid()
      modifies this
      ensures Valid()
      ensures ok <==> Equip(old(equipment), itemId, slot).Some?
      ensures equipment == Equip(old(equipment), itemId, slot).GetOr(old(equipment))
      ensures inventory == old(inventory) && spellSlots == old(spellSlots)
    {
      EquipAccepts(equipment, itemId, slot);
      var itemData := LoadItem(itemId);
      if itemData.None? {
        return false;
      }
      if slot !in equipment {
        return false;
      }
      var itemType := itemData.value.itemType;
      if slot == "weapon" && itemType != "weapon" {
        return false;
      }
      if slot == "armor" && itemType != "armor" {
        return false;
      }
      if slot == "shield" && itemType != "shield" {
        return false;
      }
      equipment := equipment[slot := Some(itemId)];
      return true;
    }

    /** unequip_item: None for an unknown slot, else the slot's id, the slot being emptied. */
    method UnequipItem(slot: string) returns (itemId: Option<string>)
      requires Valid()
      modifies this
      ensures Valid()
      ensures (equipment, itemId) == Unequip(old(equipment), slot)
      ensures inventory == old(inventory) && spellSlots == old(spellSlots)
    {
      UnequipKeepsWellEquipped(equipment, slot);
      if slot !in equipment {
        return None;
      }
      itemId := equipment[slot];
      if itemId.Some? && itemId.value != "" {
        equipment := equipment[slot := None];
      }
    }

    /** get_effective_armor_class: the base armour class plus what armour and shield add. */
    function EffectiveArmorClass(): (r: int)
      reads this
      ensures baseArmorClass <= r <= baseArmorClass + 4
    {
      ArmorAcBonusRange(equipment);
      baseArmorClass + ArmorAcBonus(equipment)
    }

    /** add_to_inventory: ValueError (ok false) for a blank name, else the name goes last. */
    method AddToInventory(itemName: string) returns (ok: bool)
      requires Valid()
      modifies this
      ensures Valid()
      ensures ok <==> !AllSpace(itemName)
      ensures inventory == if ok then old(inventory) + [itemName] else old(inventory)
      ensures equipment == old(equipment) && spellSlots == old(spellSlots)
    {
      StripEmptyIffAllSpace(itemName);
      if Strip(itemName) == [] {
        return false;
      }
      inventory := inventory + [itemName];
      return true;
    }

    /** remove_from_inventory: the first occurrence goes; False when there is none. */
    method RemoveFromInventory(itemName: string) returns (removed: bool)
      requires Valid()
      modifies this
      ensures Valid()
      ensures removed <==> itemName in old(inventory)
      ensures inventory == RemoveFirst(old(inventory), itemName)
      ensures equipment == old(equipment) && spellSlots == old(spellSlots)
    {
      removed := itemName in inventory;
      inventory := RemoveFirst(inventory, itemName);
    }

    /** consume_spell_slot: one fewer current slot of the level, or False with no change. */
    method ConsumeSpellSlot(level: int) returns (consumed: bool)
      requires Valid()
      modifies this
      ensures Valid()
      ensures consumed <==> HasSpellSlot(old(spellSlots), level)
      ensures spellSlots == ConsumeSlot(old(spellSlots), level).GetOr(old(spellSlots))
      ensures equipment == old(equipment) && inventory == old(inventory)
    {
      var key := SlotKey(level);
      if HasSpellSlot(spellSlots, level) {
        if key in spellSlots && "current" in spellSlots[key] {
          spellSlots := spellSlots[key := spellSlots[key]["current" := spellSlots[key]["current"] - 1]];
          return true;
        } else {
          return false;
        }
      }
      return false;
    }

    /**
     * cast_spell with the dice already rolled: an unknown spell, a missing target and a
     * missing slot change nothing; a slot is spent before the dice are parsed; the spell
     * then heals or damages its target by max(0, roll + modifier).
     */
    method CastSpell(spellName: string, target: Option<Character>, roll: int) returns (outcome: CastOutcome)
      requires Valid() && (target.Some? ==> target.value.Valid())
      modifies this, if target.Some? then {target.value} else {}
      ensures Valid() && (target.Some? ==> target.value.Valid())
      ensures LookupSpell(spellName).None? ==> outcome == SpellNotFound
      ensures LookupSpell(spellName).Some? && target.None? ==> outcome == TargetRequired
      ensures outcome.Cast? ==> LookupSpell(spellName).Some? && target.Some? && SpellDice(LookupSpell(spellName).value, roll).Ok?
      ensures outcome.Cast? ==> (outcome.amount ==
        SpellAmount(SpellDice(LookupSpell(spellName).value, roll).value, SpellModifier(abilityScores, LookupSpell(spellName).value)))
      ensures CastRefusal(spellName, target.Some?, old(spellSlots), roll).Some? ==>
        outcome == CastRefusal(spellName, target.Some?, old(spellSlots), roll).value
      ensures CastRefusal(spellName, target.Some?, old(spellSlots), roll).None? ==> outcome.Cast?
      ensures outcome.Cast? && LookupSpell(spellName).value.effectType == "heal" ==>
        (outcome.effect == Healed && target.value.currentHp == AfterHeal(old(target.value.currentHp), target.value.maxHp, outcome.amount))
      ensures outcome.Cast? && LookupSpell(spellName).value.effectType == "damage" ==>
        (outcome.effect == Dealt && target.value.currentHp == AfterDamage(old(target.value.currentHp), outcome.amount))
      ensures !outcome.Cast? ==> character.currentHp == old(character.currentHp)
      ensures target.Some? ==> target.value.statusEffects == old(target.value.statusEffects)
      ensures !outcome.Cast? && target.Some? ==> target.value.currentHp == old(target.value.currentHp)
      ensures outcome == SpellNotFound || outcome == TargetRequired || outcome.NoSlot? ==> spellSlots == old(spellSlots)
      ensures outcome == InvalidDice || outcome.Cast? ==>
        ConsumeSlot(old(spellSlots), LookupSpell(spellName).value.level) == Some(spellSlots)
      ensures equipment == old(equipment) && inventory == old(inventory)
    {
      var found := LookupSpell(spellName);
      if found.None? {
        return SpellNotFound;
      }
      var spell := found.value;
      if spell.targetType == "self" {
        // No spell in the book targets its caster.
        assert false;
      }
      if target.None? {
        return TargetRequired;
      }
      var actualTarget := target.value;
      if !HasSpellSlot(spellSlots, spell.level) {
        return NoSlot(spell.level);
      }
      var consumed := ConsumeSpellSlot(spell.level);
      var base := SpellDice(spell, roll);
      if base.Err? {
        return InvalidDice;
      }
      var amount := SpellAmount(base.value, SpellModifier(abilityScores, spell));
      if spell.effectType == "heal" {
        var _ := actualTarget.Heal(amount);
        return Cast(Healed, amount);
      } else if spell.effectType == "damage" {
        var _ := actualTarget.TakeDamage(amount);
        return Cast(Dealt, amount);
      }
      return Cast(UnknownEffect, amount);
    }
  }

  /** game_state.py's NPC: a Character with an optional dialogue tree. */
  class Npc {
    const character: Character
    const dialogueResponses: Option<Dict>

    constructor(character: Character, dialogueResponses: Option<Dict>)
      ensures this.character == character && this.dialogueResponses == dialogueResponses
    {
      this.character := character;
      this.dialogueResponses := dialogueResponses;
    }

    /** get_dialogue_node: None without a dialogue tree or without the key, else the node under the key. */
    function DialogueNode(key: string): (r: Option<Json>)
      ensures dialogueResponses.None? ==> r.None?
      ensures dialogueResponses.Some? ==> (r.None? <==> key !in Keys(dialogueResponses.value))
      ensures r.Some? ==> (key, r.value) in dialogueResponses.value
    {
      match dialogueResponses
      case None => None
      case Some(d) =>
        if Lookup(d, key).Some? then LookupIn(d, key); Lookup(d, key) else None
    }
  }
}
