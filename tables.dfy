// The fixed game tables the combat code consults: the skill-to-ability map and
// proficiency bonus of utils.py, and the spellbook of magic.py.

module Tables {
  import opened Wrappers

  /** SKILL_ABILITY_MAP: the ability whose modifier a skill check adds. */
  const SkillAbilityMap: map<string, string> := map[
    "athletics" := "strength",
    "acrobatics" := "dexterity",
    "slight_of_hand" := "dexterity",
    "stealth" := "dexterity",
    "arcana" := "intelligence",
    "history" := "intelligence",
    "investigation" := "intelligence",
    "nature" := "intelligence",
    "religion" := "intelligence",
    "animal_handling" := "wisdom",
    "insight" := "wisdom",
    "medicine" := "wisdom",
    "perception" := "wisdom",
    "survival" := "wisdom",
    "deception" := "charisma",
    "intimidation" := "charisma",
    "performance" := "charisma",
    "persuasion" := "charisma"
  ]

  const ProficiencyBonus: int := 2

  /** SKILL_ABILITY_MAP.get(skill) */
  function SkillAbility(skill: string): Option<string>
  {
    if skill in SkillAbilityMap then Some(SkillAbilityMap[skill]) else None
  }

  /** A Spell of magic.py, without the fields only messages use (casting time, range). */
  datatype Spell = Spell(
    name: string,
    level: int,
    targetType: string,
    effectType: string,
    diceExpression: string,
    statModifierAbility: Option<string>)

  const CureLightWounds: Spell := Spell("Cure Light Wounds", 1, "ally", "heal", "1d4", Some("wisdom"))
  const FireBolt: Spell := Spell("Fire Bolt", 1, "enemy", "damage", "1d6", None)

  /** SPELLBOOK, keyed by spell name. */
  const Spellbook: map<string, Spell> := map["Cure Light Wounds" := CureLightWounds, "Fire Bolt" := FireBolt]

  /** SPELLBOOK.get(name) */
  function LookupSpell(name: string): (r: Option<Spell>)
    ensures r.Some? <==> name == "Cure Light Wounds" || name == "Fire Bolt"
    ensures r.Some? ==> r.value.name == name && r.value.level == 1
  {
    if name in Spellbook then Some(Spellbook[name]) else None
  }

  /** Every spell in the book has a name of more than one word. */
  lemma SpellNamesHaveSpaces(name: string)
    requires LookupSpell(name).Some?
    ensures ' ' in name
  {
    if name == "Cure Light Wounds" {
      assert name[4] == ' ';
    } else {
      assert name[4] == ' ';
    }
  }
}
