# A verified model of a text RPG's combat engine

The repository is a Python text role-playing game. A language model plays the dungeon
master, and the game keeps the rules state itself. This project models that rules state
in Dafny:

- the combatants: a `Character` with hit points and a status-effect list, and the
  `Player` and `NPC` built on it (game_state.py);
- the attack: the hit rule, the damage-dice parse, damage and the poison chance;
- equipment, armour class, weapon stats, ability modifiers, skill checks, spell slots
  and spell casting;
- `determine_initiative`;
- the combat session of combat_system.py: `start_combat`, `process_combat_turn` and
  `check_combat_end_condition` on the four combat fields of `PlayerState`;
- the refactored copy in characters.py: dice with a `+M`/`-M` modifier, equipment that
  swaps items with the inventory, currency, the quest lifecycle, rewards and faction
  reputation;
- the item constructors of items.py;
- the pure parts of monster_generator.py: path lookup, attribute selection, names,
  descriptions and the additive combat stats;
- the document helpers of rag_system_simulation.py (dot paths, filtering, text extraction);
- `retrieve_context` of rag_manager.py.

Each module has a file:

| file | module | what it holds |
|---|---|---|
| wrappers.dfy | Wrappers | `Option` and `Result` |
| json.dfy | Json | loaded JSON values; dicts in insertion order; Python `==`, `in`, `+`, `*`, `int()` and truthiness |
| pytext.dfy | PyText | `str.lower`, `strip`, `split`, `join`, `title`, `in`, `int()` and `str()` on text |
| pylist.dfy | PyList | `list.remove` |
| hit_points.dfy | HitPoints | damage and healing arithmetic |
| status_effects.dfy | StatusEffects | the status-effect list as values; the tick as a function |
| combatants.dfy | Combatants | class `Character`, whose methods update hit points and effects in place |
| tables.dfy | Tables | `SKILL_ABILITY_MAP`, `PROFICIENCY_BONUS` and `SPELLBOOK` |
| dice.dfy | Dice | both damage-dice parsers |
| attack.dfy | Attacks | `Character.attack` of game_state.py |
| initiative.dfy | Initiative | `determine_initiative` |
| game_state.dfy | GameState | `ITEM_DATABASE`, classes `Player` and `Npc` of game_state.py |
| commands.dfy | Commands | reading the player's typed command |
| combat_system.dfy | CombatSystem | class `PlayerState` and the combat session |
| items.dfy | Items | the item constructors |
| characters.dfy | Characters | characters.py's `Player` and its attack |
| monster_generator.dfy | MonsterGenerator | monster composition |
| rag_simulation.dfy | RagSimulation | rag_system_simulation.py |
| rag_manager.dfy | RagManager | rag_manager.py |

## How the model is built

**Classes and values.** Code that updates objects in place is modelled as Dafny classes:
`Character`, `Player`, `PlayerState`, and characters.py's `Player`. Their methods have
`modifies` clauses. Each method is proved against a function on values. For example,
`TickStatusEffects` is proved against `StatusEffects.Tick`, and `EquipItem` against
`Characters.EquipSpec`. The properties the game relies on are then proved as lemmas
about those functions.

**Inheritance.** Python's `Player(Character)` and `NPC(Character)` become composition.
The `Player` and `Npc` classes each hold a `Character`. A fight's participant is the
datatype `Combatant = PlayerC(Player) | NpcC(Npc)`.

**Randomness.** Dice rolls, `random.randint` and `random.choice` are parameters:
- the d20;
- the damage roll;
- the poison percentile;
- one initiative roll per participant;
- the attribute picks.

**Exceptions.** Every exception the model covers becomes a `Result`, an `Option` or an
outcome datatype. The `AttributeError` that three quest operations raise after changing the
log is modelled only in their as-written versions (see Findings); the `Player` methods
follow the intended reading.

**Messages.** A message string becomes a datatype constructor that names its kind. The
exact wording is not modelled.

## Model

| member | source | states |
|---|---|---|
| HitPoints.AfterDamage | game_state.py:98-115 | hit points drop by the amount and never below 0 |
| HitPoints.AfterHeal | game_state.py:118-135 | hit points rise by the amount and never above max_hp |
| HitPoints.HealUndoesDamage | game_state.py:98-135 | healing the damage just taken restores the hit points, unless the damage bottomed out |
| HitPoints.DamageMonotone | game_state.py:110-115 | more damage never leaves more hit points |
| HitPoints.DamageAdds | game_state.py:110-115 | two hits leave the same hit points as one hit of their sum |
| StatusEffects.Find | game_state.py:69-72 | the lookup by name finds an effect of that name exactly when the list has one |
| StatusEffects.AddOrRefreshShape | game_state.py:67-75 | a present name keeps its position and the list keeps its length; an absent name is appended at the end |
| StatusEffects.FindAfterAdd | game_state.py:67-75 | after adding, the name has exactly the new duration and potency |
| StatusEffects.FindOtherAfterAdd | game_state.py:67-75 | adding one name leaves every other name's effect unchanged |
| StatusEffects.AddOrRefreshKeepsUnique | game_state.py:67-75 | adding never creates a second entry for a name |
| StatusEffects.RemoveNamed | game_state.py:77-79 | the result keeps only effects of other names, taken from the list |
| StatusEffects.RemoveAbsent | game_state.py:77-79 | removing an absent name changes nothing |
| StatusEffects.RemoveTheOne | game_state.py:77-79 | with unique names, removing drops exactly the one effect and keeps the rest in order |
| StatusEffects.FindAfterRemove | game_state.py:77-79 | after removal the name is gone and every other name keeps its effect |
| StatusEffects.Survivors | game_state.py:92-95 | every surviving effect has a duration of at least 1 |
| StatusEffects.TickWithoutPoison | game_state.py:81-96 | without poison a tick never stops early: hit points are unchanged, every effect ages, and expired effects go with their messages |
| StatusEffects.TickShape | game_state.py:81-96 | the processed front is aged and the rest is untouched; the tick stops only at a poison effect, which is neither decremented nor removed |
| StatusEffects.TickHitPoints | game_state.py:81-96 | a tick only loses hit points, never below 0, and a death leaves exactly 0 |
| StatusEffects.SurvivorsKeepUnique | game_state.py:92-95 | ageing keeps names unique |
| StatusEffects.TickKeepsUnique | game_state.py:81-96 | a tick keeps names unique |
| StatusEffects.ThreePoisonTicks | game_state.py:81-96 | poison with potency 2 for 3 turns takes 10 hit points to 4 and then expires |
| Combatants.CheckCharacterArgsAccepts | game_state.py:48-57 | the arguments are accepted exactly when id, name and dice each contain a non-space character and max_hp is positive |
| Combatants.Character.constructor | game_state.py:35-65 | a new character is at full health with no effects |
| Combatants.Character.Create | game_state.py:35-65 | the ValueError cases are exactly the failed checks, in order |
| Combatants.Character.TakeDamage | game_state.py:98-115 | a negative amount is refused with no change; otherwise hit points become AfterDamage |
| Combatants.Character.Heal | game_state.py:118-135 | a negative amount is refused with no change; otherwise hit points become AfterHeal |
| Combatants.Character.AddStatusEffect | game_state.py:67-75 | the list becomes AddOrRefresh; the result says whether an effect was refreshed |
| Combatants.Character.RemoveStatusEffect | game_state.py:77-79 | the list becomes RemoveNamed |
| Combatants.Character.TickStatusEffects | game_state.py:81-96 | the loop's final hit points, effects and messages are those of the Tick function |
| Combatants.RemoveKeepsUnique | game_state.py:77-79 | removing a name keeps the other names unique |
| Tables.LookupSpell | magic.py:12-36 | exactly the two spellbook names are found, both at level 1 |
| Tables.SpellNamesHaveSpaces | magic.py:12-36 | every spellbook name has more than one word |
| Dice.CheckPositive | game_state.py:255-256 | dice are accepted exactly when count and sides are both positive |
| Dice.ParseDice | game_state.py:198-259 | every accepted parse has a positive count and positive sides |
| Dice.ParseDiceOfFormat | game_state.py:244-252 | "XdY" with X and Y positive parses back to (X, Y) |
| Dice.ParseDiceSingleDigits | game_state.py:244-252 | "1d6" and other single-digit dice are read as written |
| Dice.StandardDice | game_state.py:8-29 | the dice of the item database and spellbook parse |
| Dice.ParseDiceOfBareNumber | game_state.py:236-241 | a bare number Y is read as 1dY, and a bare 0 is rejected |
| Dice.ParseDiceOfMissingCount | game_state.py:248-249 | "dY" defaults the count to 1 |
| Dice.ParseDiceMissingSides | game_state.py:246-247 | "Xd" and "d" fail for missing sides |
| Dice.ParseDiceIgnoresCase | game_state.py:202 | the parse ignores letter case |
| Dice.CheckPositiveModified | characters.py:104-105 | modified dice are accepted exactly when count and sides are positive |
| Dice.ParseModifiedDice | characters.py:75-111 | every accepted parse has a positive count and positive sides |
| Dice.ParseModifiedDiceOfFormat | characters.py:94-103 | "XdY+M" reads back (X, Y, M) and "XdY-M" reads back (X, Y, -M) |
| Dice.ParsersAgreeWithoutModifier | characters.py:75-111 | without a sign, the characters.py parse accepts exactly what the game_state.py parse accepts, with the same result |
| Attacks.DamageOf | game_state.py:263-264 | damage is roll + bonus, floored at 0 |
| Attacks.Attack | game_state.py:147-289 | attacking oneself or missing changes nothing; a hit means d20 + bonus >= AC; unparsable dice raise before any damage; a hit deals DamageOf, and a surviving target is poisoned (3 turns, potency 2) when the percentile is 10 or less |
| Attacks.PlayerAttackNeverRaises | game_state.py:179-181 | a Player's weapon dice always parse |
| Initiative.EntriesFromAt | game_state.py:848-854 | row k holds participant k's id and roll + initiative_bonus (default 0) |
| Initiative.RankedProperties | game_state.py:832-862 | the ranking holds every row exactly once, higher totals first, and ties in input order |
| Initiative.RollInitiative | game_state.py:848-854 | the loop builds exactly the rows, in input order |
| Initiative.SortDescending | game_state.py:860 | the sort is the stable descending insertion sort |
| Initiative.InsertRow | game_state.py:860 | one stable descending insertion |
| Initiative.DetermineInitiative | game_state.py:832-862 | the ids of the ranked rows; empty input gives [] |
| Initiative.InitiativeIsPermutation | game_state.py:832-862 | the order is a permutation of the participant ids |
| Commands.CastRequestAsWritten | combat_system.py:171-183 | the as-written parse never yields a target |
| Commands.AsWrittenCastNeverFindsSpell | combat_system.py:171-183 | the single-word spell name built as written is never in the spellbook |
| Commands.CastRequestSplitsAtOn | combat_system.py:171-187 | "<spell words> on <target words>" gives back the spell (title-cased) and the target |
| Commands.CastFireBoltOnGoblin | combat_system.py:171-187 | "cast fire bolt on goblin" finds Fire Bolt and targets goblin |
| Commands.CastFireAsWritten | combat_system.py:171-183 | as written, the same command looks up "Fire" with no target |
| Commands.CastRequestWithoutOn | combat_system.py:171-183 | with no "on", the whole text is the spell name and there is no target |
| Commands.ParseCommand | combat_system.py:140-147 | an empty action is a prompt; a non-empty all-space action is the IndexError case; a cast request is read as CastRequestOf, the intended reading (see Findings), which the turn engine then follows |
| Commands.ParseCommandByFirstWord | combat_system.py:145-214 | for a non-blank action, the lower-cased first word picks attack, cast or pass, any other word is an unknown command, and the second word as typed (attack) or the words after the first (cast) are the argument, missing when there is no second word |
| Commands.ParseAttack | combat_system.py:145-152 | the lower-cased first word selects the command; the second word as typed is the target |
| GameState.LoadItem | game_state.py:346-350 | an item loads exactly when its id is in ITEM_DATABASE, and the entry comes back |
| GameState.EquipAccepts | game_state.py:352-382 | equipping succeeds exactly for a database item of the slot's type, and puts it in that slot |
| GameState.UnequipAfterEquip | game_state.py:384-398 | unequipping what was just equipped returns its id and empties the slot |
| GameState.UnequipKeepsWellEquipped | game_state.py:384-398 | unequipping returns what the slot held and keeps every slot well-typed |
| GameState.ArmorAcBonusRange | game_state.py:417-437 | nothing equipped adds 0; any equipment adds between 0 and 4 |
| GameState.ArmorAcBonusAfterEquip | game_state.py:417-437 | equipping armour or a shield swaps that slot's share of the bonus; other slots leave it unchanged |
| GameState.WeaponStatsOfSlot | game_state.py:400-415 | the weapon slot alone decides the stats; an empty slot gives 1d4 with no bonuses |
| GameState.WeaponDiceParse | game_state.py:400-415 | any equipped weapon's dice parse |
| GameState.AbilityModifier | game_state.py:465-482 | floor((score - 10) / 2), or 0 for a missing or non-int score |
| GameState.AbilityModifierMonotone | game_state.py:465-482 | a higher score never gives a lower modifier; 10 and 11 give 0 |
| GameState.PerformSkillCheck | game_state.py:484-532 | total = d20 + the skill's ability modifier + 2 if proficient; success exactly when total >= DC |
| GameState.SkillCheckProperties | game_state.py:484-532 | proficiency adds exactly 2; a better roll never turns a success into a failure |
| GameState.ConsumeSlot | game_state.py:543-558 | a slot is consumed exactly when one is available |
| GameState.ConsumeSlotCounts | game_state.py:543-558 | consuming takes one slot of its own level and leaves the other levels alone |
| GameState.UndefinedLevelUnavailable | game_state.py:534-541 | an undefined level is never available or consumed |
| GameState.SpellAmount | game_state.py:651 | the spell amount is dice + modifier, floored at 0 |
| GameState.SpellbookDiceParse | game_state.py:615-642 | both spells' dice parse |
| GameState.EquipAllWellEquipped | game_state.py:337-343 | equipping the initial entries keeps every slot well-typed |
| GameState.Player.constructor | game_state.py:297-345 | slots empty, inventory empty, base AC = armor_class (default 10) |
| GameState.Player.Create | game_state.py:297-345 | the constructor fails exactly for the Character checks on the defaulted fields, with that error; otherwise the Player has the defaulted id, name, full max hp, combat stats and base damage dice, no effects, base AC = combat_stats["armor_class"] (default 10), the given scores, skills and slots, an empty inventory, and the equipment entries equipped in order |
| GameState.Player.EquipEach | game_state.py:337-343 | equipment becomes EquipAll of the entries |
| GameState.Player.EquipItem | game_state.py:352-382 | returns True exactly when Equip succeeds; the equipment is Equip's result, or unchanged |
| GameState.Player.UnequipItem | game_state.py:384-398 | equipment and the returned id are Unequip's |
| GameState.Player.EffectiveArmorClass | game_state.py:439-444 | base AC plus the armour bonus, between base and base + 4 |
| GameState.Player.AddToInventory | game_state.py:446-463 | a blank name is refused; otherwise the name goes last |
| GameState.Player.RemoveFromInventory | game_state.py:560-583 | the first occurrence goes; returns False exactly when the name is absent |
| GameState.Player.ConsumeSpellSlot | game_state.py:543-558 | the slots become ConsumeSlot's result, or are unchanged |
| GameState.Player.CastSpell | game_state.py:585-688 | the outcome is CastRefusal's refusal when there is one, and a cast exactly when there is none; only a cast changes hit points, healing or dealing max(0, roll + modifier) through heal or take_damage; a slot of the spell's level is spent exactly for a cast or a dice error, since it is consumed before the dice are parsed; effects, equipment and inventory are kept |
| GameState.CastRefusal | game_state.py:590-638 | the first refusal in cast_spell's order: unknown spell, missing target, no slot of the spell's level, dice that do not parse; no refusal only for a known spell with a target, a slot and dice that parse |
| GameState.BookSpellCastIffSlot | game_state.py:604-607 | with a target, a spellbook spell is cast exactly when a level-1 slot is left, and otherwise refused for want of a level-1 slot |
| GameState.Npc.constructor | game_state.py:694-707 | the NPC keeps its Character and dialogue tree |
| GameState.Npc.DialogueNode | game_state.py:709-724 | None without a tree or without the key; otherwise the node under the key |
| CombatSystem.FindById | combat_system.py:75 | the first participant with the id, or None when there is none |
| CombatSystem.FindTarget | combat_system.py:153-154 | the first living participant whose name matches ignoring case, or None |
| CombatSystem.IndexOf | combat_system.py:81 | the first position of the id |
| CombatSystem.NextTurn | combat_system.py:236-240 | the next id exists exactly when the id is in the turn order |
| CombatSystem.NextTurnOfDistinct | combat_system.py:236-240 | the turn passes from position i to (i + 1) mod n |
| CombatSystem.Lineup | combat_system.py:30-31 | participants are [player] + npcs |
| CombatSystem.TurnOrderOf | combat_system.py:33-35 | determine_initiative of a non-empty lineup is non-empty |
| CombatSystem.AdvanceOf | combat_system.py:236-253 | advancing succeeds exactly when the id is in the order, to the id NextTurn gives |
| CombatSystem.PlayerState.constructor | game_state.py:730-755 | no combat, no dialogue |
| CombatSystem.PlayerState.StartDialogue | game_state.py:757-760 | sets the dialogue NPC and key; the combat fields are untouched |
| CombatSystem.PlayerState.EndDialogue | game_state.py:762-769 | clears the dialogue; the combat fields are untouched |
| CombatSystem.PlayerState.StartCombat | combat_system.py:19-61 | in combat; participants = [player] + npcs; the turn order is the initiative order; its first id moves first |
| CombatSystem.PlayerState.CheckCombatEndCondition | combat_system.py:258-290 | outside combat, already over; player defeat is checked before NPC defeat; all NPCs down needs a non-empty list; an ending clears the four fields, and otherwise nothing changes |
| CombatSystem.PlayerState.AdvanceTurn | combat_system.py:236-253 | moves to the next id, or stops the combat when index() raises |
| CombatSystem.PlayerState.NpcTurn | combat_system.py:217-230 | reports the player down exactly when the player was already dead; otherwise the NPC attacks the player as Attacks.Attack decides (hit iff the d20 plus its attack bonus meets the player's AC, the damage through take_damage), raising only when its damage dice do not parse; only the player can change |
| CombatSystem.PlayerState.PlayerAttack | combat_system.py:149-166 | an unknown or dead target is refused and naming oneself declines, both changing nothing; otherwise the attack on the target found is decided as Attacks.Attack says (hit iff the d20 plus the attack bonus meets its AC, damage through take_damage), a miss changes nothing, it never raises, and no other participant changes |
| CombatSystem.Strike | combat_system.py:158-160 | a Player's attack on another participant is decided by the hit rule, lands its damage and poison on a hit, changes nothing on a miss, and never raises |
| CombatSystem.PlayerState.AttackParticipant | combat_system.py:158-160 | the Player's attack on another participant, as Strike, keeping every participant valid and the session's player unchanged unless it is the target |
| CombatSystem.PlayerState.PlayerCast | combat_system.py:167-206 | a named target that is not found alive is refused; otherwise the cast is refused exactly when CastRefusal gives a refusal (a slot spent only on a dice error), and when there is none the spell lands on its target (the caster for self spells) with max(0, roll + modifier) healed or dealt, spends its slot and takes the turn; nothing else changes |
| CombatSystem.PlayerState.PlayerTurn | combat_system.py:139-214 | an empty action prompts, a blank one raises, usage errors and unknown commands are refused and pass passes; an attack does what PlayerAttack states and a cast what PlayerCast states (AttackDone, CastDone); no participant changes except the one the action touched |
| CombatSystem.PlayerState.TickParticipant | combat_system.py:94-99 | the participant's hit points, effects and messages become StatusEffects.Tick's; no other participant, no equipment and no combat number changes |
| CombatSystem.PlayerState.ProcessCombatTurn | combat_system.py:63-256 | nothing happens outside a ready combat; a missing participant hands the turn on or stops the combat; otherwise the turn is as Turn says, and the participant ends with the hit points and effects its tick left unless its own spell landed on it |
| CombatSystem.PlayerState.TakeTurn | combat_system.py:92-256 | effects tick first and the participant ends with the hit points and effects the tick left, unless its own spell landed on it; a participant dead after the tick hands the turn on; only an action, never a prompt, refusal or error, hands the turn on |
| CombatSystem.PlayerState.AfterTick | combat_system.py:102-256 | after the tick: a tick error escapes, a dead participant hands the turn on, and a living one acts as Act states |
| CombatSystem.PlayerState.Act | combat_system.py:136-256 | the living participant's action and the turn's passing, as ActPlayer or ActNpc states |
| CombatSystem.PlayerState.ActPlayer | combat_system.py:139-256 | the result is as Turn says, and the Characters change as TurnEffects says: an attack as AttackDone, a cast as CastDone, nothing else touched |
| CombatSystem.PlayerState.PlayerAction | combat_system.py:139-214 | the command's result as PlayerTurn states, with the effects TurnEffects states |
| CombatSystem.PlayerState.ActNpc | combat_system.py:217-256 | the result is as Turn says, and the NPC's attack changes the player as NpcDone says and nothing else |
| CombatSystem.PlayerState.Conclude | combat_system.py:232-255 | a refusal or error keeps the turn; a prompt stays; any other action advances |
| Items.OrDefault | items.py:14-15 | the given value, or the default for None |
| Items.NewItem | items.py:5-15 | ValueError for a non-str or empty id, then for the name; value and lore_keywords take their defaults |
| Items.NewWeapon | items.py:20-28 | the Item checks, then non-empty damage_dice; the type is "weapon" |
| Items.NewArmor | items.py:34-40 | the Item checks, then an int ac_bonus; the type is "armor" |
| Items.NewConsumable | items.py:46-50 | the Item checks, then effects must be a list; the type is "consumable" |
| Items.NewKeyItem | items.py:56-60 | the Item checks; unlocks defaults to [] |
| Characters.GetItem | characters.py:153-158 | an empty id or an id missing from the registry gives None; otherwise the registry item |
| Characters.Displaced | characters.py:177-179 | only a different previous item goes back to the inventory |
| Characters.EquipRefusals | characters.py:160-184 | refusals are exactly the three checks, and only a successful equip changes anything |
| Characters.EquipMovesItems | characters.py:172-184 | the item takes the slot; items move between slot and inventory without any being created or lost |
| Characters.EquipThenUnequip | characters.py:160-196 | equipping and then unequipping restores the inventory, plus what the slot held |
| Characters.WeaponStatsOfSlot | characters.py:198-204 | a Weapon in the slot gives its stats; with none, base_damage_dice and no bonuses |
| Characters.ArmorBonusAfterEquip | characters.py:206-217 | equipping replaces that slot's share of the bonus with the item's ac_bonus |
| Characters.ArmorSlotsSum | characters.py:206-217 | the bonus is the armour's share plus the shield's |
| Characters.MisplacedArmorAddsNothing | characters.py:206-217 | a shield in the armour slot, or body armour in the shield slot, adds 0 |
| Characters.CurrencyAfterProperties | characters.py:286-300 | refused exactly for a gold spend larger than the gold held; otherwise each amount moves by its delta |
| Characters.SpendThenEarn | characters.py:286-300 | spending gold and then earning it back restores the purse |
| Characters.QuestOperationsKeepLogOk | characters.py:500-565 | every quest operation keeps the log consistent |
| Characters.QuestLifecycle | characters.py:500-565 | a completed quest cannot be accepted again; an objective counts once; a quest completes once |
| Characters.AllQuestsRaise | characters.py:500-549 | with quests.py's templates, wherever the intended accept, advance or objective operation succeeds, the one as written makes the same change to the log and then raises AttributeError; its refusals are the same |
| Characters.AcceptFirstQuestRaises | characters.py:500-515 | accepting q001 from an empty log stores it at its stage and raises as written, where the intended operation reports success |
| Characters.AsWrittenWithAttributes | characters.py:500-549 | with templates that define stages and optional objectives, the operations as written are the intended ones |
| Characters.XpReward | characters.py:432-434 | the experience granted is never negative |
| Characters.ItemRewardsAppend | characters.py:435-444 | the items loop raises exactly on a blank string entry, and otherwise appends the string entries in order |
| Characters.CurrencyRewardsOnlyAdd | characters.py:445-452 | the currency loop never lowers or removes a currency |
| Characters.RewardsOnlyAdd | characters.py:430-476 | rewards never take anything away (reputation aside) |
| Characters.ItemRewardsPrefix | characters.py:435-444 | even when it raises, the items loop only appends |
| Characters.Player.constructor | characters.py:132-151 | missing weapon, armour and shield slots are added empty; base AC = armor_class (default 10) |
| Characters.Player.AddToInventory | characters.py:273-277 | a blank id is refused; otherwise the id goes last |
| Characters.Player.RemoveFromInventory | characters.py:278-284 | the first copy goes; returns False exactly when there is none |
| Characters.Player.EquipItem | characters.py:160-184 | slots, inventory and outcome are EquipSpec's |
| Characters.Player.UnequipItem | characters.py:186-196 | slots, inventory and outcome are UnequipSpec's |
| Characters.Player.ArmorAcBonus | characters.py:206-217 | the loop sums the armour and shield slots |
| Characters.Player.EffectiveArmorClass | characters.py:219-220 | base AC plus that sum |
| Characters.Player.ChangeCurrency | characters.py:286-300 | the currency becomes CurrencyAfter's result, or is unchanged |
| Characters.Player.ConsumeSpellSlot | characters.py:420-428 | the same rule as game_state.py's |
| Characters.Player.ChangeFactionReputation | characters.py:478-497 | an empty faction id changes nothing; otherwise the amount is added without a clamp |
| Characters.Player.AcceptQuest | characters.py:500-515 | the quest log becomes AcceptQuestSpec's |
| Characters.Player.AdvanceQuestStage | characters.py:517-531 | the quest log becomes AdvanceQuestSpec's |
| Characters.Player.CompleteOptionalObjective | characters.py:533-549 | the quest log becomes CompleteObjectiveSpec's |
| Characters.Player.CompleteQuest | characters.py:551-565 | the quest log becomes CompleteQuestSpec's |
| Characters.Player.ApplyRewards | characters.py:430-476 | the player's state becomes what Rewards gives |
| Characters.Player.RewardItems | characters.py:435-444 | the items loop, as ItemRewards |
| Characters.Player.RewardCurrency | characters.py:445-452 | the currency loop, as CurrencyRewards |
| Characters.Player.RewardReputations | characters.py:454-473 | the reputation loop, as ReputationRewards |
| Characters.Attack | characters.py:57-129 | as Attacks.Attack, with "+M"/"-M" dice and the fallback weapon |
| Characters.UnarmedDamageDice | characters.py:94-111 | an unarmed Player uses base dice, whose modifier reaches the damage |
| MonsterGenerator.GetNestedValue | monster_generator.py:7-13 | the value at the path, or the default as soon as a step misses |
| MonsterGenerator.ReachesAppend | monster_generator.py:7-13 | a two-leg path is the same as a one-leg path |
| MonsterGenerator.TemplateOf | monster_generator.py:16-21 | a known id gives its template |
| MonsterGenerator.KnownTemplates | monster_generator.py:32-36 | the named known templates, taken from the table |
| MonsterGenerator.KnownTemplatesAllKnown | monster_generator.py:32-36 | known ids give their templates one for one, in order |
| MonsterGenerator.KnownTemplatesAppend | monster_generator.py:32-36 | unknown ids are skipped wherever they stand |
| MonsterGenerator.ListedOnly | monster_generator.py:49 | keeps exactly the templates whose id is listed |
| MonsterGenerator.Eligible | monster_generator.py:49-51 | the listed templates, or all of them when none is listed |
| MonsterGenerator.AttributeCount | monster_generator.py:42-47 | 1, 1 to 2 from difficulty 4, 2 to 3 from difficulty 7 |
| MonsterGenerator.SelectAttributes | monster_generator.py:28-59 | explicit ids give the known templates; random picks are distinct, eligible and no more than asked for |
| MonsterGenerator.NamedAttributes | monster_generator.py:32-36 | the known templates of the ids, in the order named |
| MonsterGenerator.RandomAttributes | monster_generator.py:53-58 | the picks are distinct, eligible, no more than asked for or available, and at least one when any can be taken |
| MonsterGenerator.CollectField | monster_generator.py:79-90 | the values of one key, taken in attribute order from the attributes that have it |
| MonsterGenerator.GenerateName | monster_generator.py:77-92 | prefixes, race name, role name and suffixes, joined by spaces |
| MonsterGenerator.NameSplitsIntoParts | monster_generator.py:77-92 | the name splits back into its parts, and the race name is one of them |
| MonsterGenerator.DescriptionParts | monster_generator.py:94-108 | the race base comes first |
| MonsterGenerator.GenerateDescription | monster_generator.py:94-108 | the base alone, or the base, a space and the fragments |
| MonsterGenerator.DescriptionIsJoin | monster_generator.py:94-108 | the description is all the pieces joined by single spaces |
| MonsterGenerator.WithDefaults | monster_generator.py:111-118 | hp 10, ac 10, attack 0, damage 0, speed 30 where missing |
| MonsterGenerator.CombatStatsOf | monster_generator.py:110-161 | hp and ac leave the dict (ac as armor_class); other keys are kept; dice default to 1d4 |
| MonsterGenerator.AddAttributeModifiers | monster_generator.py:122-135 | each stat gains the sum of all attributes' additions |
| MonsterGenerator.AddRoleModifiers | monster_generator.py:137-156 | each stat gains the role's additions |
| MonsterGenerator.CalculateCombatStats | monster_generator.py:110-161 | the result is CombatStatsOf |
| MonsterGenerator.AttributeOrderIrrelevant | monster_generator.py:122-135 | the order of the attributes does not change the stats |
| MonsterGenerator.DefaultCombatStats | monster_generator.py:111-120 | an empty race gives exactly the defaults |
| RagSimulation.Step | rag_system_simulation.py:50-61 | a dict key, or an in-range int index into a list; anything else misses |
| RagSimulation.StepInto | rag_system_simulation.py:49-61 | one step of the loop takes exactly the Step the path describes |
| RagSimulation.GetNestedValue | rag_system_simulation.py:44-62 | the value at the dot path, or None on a miss |
| RagSimulation.WalkAppend | rag_system_simulation.py:44-62 | walking two legs is walking their concatenation |
| RagSimulation.DotPathComposes | rag_system_simulation.py:44-62 | "a.b" looks up b in what "a" finds |
| RagSimulation.KeyPathIsLookup | rag_system_simulation.py:44-62 | a path with no dot is a plain dict lookup |
| RagSimulation.IndexPathIsItem | rag_system_simulation.py:55-58 | a decimal index reaches into a list |
| RagSimulation.Filtered | rag_system_simulation.py:64-79 | never longer than the input |
| RagSimulation.CheckFilter | rag_system_simulation.py:73-74 | a filter holds exactly when the value at its path equals the expected one |
| RagSimulation.DocumentMatches | rag_system_simulation.py:70-76 | a document matches exactly when every filter path equals its expected value |
| RagSimulation.FilterDocuments | rag_system_simulation.py:64-79 | the result is Filtered |
| RagSimulation.FilteredIsMatchingSubsequence | rag_system_simulation.py:64-79 | a subsequence holding exactly the matching documents |
| RagSimulation.NoFiltersKeepAll | rag_system_simulation.py:64-79 | no filters keep every document |
| RagSimulation.ExtractTextIsStringLeaves | rag_system_simulation.py:81-92 | the texts are exactly the string leaves |
| RagSimulation.ExtractTextOfListAppend | rag_system_simulation.py:86-88 | a list's texts appear in list order |
| RagSimulation.ExtractTextForRag | rag_system_simulation.py:94-107 | the field texts in field order, joined by spaces |
| RagSimulation.AllMissingIsEmpty | rag_system_simulation.py:94-107 | when every field is missing the result is "" |
| RagManager.Entries | rag_manager.py:21 | a missing key iterates nothing |
| RagManager.MatchText | rag_manager.py:27-28 | a missing field matches as "" |
| RagManager.EntryLinesOf | rag_manager.py:21-30 | one entry adds at most its one line |
| RagManager.CollectLines | rag_manager.py:21-42 | each loop appends the lines of its entries to those found so far, or fails where the loop raises |
| RagManager.CollectGroup | rag_manager.py:21-42 | a group that cannot be iterated fails; otherwise its lines are appended |
| RagManager.ContextFor | rag_manager.py:20-47 | NPC lines, then object lines, joined by newlines, or the no-context message |
| RagManager.RetrieveContext | rag_manager.py:5-47 | the answer for the keywords split from the lower-cased input |
| RagManager.LinesAppend | rag_manager.py:21-42 | lines follow entry order |
| RagManager.NonDictSkipped | rag_manager.py:24-26 | a non-dict entry changes nothing |
| RagManager.OneRecord | rag_manager.py:27-30 | a record gives its line exactly when mentioned |
| RagManager.NoKeywordsNoLines | rag_manager.py:18-29 | no keywords give no lines |
| RagManager.NoWordsFindsNothing | rag_manager.py:18-45 | input with no keywords gives the no-context message |
| RagManager.BlankInputFindsNothing | rag_manager.py:18-45 | blank input gives the no-context message |
| RagManager.AnswerJoinsLines | rag_manager.py:44-47 | with some line found, the answer is the NPC lines, then the object lines, joined by newlines |
| PyText.Lower | game_state.py:202 | str.lower keeps the length and lower-cases each character |
| PyText.Strip | game_state.py:459 | str.strip has no whitespace at either end |
| PyText.StripEmptyIffAllSpace | game_state.py:459 | the strip is empty exactly for all-space text |
| PyText.SplitOn | game_state.py:202 | str.split(c) gives at least one piece, none containing c |
| PyText.JoinSplitOn | game_state.py:202 | joining the pieces gives the string back |
| PyText.SplitOnJoin | rag_manager.py:47 | splitting a join of separator-free pieces gives the pieces |
| PyText.Words | rag_manager.py:18 | str.split() gives non-empty words with no whitespace |
| PyText.WordsEmptyIffAllSpace | rag_manager.py:18 | str.split() gives no words exactly for all-space text |
| PyText.WordsOfLower | combat_system.py:143-145 | lower-casing before split() gives as many words, the first of them the first word lower-cased |
| PyText.ContainsIffOccurs | rag_manager.py:29 | `in` means occurs at some position |
| PyText.ParseIntOfIntToString | characters.py:102-103 | int(str(i)) == i |
| PyText.Title | combat_system.py:183 | str.title changes only letters |
| PyList.RemoveFirst | game_state.py:577 | list.remove drops one occurrence |
| PyList.RemoveFirstMultiset | game_state.py:577 | exactly one copy leaves the multiset |
| Json.Lookup | rag_manager.py:27 | dict.get finds exactly the present keys |
| Json.LookupIn | rag_manager.py:27 | a found value is the one paired with its key |
| Json.Set | characters.py:488 | assignment keeps key order; a new key goes last |
| Json.LookupSet | characters.py:488 | a write then a read gives the new value; other keys are untouched |

## Left out

- Randomness: `roll_dice`, `random.randint` and `random.choice` are parameters (the d20, the damage roll, the poison percentile, initiative rolls, attribute picks); no distribution is modelled.
- Floating point: item `weight`, `hp_multiplier` and the monster's `threat_level`.
- Message text: messages are datatype kinds. `notify_dm_event` (combat_system.py:5-16), `notify_dm`, `print` and `logging` are sinks and are not modelled.
- Type checks that raise `TypeError` for non-`Player`/`NPC`/`PlayerState` arguments: Dafny's types rule these inputs out.
- characters.py's `Character`, `get_ability_modifier`, `perform_skill_check`, `NPC` and `get_dialogue_node` repeat game_state.py line for line, so each is modelled once.
- characters.py `use_item` (222-271) and `cast_spell` (338-418): consumable effects and the spell's message formatting were not modelled; game_state.py's `cast_spell` is.
- `PlayerState` delegations `set_dialogue_key`, `take_damage`, `heal`, `add_to_inventory`, `remove_from_inventory` and `get_status` (game_state.py:771-830): they only forward to the `Player` methods that are modelled.
- Characters.Player.ChangeCurrency: the reset of a non-dict currency entry is not modelled; currency is a `map<string,int>`.
- Characters.ReputationRewards: faction ids that are not strings are skipped rather than used as keys.
- MonsterGenerator: `__init__`, `_select_race`, `_select_role`, `_collect_abilities_etc`, `_determine_loot_tags` (unordered `set`), `_generate_unique_id` (uuid) and `generate_monster` (floats) are not modelled.
- MonsterGenerator.Listed: template ids that are not strings are never listed.
- MonsterGenerator.GenerateDescription: a description_base that is not a str gives None, where Python would format it with `str()`.
- MonsterGenerator.CalculateCombatStats: stat entries that are not ints are not modelled; stats are `map<string,int>`.
- MonsterGenerator.SelectAttributes: NoDuplicates compares dicts structurally (as does MonsterGenerator.RandomAttributes).
- rag_system_simulation.py `load_documents` and its command-line entry point, data_loader.py, main.py, the save and load paths, and the Tkinter UI: file I/O, network and UI.
- ParseDice: digits are ASCII only (PyText.IsDigit); Python's `int()` and `isdigit()` also accept other Unicode decimal digits, which the model refuses.
- ParseModifiedDice: digits are ASCII only, as for ParseDice; Unicode decimal digits that `int()` accepts are refused.
- Step: an index key is read with ASCII digits only; a key of other Unicode decimal digits, which `int()` accepts, misses.
- Title: `str.title` is modelled on ASCII letters only; other Unicode letters keep their case.
- ListedOnly: a truthy `possible_attribute_tags` that is not a container (an int, say) makes `in` raise `TypeError`; the model lists nothing instead.
- TakeTurn: its contract states the tick and the turn's shape (Turn); what the action did to the Characters is stated by AfterTick against the state the tick left, not restated against the state before the turn. TickParticipant states that the tick changes only the participant's own hit points and effects. ProcessCombatTurn inherits the same split.
- ProcessCombatTurn, TakeTurn, PlayerTurn and ParseCommand follow the intended reading of the cast command (Commands.CastRequestOf), so a cast such as "cast fire bolt on goblin" can succeed; as written every cast is refused (see Findings).
- AcceptQuest, AdvanceQuestStage, CompleteOptionalObjective, QuestOperationsKeepLogOk and QuestLifecycle follow the intended quest operations; as written the first three raise `AttributeError` after their change to the log (see Findings).
- PyText.Lower: lower-cases ASCII letters only; Unicode case mapping is not modelled.
- Initiative: `roll_dice` is not part of this model; each participant's d20 is a parameter.

## Findings

| source | as written | input that shows it | evidently intended | confidence | as-written member | corrected member |
|---|---|---|---|---|---|---|
| combat_system.py:171-183 | the cast regex runs on `action_parts[1]`, a single whitespace-free word, so `\s+on\s+` never matches; the spell name is that one word, title-cased | "cast fire bolt on goblin" looks up "Fire" with no target, and no spellbook name is one word, so every cast fails with "not found" | the spell is the words after "cast" up to " on ", title-cased, and the target is the words after it | not executed | Commands.CastRequestAsWritten (Commands.AsWrittenCastNeverFindsSpell, Commands.CastFireAsWritten) | Commands.CastRequestOf (Commands.CastRequestSplitsAtOn, Commands.CastFireBoltOnGoblin) |
| characters.py:500-549 | accept_quest, advance_quest_stage and complete_optional_objective first change `active_quests` (lines 507, 523, 540) and then read `quest_template.stages` or `quest_template.optional_objectives` (lines 510, 526, 543), which the `Quest` class of quests.py does not define | accepting "q001" from an empty log stores it and then raises `AttributeError`, so the caller sees an exception and a changed log | the quest is accepted, advanced or its objective recorded, and the operation reports success | not executed | Characters.AcceptQuestAsWritten, Characters.AdvanceQuestAsWritten, Characters.CompleteObjectiveAsWritten (Characters.AllQuestsRaise, Characters.AcceptFirstQuestRaises) | Characters.AcceptQuestSpec, Characters.AdvanceQuestSpec, Characters.CompleteObjectiveSpec (Characters.QuestOperationsKeepLogOk, Characters.QuestLifecycle, Characters.AsWrittenWithAttributes) |
