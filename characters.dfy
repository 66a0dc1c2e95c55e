// characters.py's Player: the same Character underneath, but equipment that
// swaps items with the inventory, item classes looked up in the game's item
// registry, currency, quests, faction reputation, rewards, and an attack whose
// dice may carry a "+M"/"-M" modifier.

module Characters {
  import opened Wrappers
  import opened PyText
  import opened PyList
  import opened Json
  import opened Dice
  import opened HitPoints
  import opened StatusEffects
  import opened Combatants
  import opened Items
  import GameState
  import Attacks

  // ---------------------------------------------------------------- the item registry

  /** game_state.items: item id to the item built from the data files. */
  type Registry = map<string, Item>

  /** _get_item_from_game_state: None for an empty id or an id the registry does not hold. */
  function GetItem(registry: Registry, itemId: string): (r: Option<Item>)
    ensures r.Some? <==> itemId != "" && itemId in registry
    ensures r.Some? ==> r.value == registry[itemId]
  {
    if itemId == "" || itemId !in registry then None else Some(registry[itemId])
  }

  /** The name a message shows for an item id: the registry item's name, or the id itself. */
  function ItemName(registry: Registry, itemId: string): string
  {
    match GetItem(registry, itemId)
    case Some(item) => item.name
    case None => itemId
  }

  // ---------------------------------------------------------------- equipment

  /**
   * The item slots of Player.equipment: slot name to the id equipped there, or None.
   * The "currency" entry of that dict is kept apart, as Player.currency.
   */
  type Slots = map<string, Option<string>>

  /** The slot checks of equip_item: a Weapon in "weapon", a non-shield Armor in "armor", a shield Armor in "shield". */
  predicate Fits(slot: string, item: Item)
  {
    (slot == "weapon" && item.kind.Weapon?)
    || (slot == "armor" && item.kind.Armor? && item.kind.armorType != "shield")
    || (slot == "shield" && item.kind.Armor? && item.kind.armorType == "shield")
  }

  /** The id an equip moves back to the inventory: the slot's previous id when it is another one. */
  function Displaced(previous: Option<string>, itemId: string): (r: Option<string>)
    ensures r.Some? ==> r == previous && r.value != itemId
  {
    if previous.Some? && previous.value != itemId then previous else None
  }

  function AsMultiset(x: Option<string>): multiset<string>
  {
    if x.Some? then multiset{x.value} else multiset{}
  }

  /** How equip_item ends: True, False, or the ValueError add_to_inventory raises for a blank displaced id. */
  datatype EquipOutcome = Equipped | Refused | Raised

  /**
   * equip_item on the slots and the inventory: refused for an unknown item, an unknown
   * slot or an item the slot does not take; otherwise a different previous item goes to
   * the end of the inventory (raising, before any change, when its id is blank), the
   * item takes the slot and its first copy leaves the inventory.
   */
  function EquipSpec(slots: Slots, inventory: seq<string>, registry: Registry, itemId: string, slot: string)
    : (Slots, seq<string>, EquipOutcome)
  {
    var item := GetItem(registry, itemId);
    if item.None? || slot !in slots || !Fits(slot, item.value) then (slots, inventory, Refused)
    else
      var back := Displaced(slots[slot], itemId);
      if back.Some? && AllSpace(back.value) then (slots, inventory, Raised)
      else
        var withBack := if back.Some? then inventory + [back.value] else inventory;
        (slots[slot := Some(itemId)], RemoveFirst(withBack, itemId), Equipped)
  }

  /** Refusals are exactly the three checks, and only a successful equip changes anything. */
  lemma EquipRefusals(slots: Slots, inventory: seq<string>, registry: Registry, itemId: string, slot: string)
    ensures EquipSpec(slots, inventory, registry, itemId, slot).2 == Refused <==>
      itemId == "" || itemId !in registry || slot !in slots || !Fits(slot, registry[itemId])
    ensures EquipSpec(slots, inventory, registry, itemId, slot).2 == Raised <==>
      itemId != "" && itemId in registry && slot in slots && Fits(slot, registry[itemId])
      && slots[slot].Some? && slots[slot].value != itemId && AllSpace(slots[slot].value)
    ensures EquipSpec(slots, inventory, registry, itemId, slot).2 != Equipped ==>
      EquipSpec(slots, inventory, registry, itemId, slot).0 == slots
      && EquipSpec(slots, inventory, registry, itemId, slot).1 == inventory
  {
  }

  /**
   * A successful equip puts the item in the slot, leaves the other slots alone, and
   * moves items between slot and inventory without creating or losing any: the
   * inventory gains the displaced item and loses one copy of the equipped one.
   */
  lemma {:induction false} EquipMovesItems(slots: Slots, inventory: seq<string>, registry: Registry, itemId: string, slot: string)
    requires EquipSpec(slots, inventory, registry, itemId, slot).2 == Equipped
    ensures EquipSpec(slots, inventory, registry, itemId, slot).0 == slots[slot := Some(itemId)]
    ensures multiset(EquipSpec(slots, inventory, registry, itemId, slot).1) ==
      multiset(inventory) + AsMultiset(Displaced(slots[slot], itemId)) - multiset{itemId}
  {
    var back := Displaced(slots[slot], itemId);
    var withBack := if back.Some? then inventory + [back.value] else inventory;
    assert multiset(withBack) == multiset(inventory) + AsMultiset(back);
    assert itemId in withBack <==> itemId in inventory;
    RemoveFirstMultiset(withBack, itemId);
  }

  /** How unequip_item ends: None, the id, or the ValueError raised after the slot was already cleared. */
  datatype UnequipOutcome = EmptySlot | Unequipped(itemId: string) | UnequipRaised(itemId: string)

  /**
   * unequip_item: nothing for an unknown or empty slot; otherwise the slot is cleared and
   * the id goes to the end of the inventory, except that a blank id raises once the slot
   * is already empty.
   */
  function UnequipSpec(slots: Slots, inventory: seq<string>, slot: string): (Slots, seq<string>, UnequipOutcome)
  {
    if slot !in slots || slots[slot].None? then (slots, inventory, EmptySlot)
    else
      var itemId := slots[slot].value;
      if AllSpace(itemId) then (slots[slot := None], inventory, UnequipRaised(itemId))
      else (slots[slot := None], inventory + [itemId], Unequipped(itemId))
  }

  /**
   * Equipping an item from the inventory and unequipping it again empties the slot and
   * leaves the inventory holding what it held before, plus what the slot held.
   */
  lemma EquipThenUnequip(slots: Slots, inventory: seq<string>, registry: Registry, itemId: string, slot: string)
    requires EquipSpec(slots, inventory, registry, itemId, slot).2 == Equipped
    requires itemId in inventory && !AllSpace(itemId)
    ensures var (slots1, inventory1, _) := EquipSpec(slots, inventory, registry, itemId, slot);
      var (slots2, inventory2, outcome) := UnequipSpec(slots1, inventory1, slot);
      outcome == Unequipped(itemId) && slots2 == slots[slot := None]
      && multiset(inventory2) == multiset(inventory) + AsMultiset(Displaced(slots[slot], itemId))
  {
    EquipMovesItems(slots, inventory, registry, itemId, slot);
    var (slots1, inventory1, _) := EquipSpec(slots, inventory, registry, itemId, slot);
    assert slots1[slot := None] == slots[slot := None];
    assert multiset(inventory1 + [itemId]) == multiset(inventory1) + multiset{itemId};
  }

  // ---------------------------------------------------------------- weapon and armour class

  /** get_equipped_weapon_stats: the stats of a Weapon in the weapon slot, else base_damage_dice with no bonuses. */
  function WeaponStatsOf(slots: Slots, registry: Registry, baseDamageDice: string): GameState.WeaponStats
  {
    var fallback := GameState.WeaponStats(baseDamageDice, 0, 0);
    if "weapon" !in slots || slots["weapon"].None? then fallback
    else
      match GetItem(registry, slots["weapon"].value)
      case Some(item) =>
        if item.kind.Weapon? then GameState.WeaponStats(item.kind.damageDice, item.kind.attackBonus, item.kind.damageBonus)
        else fallback
      case None => fallback
  }

  /**
   * The weapon slot decides the stats: a Weapon it holds gives its own dice and bonuses,
   * and without one the character fights with its base dice and no bonuses.
   */
  lemma WeaponStatsOfSlot(slots: Slots, registry: Registry, baseDamageDice: string, itemId: string)
    ensures ("weapon" !in slots || slots["weapon"].None?) ==>
      WeaponStatsOf(slots, registry, baseDamageDice) == GameState.WeaponStats(baseDamageDice, 0, 0)
    ensures EquipSpec(slots, [], registry, itemId, "weapon").2 == Equipped ==>
      var item := registry[itemId];
      WeaponStatsOf(EquipSpec(slots, [], registry, itemId, "weapon").0, registry, baseDamageDice)
        == GameState.WeaponStats(item.kind.damageDice, item.kind.attackBonus, item.kind.damageBonus)
  {
  }

  /** The bonus one slot adds: the Armor it holds, counted only when it is the slot's kind of armour. */
  function SlotAcBonus(slots: Slots, registry: Registry, slot: string): int
  {
    if slot !in slots || slots[slot].None? then 0
    else
      match GetItem(registry, slots[slot].value)
      case Some(item) => if item.kind.Armor? && Fits(slot, item) then item.kind.acBonus else 0
      case None => 0
  }

  /** The slots get_equipped_armor_ac_bonus visits, in order. */
  const ArmorSlots: seq<string> := ["armor", "shield"]

  /** The bonuses of the named slots added up. */
  function SlotsAcBonus(slots: Slots, registry: Registry, names: seq<string>): int
  {
    if names == [] then 0 else SlotAcBonus(slots, registry, names[0]) + SlotsAcBonus(slots, registry, names[1..])
  }

  /**
   * Only the right kind of armour counts: body armour in "armor", a shield in "shield";
   * equipping one replaces that slot's share of the bonus by the item's ac_bonus.
   */
  lemma ArmorBonusAfterEquip(slots: Slots, registry: Registry, itemId: string, slot: string)
    requires slot in ArmorSlots
    requires EquipSpec(slots, [], registry, itemId, slot).2 == Equipped
    ensures var other := if slot == "armor" then "shield" else "armor";
      SlotsAcBonus(EquipSpec(slots, [], registry, itemId, slot).0, registry, ArmorSlots)
        == registry[itemId].kind.acBonus + SlotAcBonus(slots, registry, other)
  {
    var slots1 := EquipSpec(slots, [], registry, itemId, slot).0;
    var other := if slot == "armor" then "shield" else "armor";
    assert slots1 == slots[slot := Some(itemId)];
    assert SlotAcBonus(slots1, registry, slot) == registry[itemId].kind.acBonus;
    assert SlotAcBonus(slots1, registry, other) == SlotAcBonus(slots, registry, other);
    ArmorSlotsSum(slots1, registry);
  }

  /** The armour slots' bonus is the armour's plus the shield's. */
  lemma ArmorSlotsSum(slots: Slots, registry: Registry)
    ensures SlotsAcBonus(slots, registry, ArmorSlots)
      == SlotAcBonus(slots, registry, "armor") + SlotAcBonus(slots, registry, "shield")
  {
    var shieldOnly: seq<string> := ["shield"];
    assert ArmorSlots[0] == "armor" && ArmorSlots[1..] == shieldOnly;
    assert shieldOnly[0] == "shield" && shieldOnly[1..] == [];
    assert SlotsAcBonus(slots, registry, shieldOnly) == SlotAcBonus(slots, registry, "shield");
  }

  /** A shield in the armour slot, or body armour in the shield slot, adds nothing. */
  lemma MisplacedArmorAddsNothing(slots: Slots, registry: Registry, slot: string)
    requires slot in ArmorSlots && slot in slots && slots[slot].Some?
    requires GetItem(registry, slots[slot].value).Some?
    requires var item := registry[slots[slot].value];
      item.kind.Armor? && (item.kind.armorType == "shield" <==> slot == "armor")
    ensures SlotAcBonus(slots, registry, slot) == 0
  {
  }

  // ---------------------------------------------------------------- currency

  /** dict.get(kind, 0) on the currency dict. */
  function Coins(currency: map<string, int>, kind: string): int
  {
    if kind in currency then currency[kind] else 0
  }

  /**
   * change_currency on the currency dict: None (False, no change) when a gold spend is
   * larger than the gold held, else all three amounts added.
   */
  function CurrencyAfter(currency: map<string, int>, gold: int, silver: int, copper: int): Option<map<string, int>>
  {
    if gold < 0 && Coins(currency, "gold") < -gold then None
    else
      var withGold := currency["gold" := Coins(currency, "gold") + gold];
      var withSilver := withGold["silver" := Coins(withGold, "silver") + silver];
      Some(withSilver["copper" := Coins(withSilver, "copper") + copper])
  }

  /** The purse never goes below zero gold, and every amount moves by exactly its delta. */
  lemma CurrencyAfterProperties(currency: map<string, int>, gold: int, silver: int, copper: int)
    ensures CurrencyAfter(currency, gold, silver, copper).Some? <==> gold >= 0 || Coins(currency, "gold") >= -gold
    ensures CurrencyAfter(currency, gold, silver, copper).Some? ==>
      var after := CurrencyAfter(currency, gold, silver, copper).value;
      Coins(after, "gold") == Coins(currency, "gold") + gold
      && Coins(after, "silver") == Coins(currency, "silver") + silver
      && Coins(after, "copper") == Coins(currency, "copper") + copper
      && (Coins(currency, "gold") >= 0 ==> Coins(after, "gold") >= 0)
      && forall kind | kind in currency && kind !in ["gold", "silver", "copper"] :: kind in after && after[kind] == currency[kind]
  {
  }

  /** Spending gold one has and receiving the same amount back restores the purse. */
  lemma SpendThenEarn(currency: map<string, int>, gold: int)
    requires gold >= 0
    requires "gold" in currency && "silver" in currency && "copper" in currency
    requires Coins(currency, "gold") >= gold
    ensures CurrencyAfter(currency, -gold, 0, 0).Some?
    ensures CurrencyAfter(CurrencyAfter(currency, -gold, 0, 0).value, gold, 0, 0) == Some(currency)
  {
    var g := currency["gold"];
    var spent := CurrencyAfter(currency, -gold, 0, 0).value;
    var lowered := currency["gold" := g - gold];
    assert lowered["silver" := Coins(lowered, "silver") + 0] == lowered;
    assert lowered["copper" := Coins(lowered, "copper") + 0] == lowered;
    assert spent == lowered;
    var restored := lowered["gold" := g];
    assert restored == currency;
    assert restored["silver" := Coins(restored, "silver") + 0] == restored;
    assert restored["copper" := Coins(restored, "copper") + 0] == restored;
  }

  // ---------------------------------------------------------------- quests

  /** An active_quests entry: the current stage and the optional objectives completed so far. */
  datatype QuestProgress = QuestProgress(stage: string, optionalDone: seq<string>)

  /**
   * How a quest operation ends (its message without the text). AttributeMissing is the
   * AttributeError raised when the operation reads an attribute its template lacks.
   */
  datatype QuestOutcome = QuestDone | AlreadyActive | AlreadyCompleted | NoTemplate | NotActive | ObjectiveAlreadyDone
                        | AttributeMissing

  predicate NoDuplicates(s: seq<string>)
  {
    forall i, j | 0 <= i < j < |s| :: s[i] != s[j]
  }

  /** A consistent quest log: no quest both active and completed, each listed once. */
  predicate QuestLogOk(active: map<string, QuestProgress>, completed: seq<string>)
  {
    (forall q | q in active :: q !in completed)
    && NoDuplicates(completed)
    && (forall q | q in active :: NoDuplicates(active[q].optionalDone))
  }

  /** accept_quest: refused when active, completed or without a template, else started at the given stage. */
  function AcceptQuestSpec(active: map<string, QuestProgress>, completed: seq<string>, templates: set<string>,
                           questId: string, stage: string): (map<string, QuestProgress>, QuestOutcome)
  {
    if questId in active then (active, AlreadyActive)
    else if questId in completed then (active, AlreadyCompleted)
    else if questId !in templates then (active, NoTemplate)
    else (active[questId := QuestProgress(stage, [])], QuestDone)
  }

  /** advance_quest_stage: an active quest with a template moves to the new stage, its objectives kept. */
  function AdvanceQuestSpec(active: map<string, QuestProgress>, templates: set<string>, questId: string, stage: string)
    : (map<string, QuestProgress>, QuestOutcome)
  {
    if questId !in active then (active, NotActive)
    else if questId !in templates then (active, NoTemplate)
    else (active[questId := active[questId].(stage := stage)], QuestDone)
  }

  /** complete_optional_objective: recorded once; a second completion is refused. */
  function CompleteObjectiveSpec(active: map<string, QuestProgress>, templates: set<string>, questId: string, objective: string)
    : (map<string, QuestProgress>, QuestOutcome)
  {
    if questId !in active then (active, NotActive)
    else if questId !in templates then (active, NoTemplate)
    else if objective in active[questId].optionalDone then (active, ObjectiveAlreadyDone)
    else
      var progress := active[questId];
      (active[questId := progress.(optionalDone := progress.optionalDone + [objective])], QuestDone)
  }

  /** complete_quest: the quest leaves the active ones and is listed as completed at most once. */
  function CompleteQuestSpec(active: map<string, QuestProgress>, completed: seq<string>, templates: set<string>, questId: string)
    : (map<string, QuestProgress>, seq<string>, QuestOutcome)
  {
    if questId !in active then (active, completed, NotActive)
    else if questId !in templates then (active, completed, NoTemplate)
    else (active - {questId}, if questId in completed then completed else completed + [questId], QuestDone)
  }

  /**
   * What the quest operations read from a template after their change: accept_quest and
   * advance_quest_stage iterate over `stages`, complete_optional_objective over `optional_objectives`.
   */
  datatype QuestTemplate = QuestTemplate(hasStages: bool, hasOptionalObjectives: bool)

  /** ALL_QUESTS of quests.py: its Quest class defines neither `stages` nor `optional_objectives`. */
  const AllQuests: map<string, QuestTemplate> :=
    map["q001" := QuestTemplate(false, false), "q002" := QuestTemplate(false, false)]

  /**
   * accept_quest as written: past the three refusals the quest is stored first, and then
   * reading the template's `stages` raises when the template has none.
   */
  function AcceptQuestAsWritten(active: map<string, QuestProgress>, completed: seq<string>,
                                templates: map<string, QuestTemplate>, questId: string, stage: string)
    : (map<string, QuestProgress>, QuestOutcome)
  {
    if questId in active then (active, AlreadyActive)
    else if questId in completed then (active, AlreadyCompleted)
    else if questId !in templates then (active, NoTemplate)
    else (active[questId := QuestProgress(stage, [])], if templates[questId].hasStages then QuestDone else AttributeMissing)
  }

  /** advance_quest_stage as written: the stage is set, then `stages` is read. */
  function AdvanceQuestAsWritten(active: map<string, QuestProgress>, templates: map<string, QuestTemplate>,
                                 questId: string, stage: string)
    : (map<string, QuestProgress>, QuestOutcome)
  {
    if questId !in active then (active, NotActive)
    else if questId !in templates then (active, NoTemplate)
    else (active[questId := active[questId].(stage := stage)], if templates[questId].hasStages then QuestDone else AttributeMissing)
  }

  /** complete_optional_objective as written: the objective is appended, then `optional_objectives` is read. */
  function CompleteObjectiveAsWritten(active: map<string, QuestProgress>, templates: map<string, QuestTemplate>,
                                      questId: string, objective: string)
    : (map<string, QuestProgress>, QuestOutcome)
  {
    if questId !in active then (active, NotActive)
    else if questId !in templates then (active, NoTemplate)
    else if objective in active[questId].optionalDone then (active, ObjectiveAlreadyDone)
    else
      var progress := active[questId];
      (active[questId := progress.(optionalDone := progress.optionalDone + [objective])],
       if templates[questId].hasOptionalObjectives then QuestDone else AttributeMissing)
  }

  /**
   * With quests.py's templates the three operations never succeed: wherever the intended
   * operation reports success, the one as written has made the same change and then raises.
   */
  lemma AllQuestsRaise(active: map<string, QuestProgress>, completed: seq<string>, questId: string,
                       stage: string, objective: string)
    ensures var intended := AcceptQuestSpec(active, completed, AllQuests.Keys, questId, stage);
      AcceptQuestAsWritten(active, completed, AllQuests, questId, stage)
        == (intended.0, if intended.1 == QuestDone then AttributeMissing else intended.1)
    ensures var intended := AdvanceQuestSpec(active, AllQuests.Keys, questId, stage);
      AdvanceQuestAsWritten(active, AllQuests, questId, stage)
        == (intended.0, if intended.1 == QuestDone then AttributeMissing else intended.1)
    ensures var intended := CompleteObjectiveSpec(active, AllQuests.Keys, questId, objective);
      CompleteObjectiveAsWritten(active, AllQuests, questId, objective)
        == (intended.0, if intended.1 == QuestDone then AttributeMissing else intended.1)
  {
    assert questId in AllQuests ==> !AllQuests[questId].hasStages && !AllQuests[questId].hasOptionalObjectives;
  }

  /** Accepting q001 from an empty log stores it at its stage and raises. */
  lemma AcceptFirstQuestRaises(stage: string)
    ensures AcceptQuestAsWritten(map[], [], AllQuests, "q001", stage)
      == (map["q001" := QuestProgress(stage, [])], AttributeMissing)
    ensures AcceptQuestSpec(map[], [], AllQuests.Keys, "q001", stage)
      == (map["q001" := QuestProgress(stage, [])], QuestDone)
  {
    assert "q001" in AllQuests;
  }

  /** With templates that have both attributes, the operations as written are the intended ones. */
  lemma AsWrittenWithAttributes(active: map<string, QuestProgress>, completed: seq<string>,
                                templates: map<string, QuestTemplate>, questId: string, stage: string, objective: string)
    requires forall q | q in templates :: templates[q].hasStages && templates[q].hasOptionalObjectives
    ensures AcceptQuestAsWritten(active, completed, templates, questId, stage)
      == AcceptQuestSpec(active, completed, templates.Keys, questId, stage)
    ensures AdvanceQuestAsWritten(active, templates, questId, stage) == AdvanceQuestSpec(active, templates.Keys, questId, stage)
    ensures CompleteObjectiveAsWritten(active, templates, questId, objective)
      == CompleteObjectiveSpec(active, templates.Keys, questId, objective)
  {
  }

  /** Every quest operation keeps a consistent quest log consistent. */
  lemma QuestOperationsKeepLogOk(active: map<string, QuestProgress>, completed: seq<string>, templates: set<string>,
                                 questId: string, stage: string, objective: string)
    requires QuestLogOk(active, completed)
    ensures QuestLogOk(AcceptQuestSpec(active, completed, templates, questId, stage).0, completed)
    ensures QuestLogOk(AdvanceQuestSpec(active, templates, questId, stage).0, completed)
    ensures QuestLogOk(CompleteObjectiveSpec(active, templates, questId, objective).0, completed)
    ensures QuestLogOk(CompleteQuestSpec(active, completed, templates, questId).0,
                       CompleteQuestSpec(active, completed, templates, questId).1)
  {
    var (active1, _) := CompleteObjectiveSpec(active, templates, questId, objective);
    if questId in active && questId in templates && objective !in active[questId].optionalDone {
      var done := active[questId].optionalDone;
      assert active1[questId].optionalDone == done + [objective];
      assert NoDuplicates(done + [objective]) by {
        forall i, j | 0 <= i < j < |done + [objective]|
          ensures (done + [objective])[i] != (done + [objective])[j]
        {
          if j == |done| {
            assert (done + [objective])[i] == done[i];
          }
        }
      }
    }
    var (active2, completed2, _) := CompleteQuestSpec(active, completed, templates, questId);
    if questId in active && questId in templates && questId !in completed {
      assert NoDuplicates(completed2) by {
        forall i, j | 0 <= i < j < |completed2| ensures completed2[i] != completed2[j] {
          if j == |completed| {
            assert completed2[i] == completed[i];
          }
        }
      }
    }
  }

  /**
   * The lifecycle: a completed quest cannot be accepted again, an objective is counted
   * once, and a quest is completed once whatever is asked afterwards.
   */
  lemma QuestLifecycle(active: map<string, QuestProgress>, completed: seq<string>, templates: set<string>,
                       questId: string, stage: string, objective: string)
    requires questId in active && questId in templates
    ensures var (active1, completed1, outcome) := CompleteQuestSpec(active, completed, templates, questId);
      outcome == QuestDone && questId !in active1 && questId in completed1
      && AcceptQuestSpec(active1, completed1, templates, questId, stage) == (active1, AlreadyCompleted)
      && CompleteQuestSpec(active1, completed1, templates, questId) == (active1, completed1, NotActive)
    ensures var (active1, outcome) := CompleteObjectiveSpec(active, templates, questId, objective);
      CompleteObjectiveSpec(active1, templates, questId, objective) == (active1, ObjectiveAlreadyDone)
  {
    var (active1, outcome) := CompleteObjectiveSpec(active, templates, questId, objective);
    if objective !in active[questId].optionalDone {
      assert objective in active1[questId].optionalDone;
    }
  }

  // ---------------------------------------------------------------- rewards

  /** A line of apply_rewards' result, without its text. */
  datatype RewardMessage =
    | GainedXp(amount: int)
    | Obtained(itemName: string)
    | Received(amount: int, currencyType: string)
    | ReputationChanged(factionId: string, amount: int)

  /** The experience a rewards dict grants: its "xp" when that is an int (a bool counts) above 0, else nothing. */
  function XpReward(rewards: Dict): (r: int)
    ensures r >= 0
  {
    match Lookup(rewards, "xp")
    case Some(v) => if AsInt(v).Some? && AsInt(v).value > 0 then AsInt(v).value else 0
    case None => 0
  }

  /** rewards[key] when it is a list, else no entries. */
  function ListEntries(rewards: Dict, key: string): seq<Json>
  {
    match Lookup(rewards, key)
    case Some(JArray(entries)) => entries
    case _ => []
  }

  /** rewards["currency"] when it is a dict, else no entries. */
  function CurrencyEntries(rewards: Dict): Dict
  {
    match Lookup(rewards, "currency")
    case Some(JObject(entries)) => entries
    case _ => []
  }

  /**
   * The items loop: each string entry is added to the inventory in turn (other entries
   * are skipped); a blank one raises, leaving the earlier ones added. The result is the
   * inventory, the messages and whether it raised.
   */
  function ItemRewards(registry: Registry, inventory: seq<string>, messages: seq<RewardMessage>, entries: seq<Json>)
    : (seq<string>, seq<RewardMessage>, bool)
    decreases |entries|
  {
    if entries == [] then (inventory, messages, false)
    else if entries[0].JStr? then
      if AllSpace(entries[0].s) then (inventory, messages, true)
      else ItemRewards(registry, inventory + [entries[0].s], messages + [Obtained(ItemName(registry, entries[0].s))], entries[1..])
    else ItemRewards(registry, inventory, messages, entries[1..])
  }

  /** The currency loop: each positive int amount is added to its currency type. */
  function CurrencyRewards(currency: map<string, int>, messages: seq<RewardMessage>, entries: Dict)
    : (map<string, int>, seq<RewardMessage>)
    decreases |entries|
  {
    if entries == [] then (currency, messages)
    else
      var (kind, amount) := entries[0];
      if AsInt(amount).Some? && AsInt(amount).value > 0 then
        var n := AsInt(amount).value;
        CurrencyRewards(currency[kind := Coins(currency, kind) + n], messages + [Received(n, kind)], entries[1..])
      else CurrencyRewards(currency, messages, entries[1..])
  }

  /** The reputation loop: each dict entry with a non-empty faction_id and an int amount adds that amount. */
  function ReputationRewards(reputations: map<string, int>, messages: seq<RewardMessage>, entries: seq<Json>)
    : (map<string, int>, seq<RewardMessage>)
    decreases |entries|
  {
    if entries == [] then (reputations, messages)
    else if entries[0].JObject? then
      var factionId := Get(entries[0].members, "faction_id", JNull);
      var amount := Get(entries[0].members, "amount", JNull);
      if factionId.JStr? && factionId.s != "" && AsInt(amount).Some? then
        var n := AsInt(amount).value;
        ReputationRewards(reputations[factionId.s := Coins(reputations, factionId.s) + n],
          messages + [ReputationChanged(factionId.s, n)], entries[1..])
      else ReputationRewards(reputations, messages, entries[1..])
    else ReputationRewards(reputations, messages, entries[1..])
  }

  /** What apply_rewards leaves behind; raised is the ValueError of a blank item id. */
  datatype RewardsResult = RewardsResult(
    experiencePoints: int,
    inventory: seq<string>,
    currency: map<string, int>,
    reputations: map<string, int>,
    messages: seq<RewardMessage>,
    raised: bool)

  /** apply_rewards: experience, then items, then currency, then reputation, each in the order given. */
  function Rewards(experiencePoints: int, inventory: seq<string>, currency: map<string, int>, reputations: map<string, int>,
                   registry: Registry, rewards: Dict): RewardsResult
  {
    var gained := XpReward(rewards);
    var xpMessages := if gained > 0 then [GainedXp(gained)] else [];
    var (inventory1, messages1, raised) := ItemRewards(registry, inventory, xpMessages, ListEntries(rewards, "items"));
    if raised then RewardsResult(experiencePoints + gained, inventory1, currency, reputations, messages1, true)
    else
      var (currency1, messages2) := CurrencyRewards(currency, messages1, CurrencyEntries(rewards));
      var (reputations1, messages3) := ReputationRewards(reputations, messages2, ListEntries(rewards, "faction_rep_changes"));
      RewardsResult(experiencePoints + gained, inventory1, currency1, reputations1, messages3, false)
  }

  /** The string entries of a list, in order. */
  function StringEntries(entries: seq<Json>): seq<string>
  {
    if entries == [] then []
    else if entries[0].JStr? then [entries[0].s] + StringEntries(entries[1..])
    else StringEntries(entries[1..])
  }

  /** The items loop raises exactly for a blank string entry, and otherwise appends every string entry in order. */
  lemma {:induction false} ItemRewardsAppend(registry: Registry, inventory: seq<string>, messages: seq<RewardMessage>, entries: seq<Json>)
    ensures var (inventory1, messages1, raised) := ItemRewards(registry, inventory, messages, entries);
      (raised <==> exists i | 0 <= i < |entries| :: entries[i].JStr? && AllSpace(entries[i].s))
      && (!raised ==> inventory1 == inventory + StringEntries(entries) && |messages1| == |messages| + |StringEntries(entries)|)
    decreases |entries|
  {
    if entries != [] {
      var head := entries[0];
      var rest := entries[1..];
      assert forall i | 0 <= i < |rest| :: rest[i] == entries[i + 1];
      if head.JStr? {
        if !AllSpace(head.s) {
          ItemRewardsAppend(registry, inventory + [head.s], messages + [Obtained(ItemName(registry, head.s))], rest);
          assert inventory + [head.s] + StringEntries(rest) == inventory + ([head.s] + StringEntries(rest));
        }
      } else {
        ItemRewardsAppend(registry, inventory, messages, rest);
      }
    }
  }

  /** The currency loop only adds: no currency type loses coins or disappears. */
  lemma {:induction false} CurrencyRewardsOnlyAdd(currency: map<string, int>, messages: seq<RewardMessage>, entries: Dict)
    ensures var (currency1, _) := CurrencyRewards(currency, messages, entries);
      forall kind | kind in currency :: kind in currency1 && currency1[kind] >= currency[kind]
    decreases |entries|
  {
    if entries != [] {
      var (kind, amount) := entries[0];
      if AsInt(amount).Some? && AsInt(amount).value > 0 {
        var n := AsInt(amount).value;
        var next := currency[kind := Coins(currency, kind) + n];
        CurrencyRewardsOnlyAdd(next, messages + [Received(n, kind)], entries[1..]);
        assert forall k | k in currency :: k in next && next[k] >= currency[k];
      } else {
        CurrencyRewardsOnlyAdd(currency, messages, entries[1..]);
      }
    }
  }

  /**
   * Rewards never take anything away: experience does not fall, the inventory keeps its
   * items in place, and no currency decreases (reputation may, by a negative amount).
   */
  lemma RewardsOnlyAdd(experiencePoints: int, inventory: seq<string>, currency: map<string, int>,
                       reputations: map<string, int>, registry: Registry, rewards: Dict)
    ensures var r := Rewards(experiencePoints, inventory, currency, reputations, registry, rewards);
      r.experiencePoints >= experiencePoints
      && |r.inventory| >= |inventory| && r.inventory[..|inventory|] == inventory
      && (!r.raised ==> r.inventory == inventory + StringEntries(ListEntries(rewards, "items")))
      && (!r.raised ==> forall kind | kind in currency :: kind in r.currency && r.currency[kind] >= currency[kind])
  {
    var gained := XpReward(rewards);
    var xpMessages := if gained > 0 then [GainedXp(gained)] else [];
    ItemRewardsPrefix(registry, inventory, xpMessages, ListEntries(rewards, "items"));
    ItemRewardsAppend(registry, inventory, xpMessages, ListEntries(rewards, "items"));
    var (_, messages1, _) := ItemRewards(registry, inventory, xpMessages, ListEntries(rewards, "items"));
    CurrencyRewardsOnlyAdd(currency, messages1, CurrencyEntries(rewards));
  }

  /** Even when it raises, the items loop only appends to the inventory. */
  lemma {:induction false} ItemRewardsPrefix(registry: Registry, inventory: seq<string>, messages: seq<RewardMessage>, entries: seq<Json>)
    ensures var (inventory1, _, _) := ItemRewards(registry, inventory, messages, entries);
      |inventory1| >= |inventory| && inventory1[..|inventory|] == inventory
    decreases |entries|
  {
    if entries != [] {
      var head := entries[0];
      if head.JStr? && !AllSpace(head.s) {
        var longer := inventory + [head.s];
        ItemRewardsPrefix(registry, longer, messages + [Obtained(ItemName(registry, head.s))], entries[1..]);
        var (inventory1, _, _) := ItemRewards(registry, inventory, messages, entries);
        assert inventory1[..|longer|][..|inventory|] == inventory1[..|inventory|];
        assert longer[..|inventory|] == inventory;
      } else if !head.JStr? {
        ItemRewardsPrefix(registry, inventory, messages, entries[1..]);
      }
    }
  }

  // ---------------------------------------------------------------- the Player

  class Player {
    const character: Character
    const baseArmorClass: int
    var spellSlots: GameState.SpellSlots
    var experiencePoints: int
    var inventory: seq<string>
    var slots: Slots
    var currency: map<string, int>
    var activeQuests: map<string, QuestProgress>
    var completedQuests: seq<string>
    var factionReputations: map<string, int>

    /** The character is valid and the three equipment slots exist. */
    ghost predicate Valid()
      reads this, character
    {
      character.Valid() && "weapon" in slots && "armor" in slots && "shield" in slots
    }

    /**
     * Player(player_data) around an already built Character: the slots weapon, armor and
     * shield are added empty when player_data's equipment lacks them, and the base armour
     * class is combat_stats' armor_class, 10 by default.
     */
    constructor(character: Character, spellSlots: GameState.SpellSlots, experiencePoints: int, inventory: seq<string>,
                slots: Slots, currency: map<string, int>, activeQuests: map<string, QuestProgress>,
                completedQuests: seq<string>, factionReputations: map<string, int>)
      requires character.Valid()
      ensures Valid()
      ensures this.character == character && baseArmorClass == character.Stat("armor_class", 10)
      ensures this.spellSlots == spellSlots && this.experiencePoints == experiencePoints && this.inventory == inventory
      ensures this.currency == currency && this.activeQuests == activeQuests && this.completedQuests == completedQuests
      ensures this.factionReputations == factionReputations
      ensures forall slot | slot in slots :: slot in this.slots && this.slots[slot] == slots[slot]
      ensures forall slot | slot in this.slots :: slot in slots || (slot in ArmorSlots + ["weapon"] && this.slots[slot].None?)
    {
      this.character := character;
      baseArmorClass := character.Stat("armor_class", 10);
      this.spellSlots := spellSlots;
      this.experiencePoints := experiencePoints;
      this.inventory := inventory;
      this.currency := currency;
      this.activeQuests := activeQuests;
      this.completedQuests := completedQuests;
      this.factionReputations := factionReputations;
      var filled := slots;
      var pending := ["weapon", "armor", "shield"];
      while pending != []
        invariant forall slot | slot in slots :: slot in filled && filled[slot] == slots[slot]
        invariant forall slot | slot in filled :: slot in slots || (slot in ArmorSlots + ["weapon"] && filled[slot].None?)
        invariant forall slot | slot in ["weapon", "armor", "shield"] && slot !in pending :: slot in filled
        invariant forall slot | slot in pending :: slot in ["weapon", "armor", "shield"]
        decreases |pending|
      {
        if pending[0] !in filled {
          filled := filled[pending[0] := None];
        }
        pending := pending[1..];
      }
      this.slots := filled;
    }

    /** add_to_inventory: ValueError (ok false, no change) for a blank id, else the id goes last. */
    method AddToInventory(itemId: string) returns (ok: bool)
      modifies this
      ensures ok <==> !AllSpace(itemId)
      ensures inventory == if ok then old(inventory) + [itemId] else old(inventory)
      ensures slots == old(slots) && currency == old(currency) && spellSlots == old(spellSlots)
      ensures experiencePoints == old(experiencePoints) && factionReputations == old(factionReputations)
      ensures activeQuests == old(activeQuests) && completedQuests == old(completedQuests)
    {
      StripEmptyIffAllSpace(itemId);
      if Strip(itemId) == [] {
        return false;
      }
      inventory := inventory + [itemId];
      return true;
    }

    /** remove_from_inventory: the first copy goes; False when there is none. */
    method RemoveFromInventory(itemId: string) returns (removed: bool)
      modifies this
      ensures removed <==> itemId in old(inventory)
      ensures inventory == RemoveFirst(old(inventory), itemId)
      ensures slots == old(slots) && currency == old(currency) && spellSlots == old(spellSlots)
      ensures experiencePoints == old(experiencePoints) && factionReputations == old(factionReputations)
      ensures activeQuests == old(activeQuests) && completedQuests == old(completedQuests)
    {
      removed := itemId in inventory;
      inventory := RemoveFirst(inventory, itemId);
    }

    /** equip_item, as EquipSpec describes. */
    method EquipItem(itemId: string, slot: string, registry: Registry) returns (outcome: EquipOutcome)
      requires Valid()
      modifies this
      ensures Valid()
      ensures (slots, inventory, outcome) == EquipSpec(old(slots), old(inventory), registry, itemId, slot)
      ensures currency == old(currency) && spellSlots == old(spellSlots)
      ensures experiencePoints == old(experiencePoints) && factionReputations == old(factionReputations)
      ensures activeQuests == old(activeQuests) && completedQuests == old(completedQuests)
    {
      var item := GetItem(registry, itemId);
      if item.None? {
        return Refused;
      }
      if slot !in slots {
        return Refused;
      }
      var validEquip := false;
      if slot == "weapon" && item.value.kind.Weapon? {
        validEquip := true;
      } else if slot == "armor" && item.value.kind.Armor? && item.value.kind.armorType != "shield" {
        validEquip := true;
      } else if slot == "shield" && item.value.kind.Armor? && item.value.kind.armorType == "shield" {
        validEquip := true;
      }
      if !validEquip {
        return Refused;
      }
      var current := slots[slot];
      if current.Some? && current.value != itemId {
        var added := AddToInventory(current.value);
        if !added {
          return Raised;
        }
      }
      slots := slots[slot := Some(itemId)];
      if itemId in inventory {
        var _ := RemoveFromInventory(itemId);
      }
      return Equipped;
    }

    /** unequip_item, as UnequipSpec describes. */
    method UnequipItem(slot: string) returns (outcome: UnequipOutcome)
      requires Valid()
      modifies this
      ensures Valid()
      ensures (slots, inventory, outcome) == UnequipSpec(old(slots), old(inventory), slot)
      ensures currency == old(currency) && spellSlots == old(spellSlots)
      ensures experiencePoints == old(experiencePoints) && factionReputations == old(factionReputations)
      ensures activeQuests == old(activeQuests) && completedQuests == old(completedQuests)
    {
      if slot !in slots {
        return EmptySlot;
      }
      var itemId := slots[slot];
      if itemId.Some? {
        slots := slots[slot := None];
        var added := AddToInventory(itemId.value);
        if !added {
          return UnequipRaised(itemId.value);
        }
        return Unequipped(itemId.value);
      }
      return EmptySlot;
    }

    /** get_equipped_armor_ac_bonus: the loop over the armour and shield slots. */
    method ArmorAcBonus(registry: Registry) returns (bonus: int)
      ensures bonus == SlotsAcBonus(slots, registry, ArmorSlots)
    {
      bonus := 0;
      var pending := ArmorSlots;
      while pending != []
        invariant bonus + SlotsAcBonus(slots, registry, pending) == SlotsAcBonus(slots, registry, ArmorSlots)
        decreases |pending|
      {
        var slotType := pending[0];
        if slotType in slots && slots[slotType].Some? {
          var item := GetItem(registry, slots[slotType].value);
          if item.Some? && item.value.kind.Armor? {
            if (slotType == "armor" && item.value.kind.armorType != "shield")
              || (slotType == "shield" && item.value.kind.armorType == "shield") {
              bonus := bonus + item.value.kind.acBonus;
            }
          }
        }
        pending := pending[1..];
      }
    }

    /** get_effective_armor_class: the base armour class plus what the armour and the shield add. */
    method EffectiveArmorClass(registry: Registry) returns (armorClass: int)
      ensures armorClass == baseArmorClass + SlotsAcBonus(slots, registry, ArmorSlots)
    {
      var bonus := ArmorAcBonus(registry);
      armorClass := baseArmorClass + bonus;
    }

    /** change_currency, as CurrencyAfter describes. */
    method ChangeCurrency(gold: int, silver: int, copper: int) returns (ok: bool)
      modifies this
      ensures ok <==> CurrencyAfter(old(currency), gold, silver, copper).Some?
      ensures currency == CurrencyAfter(old(currency), gold, silver, copper).GetOr(old(currency))
      ensures inventory == old(inventory) && slots == old(slots) && spellSlots == old(spellSlots)
      ensures experiencePoints == old(experiencePoints) && factionReputations == old(factionReputations)
      ensures activeQuests == old(activeQuests) && completedQuests == old(completedQuests)
    {
      var currentGold := Coins(currency, "gold");
      if gold < 0 && currentGold < -gold {
        return false;
      }
      currency := currency["gold" := currentGold + gold];
      currency := currency["silver" := Coins(currency, "silver") + silver];
      currency := currency["copper" := Coins(currency, "copper") + copper];
      return true;
    }

    /** consume_spell_slot, the same rule as game_state.py's. */
    method ConsumeSpellSlot(level: int) returns (consumed: bool)
      modifies this
      ensures consumed <==> GameState.HasSpellSlot(old(spellSlots), level)
      ensures spellSlots == GameState.ConsumeSlot(old(spellSlots), level).GetOr(old(spellSlots))
      ensures inventory == old(inventory) && slots == old(slots) && currency == old(currency)
      ensures experiencePoints == old(experiencePoints) && factionReputations == old(factionReputations)
      ensures activeQuests == old(activeQuests) && completedQuests == old(completedQuests)
    {
      var key := GameState.SlotKey(level);
      if GameState.HasSpellSlot(spellSlots, level) {
        spellSlots := spellSlots[key := spellSlots[key]["current" := spellSlots[key]["current"] - 1]];
        return true;
      }
      return false;
    }

    /** change_faction_reputation: an empty faction id changes nothing; otherwise the amount is added, unclamped. */
    method ChangeFactionReputation(factionId: string, amount: int)
      modifies this
      ensures factionId == "" ==> factionReputations == old(factionReputations)
      ensures factionId != "" ==>
        factionReputations == old(factionReputations)[factionId := Coins(old(factionReputations), factionId) + amount]
      ensures inventory == old(inventory) && slots == old(slots) && currency == old(currency)
      ensures experiencePoints == old(experiencePoints) && spellSlots == old(spellSlots)
      ensures activeQuests == old(activeQuests) && completedQuests == old(completedQuests)
    {
      if factionId == "" {
        return;
      }
      var currentRep := Coins(factionReputations, factionId);
      factionReputations := factionReputations[factionId := currentRep + amount];
    }

    /** accept_quest, as AcceptQuestSpec describes; templates holds the ids of ALL_QUESTS. */
    method AcceptQuest(questId: string, stage: string, templates: set<string>) returns (outcome: QuestOutcome)
      modifies this
      ensures (activeQuests, outcome) == AcceptQuestSpec(old(activeQuests), old(completedQuests), templates, questId, stage)
      ensures completedQuests == old(completedQuests)
      ensures inventory == old(inventory) && slots == old(slots) && currency == old(currency)
      ensures experiencePoints == old(experiencePoints) && spellSlots == old(spellSlots)
      ensures factionReputations == old(factionReputations)
    {
      if questId in activeQuests {
        return AlreadyActive;
      }
      if questId in completedQuests {
        return AlreadyCompleted;
      }
      if questId !in templates {
        return NoTemplate;
      }
      activeQuests := activeQuests[questId := QuestProgress(stage, [])];
      return QuestDone;
    }

    /** advance_quest_stage, as AdvanceQuestSpec describes. */
    method AdvanceQuestStage(questId: string, stage: string, templates: set<string>) returns (outcome: QuestOutcome)
      modifies this
      ensures (activeQuests, outcome) == AdvanceQuestSpec(old(activeQuests), templates, questId, stage)
      ensures completedQuests == old(completedQuests)
      ensures inventory == old(inventory) && slots == old(slots) && currency == old(currency)
      ensures experiencePoints == old(experiencePoints) && spellSlots == old(spellSlots)
      ensures factionReputations == old(factionReputations)
    {
      if questId !in activeQuests {
        return NotActive;
      }
      if questId !in templates {
        return NoTemplate;
      }
      activeQuests := activeQuests[questId := activeQuests[questId].(stage := stage)];
      return QuestDone;
    }

    /** complete_optional_objective, as CompleteObjectiveSpec describes. */
    method CompleteOptionalObjective(questId: string, objective: string, templates: set<string>) returns (outcome: QuestOutcome)
      modifies this
      ensures (activeQuests, outcome) == CompleteObjectiveSpec(old(activeQuests), templates, questId, objective)
      ensures completedQuests == old(completedQuests)
      ensures inventory == old(inventory) && slots == old(slots) && currency == old(currency)
      ensures experiencePoints == old(experiencePoints) && spellSlots == old(spellSlots)
      ensures factionReputations == old(factionReputations)
    {
      if questId !in activeQuests {
        return NotActive;
      }
      if questId !in templates {
        return NoTemplate;
      }
      var progress := activeQuests[questId];
      if objective !in progress.optionalDone {
        activeQuests := activeQuests[questId := progress.(optionalDone := progress.optionalDone + [objective])];
        return QuestDone;
      }
      return ObjectiveAlreadyDone;
    }

    /** complete_quest, as CompleteQuestSpec describes. */
    method CompleteQuest(questId: string, templates: set<string>) returns (outcome: QuestOutcome)
      modifies this
      ensures (activeQuests, completedQuests, outcome) == CompleteQuestSpec(old(activeQuests), old(completedQuests), templates, questId)
      ensures inventory == old(inventory) && slots == old(slots) && currency == old(currency)
      ensures experiencePoints == old(experiencePoints) && spellSlots == old(spellSlots)
      ensures factionReputations == old(factionReputations)
    {
      if questId !in activeQuests {
        return NotActive;
      }
      if questId !in templates {
        return NoTemplate;
      }
      activeQuests := activeQuests - {questId};
      if questId !in completedQuests {
        completedQuests := completedQuests + [questId];
      }
      return QuestDone;
    }
    /** apply_rewards, as Rewards describes: the experience, then the three loops in turn. */
    method ApplyRewards(rewards: Dict, registry: Registry) returns (messages: seq<RewardMessage>, raised: bool)
      modifies this
      ensures RewardsResult(experiencePoints, inventory, currency, factionReputations, messages, raised)
        == Rewards(old(experiencePoints), old(inventory), old(currency), old(factionReputations), registry, rewards)
      ensures slots == old(slots) && spellSlots == old(spellSlots)
      ensures activeQuests == old(activeQuests) && completedQuests == old(completedQuests)
    {
      messages := [];
      var xp := Lookup(rewards, "xp");
      if xp.Some? && AsInt(xp.value).Some? && AsInt(xp.value).value > 0 {
        experiencePoints := experiencePoints + AsInt(xp.value).value;
        messages := [GainedXp(AsInt(xp.value).value)];
      }
      messages, raised := RewardItems(registry, messages, ListEntries(rewards, "items"));
      if raised {
        return;
      }
      messages := RewardCurrency(messages, CurrencyEntries(rewards));
      messages := RewardReputations(messages, ListEntries(rewards, "faction_rep_changes"));
    }

    /** The items loop of apply_rewards. */
    method RewardItems(registry: Registry, messages0: seq<RewardMessage>, items: seq<Json>)
      returns (messages: seq<RewardMessage>, raised: bool)
      modifies this
      ensures (inventory, messages, raised) == ItemRewards(registry, old(inventory), messages0, items)
      ensures experiencePoints == old(experiencePoints)
      ensures currency == old(currency) && factionReputations == old(factionReputations)
      ensures slots == old(slots) && spellSlots == old(spellSlots)
      ensures activeQuests == old(activeQuests) && completedQuests == old(completedQuests)
    {
      messages := messages0;
      var pending := items;
      while pending != []
        invariant ItemRewards(registry, inventory, messages, pending) == ItemRewards(registry, old(inventory), messages0, items)
        invariant experiencePoints == old(experiencePoints)
        invariant currency == old(currency) && factionReputations == old(factionReputations)
        invariant slots == old(slots) && spellSlots == old(spellSlots)
        invariant activeQuests == old(activeQuests) && completedQuests == old(completedQuests)
        decreases |pending|
      {
        if pending[0].JStr? {
          var added := AddToInventory(pending[0].s);
          if !added {
            return messages, true;
          }
          messages := messages + [Obtained(ItemName(registry, pending[0].s))];
        }
        pending := pending[1..];
      }
      return messages, false;
    }

    /** The currency loop of apply_rewards. */
    method RewardCurrency(messages0: seq<RewardMessage>, coins: Dict) returns (messages: seq<RewardMessage>)
      modifies this
      ensures (currency, messages) == CurrencyRewards(old(currency), messages0, coins)
      ensures experiencePoints == old(experiencePoints) && inventory == old(inventory)
      ensures factionReputations == old(factionReputations)
      ensures slots == old(slots) && spellSlots == old(spellSlots)
      ensures activeQuests == old(activeQuests) && completedQuests == old(completedQuests)
    {
      messages := messages0;
      var pending := coins;
      while pending != []
        invariant CurrencyRewards(currency, messages, pending) == CurrencyRewards(old(currency), messages0, coins)
        invariant experiencePoints == old(experiencePoints) && inventory == old(inventory)
        invariant factionReputations == old(factionReputations)
        invariant slots == old(slots) && spellSlots == old(spellSlots)
        invariant activeQuests == old(activeQuests) && completedQuests == old(completedQuests)
        decreases |pending|
      {
        var (kind, amount) := pending[0];
        if AsInt(amount).Some? && AsInt(amount).value > 0 {
          currency := currency[kind := Coins(currency, kind) + AsInt(amount).value];
          messages := messages + [Received(AsInt(amount).value, kind)];
        }
        pending := pending[1..];
      }
    }

    /** The faction_rep_changes loop of apply_rewards. */
    method RewardReputations(messages0: seq<RewardMessage>, changes: seq<Json>) returns (messages: seq<RewardMessage>)
      modifies this
      ensures (factionReputations, messages) == ReputationRewards(old(factionReputations), messages0, changes)
      ensures experiencePoints == old(experiencePoints) && inventory == old(inventory) && currency == old(currency)
      ensures slots == old(slots) && spellSlots == old(spellSlots)
      ensures activeQuests == old(activeQuests) && completedQuests == old(completedQuests)
    {
      messages := messages0;
      var pending := changes;
      while pending != []
        invariant ReputationRewards(factionReputations, messages, pending) == ReputationRewards(old(factionReputations), messages0, changes)
        invariant experiencePoints == old(experiencePoints) && inventory == old(inventory) && currency == old(currency)
        invariant slots == old(slots) && spellSlots == old(spellSlots)
        invariant activeQuests == old(activeQuests) && completedQuests == old(completedQuests)
        decreases |pending|
      {
        var change := pending[0];
        if change.JObject? {
          var factionId := Get(change.members, "faction_id", JNull);
          var amount := Get(change.members, "amount", JNull);
          if factionId.JStr? && factionId.s != "" && AsInt(amount).Some? {
            factionReputations := factionReputations[factionId.s := Coins(factionReputations, factionId.s) + AsInt(amount).value];
            messages := messages + [ReputationChanged(factionId.s, AsInt(amount).value)];
          }
        }
        pending := pending[1..];
      }
    }
  }

  // ---------------------------------------------------------------- the attack

  /** Who attacks or is attacked: a Player, or an NPC, of which an attack reads only its Character. */
  datatype Fighter = PlayerF(player: Player) | NpcF(character: Character)
  {
    function Core(): Character
    {
      match this
      case PlayerF(p) => p.character
      case NpcF(c) => c
    }

    function Frame(): set<object>
    {
      match this
      case PlayerF(p) => {p, p.character}
      case NpcF(c) => {c}
    }

    ghost predicate Valid()
      reads Frame()
    {
      match this
      case PlayerF(p) => p.Valid()
      case NpcF(c) => c.Valid()
    }
  }

  /** A Player's weapon as get_equipped_weapon_stats reports it; an NPC's base dice with no weapon bonuses. */
  function WeaponOf(attacker: Fighter, registry: Registry): GameState.WeaponStats
    reads attacker.Frame()
  {
    match attacker
    case PlayerF(p) => WeaponStatsOf(p.slots, registry, p.character.baseDamageDice)
    case NpcF(c) => GameState.WeaponStats(c.baseDamageDice, 0, 0)
  }

  /** combat_stats attack_bonus (default 0) plus the weapon's. */
  function AttackBonusOf(attacker: Fighter, registry: Registry): int
    reads attacker.Frame()
  {
    attacker.Core().Stat("attack_bonus", 0) + WeaponOf(attacker, registry).attackBonus
  }

  /** combat_stats damage_bonus (default 0) plus the weapon's. */
  function DamageBonusOf(attacker: Fighter, registry: Registry): int
    reads attacker.Frame()
  {
    attacker.Core().Stat("damage_bonus", 0) + WeaponOf(attacker, registry).damageBonus
  }

  /** A Player target's effective armour class; an NPC target's armor_class, 10 by default. */
  function ArmorClassOf(target: Fighter, registry: Registry): int
    reads target.Frame()
  {
    match target
    case PlayerF(p) => p.baseArmorClass + SlotsAcBonus(p.slots, registry, ArmorSlots)
    case NpcF(c) => c.Stat("armor_class", 10)
  }

  /**
   * Character.attack of characters.py with the d20, the damage roll and the poison
   * percentile given. Attacking oneself and missing change nothing; a hit whose dice
   * (with an optional "+M"/"-M") do not parse raises before any damage; otherwise the
   * target takes max(0, roll + M + damage bonus) once and, if it survives and the
   * percentile is at most 10, is poisoned for 3 turns at potency 2.
   */
  method Attack(attacker: Fighter, target: Fighter, registry: Registry, d20: int, damageRoll: int, percent: int)
    returns (r: Result<Attacks.AttackOutcome, DiceError>)
    requires attacker.Valid() && target.Valid()
    modifies target.Core()
    ensures attacker.Valid() && target.Valid()
    ensures attacker.Core() == target.Core() ==> r == Ok(Attacks.SelfAttack)
    ensures attacker.Core() != target.Core() && !Attacks.Hits(d20, AttackBonusOf(attacker, registry), ArmorClassOf(target, registry)) ==>
      r == Ok(Attacks.Miss(d20 + AttackBonusOf(attacker, registry), ArmorClassOf(target, registry)))
    ensures r.Err? <==> (attacker.Core() != target.Core()
      && Attacks.Hits(d20, AttackBonusOf(attacker, registry), ArmorClassOf(target, registry))
      && ParseModifiedDice(WeaponOf(attacker, registry).damageDice).Err?)
    ensures r.Err? ==> ParseModifiedDice(WeaponOf(attacker, registry).damageDice) == Err(r.error)
    ensures !(r.Ok? && r.value.Hit?) ==>
      target.Core().currentHp == old(target.Core().currentHp) && target.Core().statusEffects == old(target.Core().statusEffects)
    ensures (r.Ok? && r.value.Hit?) <==> (attacker.Core() != target.Core()
      && Attacks.Hits(d20, AttackBonusOf(attacker, registry), ArmorClassOf(target, registry))
      && ParseModifiedDice(WeaponOf(attacker, registry).damageDice).Ok?)
    ensures r.Ok? && r.value.Hit? ==> (
      var dice := ParseModifiedDice(WeaponOf(attacker, registry).damageDice).value;
      r.value.damage == Attacks.DamageOf(damageRoll, dice.modifier + DamageBonusOf(attacker, registry))
      && target.Core().currentHp == AfterDamage(old(target.Core().currentHp), r.value.damage)
      && (r.value.poisoned <==> target.Core().currentHp > 0 && Attacks.PoisonRoll(percent))
      && target.Core().statusEffects ==
           (if r.value.poisoned then AddOrRefresh(old(target.Core().statusEffects), Poison, 3, 2)
            else old(target.Core().statusEffects))
      && (r.value.defeated <==> target.Core().currentHp <= 0))
  {
    var victim := target.Core();
    if attacker.Core() == victim {
      return Ok(Attacks.SelfAttack);
    }
    var attackBonus := attacker.Core().Stat("attack_bonus", 0);
    var damageBonus := attacker.Core().Stat("damage_bonus", 0);
    var dice := attacker.Core().baseDamageDice;
    if attacker.PlayerF? {
      var weapon := WeaponStatsOf(attacker.player.slots, registry, attacker.player.character.baseDamageDice);
      dice := weapon.damageDice;
      attackBonus := attackBonus + weapon.attackBonus;
      damageBonus := damageBonus + weapon.damageBonus;
    }
    var total := d20 + attackBonus;
    var armorClass;
    if target.PlayerF? {
      armorClass := target.player.EffectiveArmorClass(registry);
    } else {
      armorClass := victim.Stat("armor_class", 10);
    }
    if total < armorClass {
      return Ok(Attacks.Miss(total, armorClass));
    }
    var parsed := ParseModifiedDice(dice);
    if parsed.Err? {
      return Err(parsed.error);
    }
    var damage := Attacks.DamageOf(damageRoll, parsed.value.modifier + damageBonus);
    var _ := victim.TakeDamage(damage);
    var poisoned := false;
    if victim.Alive() && Attacks.PoisonRoll(percent) {
      var _ := victim.AddStatusEffect(Poison, 3, 2);
      poisoned := true;
    }
    return Ok(Attacks.Hit(total, armorClass, damage, poisoned, !victim.Alive()));
  }

  /**
   * An unarmed Player fights with its base dice, and a "+M"/"-M" on those dice reaches the
   * damage: a hit deals max(0, roll + M + damage bonus).
   */
  lemma UnarmedDamageDice(p: Player, registry: Registry, count: nat, sides: nat, modifier: nat, negative: bool)
    requires "weapon" in p.slots && p.slots["weapon"] == None
    requires 0 < count && 0 < sides
    requires p.character.baseDamageDice == Format(count, sides) + (if negative then "-" else "+") + NatToString(modifier)
    ensures WeaponOf(PlayerF(p), registry) == GameState.WeaponStats(p.character.baseDamageDice, 0, 0)
    ensures ParseModifiedDice(WeaponOf(PlayerF(p), registry).damageDice)
      == Ok(ModifiedDice(count, sides, if negative then -(modifier as int) else modifier))
  {
    ParseModifiedDiceOfFormat(count, sides, modifier, negative);
  }
}
