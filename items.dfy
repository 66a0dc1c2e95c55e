// items.py: the item classes and the checks their constructors make before
// setting their fields once. Weights are floats and are not modelled.

module Items {
  import opened Wrappers
  import opened Json

  /** What an item of each class carries beyond the fields every Item has. */
  datatype Kind =
    | Plain
    | Weapon(damageDice: string, attackBonus: int, damageBonus: int, weaponType: string)
    | Armor(acBonus: int, armorType: string)
    | Consumable(effects: seq<Json>)
    | KeyItem(unlocks: Json)

  datatype Item = Item(
    id: string,
    name: string,
    itemType: string,
    description: string,
    value: Json,
    loreKeywords: Json,
    kind: Kind)

  /** The ValueError each constructor raises, by the argument it rejects. */
  datatype ItemError = BadId | BadName | BadDamageDice | BadAcBonus | BadEffects

  /** `not x or not isinstance(x, str)` is false: x is a non-empty str. */
  predicate NonEmptyStr(j: Json)
  {
    j.JStr? && j.s != ""
  }

  /** The price an item gets when none is given. */
  const DefaultValue: Json := JObject([("buy", JInt(0)), ("sell", JInt(0))])

  /** `x if x is not None else default` */
  function OrDefault(x: Json, default: Json): (r: Json)
    ensures x != JNull ==> r == x
    ensures x == JNull ==> r == default
  {
    if x == JNull then default else x
  }

  /**
   * Item.__init__: the id is checked before the name; value defaults to
   * {"buy": 0, "sell": 0} and lore_keywords to [].
   */
  function NewItem(id: Json, name: Json, itemType: string, description: string, value: Json, loreKeywords: Json)
    : (r: Result<Item, ItemError>)
    ensures r.Ok? <==> NonEmptyStr(id) && NonEmptyStr(name)
    ensures !NonEmptyStr(id) ==> r == Err(BadId)
    ensures NonEmptyStr(id) && !NonEmptyStr(name) ==> r == Err(BadName)
    ensures r.Ok? ==> (r.value.id == id.s && r.value.name == name.s && r.value.itemType == itemType
      && r.value.description == description && r.value.kind == Plain
      && r.value.value == OrDefault(value, DefaultValue) && r.value.loreKeywords == OrDefault(loreKeywords, JArray([])))
    ensures r.Ok? ==> WellFormed(r.value)
  {
    if !NonEmptyStr(id) then Err(BadId)
    else if !NonEmptyStr(name) then Err(BadName)
    else Ok(Item(id.s, name.s, itemType, description, OrDefault(value, DefaultValue), OrDefault(loreKeywords, JArray([])), Plain))
  }

  /** Weapon.__init__: the Item checks, then a non-empty damage_dice string; the type is "weapon". */
  function NewWeapon(id: Json, name: Json, damageDice: Json, description: string, attackBonus: int, damageBonus: int,
                     weaponType: string, value: Json, loreKeywords: Json): (r: Result<Item, ItemError>)
    ensures r.Ok? <==> NonEmptyStr(id) && NonEmptyStr(name) && NonEmptyStr(damageDice)
    ensures NewItem(id, name, "weapon", description, value, loreKeywords).Err? ==>
      r == NewItem(id, name, "weapon", description, value, loreKeywords)
    ensures NewItem(id, name, "weapon", description, value, loreKeywords).Ok? && !NonEmptyStr(damageDice) ==> r == Err(BadDamageDice)
    ensures r.Ok? ==> r.value == NewItem(id, name, "weapon", description, value, loreKeywords).value
      .(kind := Weapon(damageDice.s, attackBonus, damageBonus, weaponType))
    ensures r.Ok? ==> WellFormed(r.value)
  {
    match NewItem(id, name, "weapon", description, value, loreKeywords)
    case Err(e) => Err(e)
    case Ok(base) =>
      if !NonEmptyStr(damageDice) then Err(BadDamageDice)
      else Ok(base.(kind := Weapon(damageDice.s, attackBonus, damageBonus, weaponType)))
  }

  /** Armor.__init__: the Item checks, then an int ac_bonus (a bool is an int to isinstance); the type is "armor". */
  function NewArmor(id: Json, name: Json, acBonus: Json, description: string, armorType: string, value: Json, loreKeywords: Json)
    : (r: Result<Item, ItemError>)
    ensures r.Ok? <==> NonEmptyStr(id) && NonEmptyStr(name) && AsInt(acBonus).Some?
    ensures NewItem(id, name, "armor", description, value, loreKeywords).Err? ==>
      r == NewItem(id, name, "armor", description, value, loreKeywords)
    ensures NewItem(id, name, "armor", description, value, loreKeywords).Ok? && AsInt(acBonus).None? ==> r == Err(BadAcBonus)
    ensures r.Ok? ==> r.value == NewItem(id, name, "armor", description, value, loreKeywords).value
      .(kind := Armor(AsInt(acBonus).value, armorType))
    ensures r.Ok? ==> WellFormed(r.value)
  {
    match NewItem(id, name, "armor", description, value, loreKeywords)
    case Err(e) => Err(e)
    case Ok(base) =>
      match AsInt(acBonus)
      case None => Err(BadAcBonus)
      case Some(bonus) => Ok(base.(kind := Armor(bonus, armorType)))
  }

  /** Consumable.__init__: the Item checks, then effects must be a list; the type is "consumable". */
  function NewConsumable(id: Json, name: Json, effects: Json, description: string, value: Json, loreKeywords: Json)
    : (r: Result<Item, ItemError>)
    ensures r.Ok? <==> NonEmptyStr(id) && NonEmptyStr(name) && effects.JArray?
    ensures NewItem(id, name, "consumable", description, value, loreKeywords).Err? ==>
      r == NewItem(id, name, "consumable", description, value, loreKeywords)
    ensures NewItem(id, name, "consumable", description, value, loreKeywords).Ok? && !effects.JArray? ==> r == Err(BadEffects)
    ensures r.Ok? ==> r.value == NewItem(id, name, "consumable", description, value, loreKeywords).value
      .(kind := Consumable(effects.items))
    ensures r.Ok? ==> WellFormed(r.value)
  {
    match NewItem(id, name, "consumable", description, value, loreKeywords)
    case Err(e) => Err(e)
    case Ok(base) =>
      if !effects.JArray? then Err(BadEffects)
      else Ok(base.(kind := Consumable(effects.items)))
  }

  /** KeyItem.__init__: only the Item checks; the type is the one given ("key_item" by default) and unlocks defaults to []. */
  function NewKeyItem(id: Json, name: Json, itemType: string, description: string, unlocks: Json, value: Json, loreKeywords: Json)
    : (r: Result<Item, ItemError>)
    ensures r.Ok? <==> NewItem(id, name, itemType, description, value, loreKeywords).Ok?
    ensures r.Err? ==> r == NewItem(id, name, itemType, description, value, loreKeywords)
    ensures r.Ok? ==> r.value == NewItem(id, name, itemType, description, value, loreKeywords).value
      .(kind := KeyItem(OrDefault(unlocks, JArray([]))))
    ensures r.Ok? ==> WellFormed(r.value)
  {
    match NewItem(id, name, itemType, description, value, loreKeywords)
    case Err(e) => Err(e)
    case Ok(base) => Ok(base.(kind := KeyItem(OrDefault(unlocks, JArray([])))))
  }

  /** What every constructed item satisfies: non-empty id and name, and a class whose type string matches it. */
  predicate WellFormed(item: Item)
  {
    item.id != "" && item.name != ""
    && (item.kind.Weapon? ==> item.itemType == "weapon" && item.kind.damageDice != "")
    && (item.kind.Armor? ==> item.itemType == "armor")
    && (item.kind.Consumable? ==> item.itemType == "consumable")
  }
}
