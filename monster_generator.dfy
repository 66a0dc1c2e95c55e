// monster_generator.py: composing a monster from a race template, attribute
// templates and a role template. random.choice and random.randint are
// replaced by injected picks; hp_multiplier and the threat level are floats
// and are not modelled.

module MonsterGenerator {
  import opened Wrappers
  import opened Json
  import opened PyText

  // ------------------------------------------------------- get_nested_value

  /** The path leads through dicts that hold every key in turn. */
  predicate Reaches(data: Json, keys: seq<string>)
    decreases |keys|
  {
    keys == []
    || (data.JObject? && keys[0] in Keys(data.members)
        && Reaches(Lookup(data.members, keys[0]).value, keys[1..]))
  }

  /** The value at the end of a path that leads somewhere. */
  function At(data: Json, keys: seq<string>): Json
    requires Reaches(data, keys)
    decreases |keys|
  {
    if keys == [] then data else At(Lookup(data.members, keys[0]).value, keys[1..])
  }

  /** get_nested_value: the default as soon as a step is not a dict or lacks the key. */
  method GetNestedValue(data: Json, keys: seq<string>, default: Json) returns (r: Json)
    ensures Reaches(data, keys) ==> r == At(data, keys)
    ensures !Reaches(data, keys) ==> r == default
  {
    var current := data;
    var i := 0;
    assert keys[0..] == keys;
    while i < |keys|
      invariant 0 <= i <= |keys|
      invariant Reaches(data, keys) <==> Reaches(current, keys[i..])
      invariant Reaches(data, keys) ==> At(data, keys) == At(current, keys[i..])
    {
      assert keys[i..][1..] == keys[i + 1..];
      if !current.JObject? || keys[i] !in Keys(current.members) {
        return default;
      }
      current := Lookup(current.members, keys[i]).value;
      i := i + 1;
    }
    return current;
  }

  /** Following a path in two legs is following it in one. */
  lemma {:induction false} ReachesAppend(data: Json, p: seq<string>, q: seq<string>)
    ensures Reaches(data, p + q) <==> Reaches(data, p) && Reaches(At(data, p), q)
    ensures Reaches(data, p + q) ==> At(data, p + q) == At(At(data, p), q)
    decreases |p|
  {
    if p == [] {
      assert p + q == q;
    } else {
      assert (p + q)[0] == p[0];
      assert (p + q)[1..] == p[1..] + q;
      if data.JObject? && p[0] in Keys(data.members) {
        ReachesAppend(Lookup(data.members, p[0]).value, p[1..], q);
      }
    }
  }

  // ---------------------------------------------------------- templates

  /** A template as loaded: a dict. */
  type Template = Dict

  /** A template table keyed by id, as __init__ builds it. */
  type Templates = seq<(string, Template)>

  function TemplateIds(templates: Templates): seq<string>
  {
    seq(|templates|, i requires 0 <= i < |templates| => templates[i].0)
  }

  /** self.attribute_templates.values() */
  function Values(templates: Templates): (r: seq<Template>)
    ensures |r| == |templates|
    ensures forall i :: 0 <= i < |templates| ==> r[i] == templates[i].1
  {
    seq(|templates|, i requires 0 <= i < |templates| => templates[i].1)
  }

  /** self.attribute_templates[attr_id] for an id that is present. */
  function TemplateOf(templates: Templates, id: string): (r: Option<Template>)
    ensures r.None? <==> id !in TemplateIds(templates)
    ensures r.Some? ==> r.value in Values(templates)
  {
    if templates == [] then None
    else if templates[0].0 == id then
      assert TemplateIds(templates)[0] == id;
      Some(templates[0].1)
    else
      assert TemplateIds(templates) == [templates[0].0] + TemplateIds(templates[1..]);
      assert Values(templates) == [templates[0].1] + Values(templates[1..]);
      TemplateOf(templates[1..], id)
  }

  // ---------------------------------------------------- _select_attributes

  /** The templates named by ids, in the order named, unknown ids skipped. */
  function KnownTemplates(templates: Templates, ids: seq<string>): (r: seq<Template>)
    ensures |r| <= |ids|
    ensures forall t | t in r :: t in Values(templates)
  {
    if ids == [] then []
    else
      (match TemplateOf(templates, ids[0])
       case Some(t) => [t]
       case None => [])
      + KnownTemplates(templates, ids[1..])
  }

  /** Naming only known ids picks their templates one for one. */
  lemma {:induction false} KnownTemplatesAllKnown(templates: Templates, ids: seq<string>)
    requires forall id | id in ids :: id in TemplateIds(templates)
    ensures |KnownTemplates(templates, ids)| == |ids|
    ensures forall i :: 0 <= i < |ids| ==> KnownTemplates(templates, ids)[i] == TemplateOf(templates, ids[i]).value
    decreases |ids|
  {
    if ids != [] {
      assert forall id | id in ids[1..] :: id in ids;
      KnownTemplatesAllKnown(templates, ids[1..]);
      var r := KnownTemplates(templates, ids);
      assert r == [TemplateOf(templates, ids[0]).value] + KnownTemplates(templates, ids[1..]);
      forall i | 0 < i < |ids|
        ensures r[i] == TemplateOf(templates, ids[i]).value
      {
        assert r[i] == KnownTemplates(templates, ids[1..])[i - 1];
        assert ids[1..][i - 1] == ids[i];
      }
    }
  }

  /** Ids that no template has contribute nothing, wherever they stand. */
  lemma {:induction false} KnownTemplatesAppend(templates: Templates, a: seq<string>, b: seq<string>)
    ensures KnownTemplates(templates, a + b) == KnownTemplates(templates, a) + KnownTemplates(templates, b)
    decreases |a|
  {
    if a == [] {
      assert a + b == b;
    } else {
      var head := match TemplateOf(templates, a[0]) case Some(t) => [t] case None => [];
      var rest := KnownTemplates(templates, a[1..]);
      var other := KnownTemplates(templates, b);
      assert (a + b)[0] == a[0];
      assert (a + b)[1..] == a[1..] + b;
      KnownTemplatesAppend(templates, a[1..], b);
      assert KnownTemplates(templates, a + b) == head + (rest + other);
      assert KnownTemplates(templates, a) == head + rest;
      assert head + (rest + other) == (head + rest) + other;
    }
  }

  /** An attribute template's id (every template has one: __init__ indexes by it). */
  function IdOf(t: Template): Json
  {
    Get(t, "id", JNull)
  }

  /** `attr['id'] in possible_tags` for a string id; a tag container `in` cannot search lists nothing. */
  predicate Listed(t: Template, tags: Json)
  {
    IdOf(t).JStr? && PyIn(IdOf(t).s, tags) == Some(true)
  }

  /** [attr for attr in values if attr['id'] in possible_tags] */
  function ListedOnly(values: seq<Template>, tags: Json): (r: seq<Template>)
    ensures forall t :: t in r <==> t in values && Listed(t, tags)
  {
    if values == [] then []
    else (if Listed(values[0], tags) then [values[0]] else []) + ListedOnly(values[1..], tags)
  }

  /** The attributes the random path chooses from: the listed ones, or all when none is listed. */
  function Eligible(templates: Templates, tags: Json): (r: seq<Template>)
    ensures ListedOnly(Values(templates), tags) != [] ==> r == ListedOnly(Values(templates), tags)
    ensures ListedOnly(Values(templates), tags) == [] ==> r == Values(templates)
    ensures forall t | t in r :: t in Values(templates)
  {
    var listed := ListedOnly(Values(templates), tags);
    if listed == [] then Values(templates) else listed
  }

  /**
   * How many attributes the random path tries for: one, one or two from
   * difficulty 4, two or three from difficulty 7. `extra` is the coin
   * random.randint throws between the two; a difficulty of None or 0 is
   * falsy.
   */
  function AttributeCount(difficulty: Option<int>, extra: bool): (n: nat)
    ensures 1 <= n <= 3
    ensures difficulty.None? || difficulty.value < 4 ==> n == 1
    ensures difficulty.Some? && difficulty.value >= 7 ==> n == (if extra then 3 else 2)
    ensures difficulty.Some? && 4 <= difficulty.value < 7 ==> n == (if extra then 2 else 1)
  {
    match difficulty
    case None => 1
    case Some(d) =>
      if d == 0 then 1
      else if d >= 7 then (if extra then 3 else 2)
      else if d >= 4 then (if extra then 2 else 1)
      else 1
  }

  predicate NoDuplicates<T(==)>(s: seq<T>)
  {
    forall i, j :: 0 <= i < j < |s| ==> s[i] != s[j]
  }

  /** The k-th random.choice, as an index into the eligible list (a missing pick is the first). */
  function Pick(picks: seq<nat>, k: nat, size: nat): (i: nat)
    requires size > 0
    ensures i < size
  {
    if k < |picks| then picks[k] % size else 0
  }

  /**
   * _select_attributes. Explicit ids: the known templates in the order named.
   * Otherwise, with truthy possible_attribute_tags, up to AttributeCount
   * distinct picks from the eligible attributes.
   */
  method SelectAttributes(templates: Templates, race: Dict, attributeIds: seq<string>,
                          difficulty: Option<int>, extra: bool, picks: seq<nat>)
    returns (selected: seq<Template>)
    ensures attributeIds != [] ==> selected == KnownTemplates(templates, attributeIds)
    ensures attributeIds == [] && !Truthy(Get(race, "possible_attribute_tags", JArray([]))) ==> selected == []
    ensures attributeIds == [] ==>
      var eligible := Eligible(templates, Get(race, "possible_attribute_tags", JArray([])));
      && NoDuplicates(selected)
      && (forall t | t in selected :: t in eligible)
      && |selected| <= |eligible|
      && |selected| <= AttributeCount(difficulty, extra)
    ensures attributeIds == [] && Truthy(Get(race, "possible_attribute_tags", JArray([]))) && templates != [] ==>
      |selected| >= 1
  {
    if attributeIds != [] {
      selected := NamedAttributes(templates, attributeIds);
      return;
    }
    var possibleTags := Get(race, "possible_attribute_tags", JArray([]));
    if !Truthy(possibleTags) {
      return [];
    }
    var eligible := Eligible(templates, possibleTags);
    selected := RandomAttributes(eligible, AttributeCount(difficulty, extra), picks);
  }

  /** The explicit-ids path of _select_attributes: the known templates, in the order named. */
  method NamedAttributes(templates: Templates, attributeIds: seq<string>) returns (selected: seq<Template>)
    ensures selected == KnownTemplates(templates, attributeIds)
  {
    selected := [];
    var i := 0;
    while i < |attributeIds|
      invariant 0 <= i <= |attributeIds|
      invariant selected + KnownTemplates(templates, attributeIds[i..]) == KnownTemplates(templates, attributeIds)
    {
      assert attributeIds[i..][1..] == attributeIds[i + 1..];
      var found := TemplateOf(templates, attributeIds[i]);
      if found.Some? {
        selected := selected + [found.value];
      }
      i := i + 1;
    }
  }

  /**
   * The random path of _select_attributes: min(count, len(eligible)) rounds of
   * random.choice, keeping each new pick and stopping once all are taken.
   */
  method RandomAttributes(eligible: seq<Template>, count: nat, picks: seq<nat>) returns (selected: seq<Template>)
    ensures NoDuplicates(selected)
    ensures forall t | t in selected :: t in eligible
    ensures |selected| <= |eligible| && |selected| <= count
    ensures eligible != [] && count >= 1 ==> |selected| >= 1
  {
    selected := [];
    var rounds := if count < |eligible| then count else |eligible|;
    var k := 0;
    while k < rounds
      invariant 0 <= k <= rounds
      invariant |selected| <= k
      invariant k > 0 ==> |selected| >= 1
      invariant NoDuplicates(selected)
      invariant forall t | t in selected :: t in eligible
      invariant |selected| <= |eligible|
    {
      var chosen := eligible[Pick(picks, k, |eligible|)];
      if chosen !in selected {
        selected := selected + [chosen];
      }
      if |selected| == |eligible| {
        break;
      }
      k := k + 1;
    }
  }

  // ------------------------------------------------------- _generate_name

  /** The race name used when a race template has none. */
  const UnknownRace: string := "알 수 없는 종족"

  /** The description used when a race template has no description_base. */
  const UnknownBeing: string := "정체를 알 수 없는 존재입니다."

  /** attr[key] for every attribute that has the key, in order. */
  function Field(attributes: seq<Template>, key: string): (r: seq<Json>)
    ensures |r| <= |attributes|
  {
    if attributes == [] then []
    else
      (match Lookup(attributes[0], key)
       case Some(v) => [v]
       case None => [])
      + Field(attributes[1..], key)
  }

  /** role[key] when the role is truthy and has the key. */
  function RoleField(role: Option<Template>, key: string): (r: seq<Json>)
    ensures |r| <= 1
  {
    match role
    case Some(t) => if t != [] && key in Keys(t) then [Lookup(t, key).value] else []
    case None => []
  }

  /** The name's words: attribute prefixes, the race name, the role name, attribute suffixes. */
  function NameParts(race: Template, attributes: seq<Template>, role: Option<Template>): (parts: seq<Json>)
    ensures |parts| >= 1
  {
    Field(attributes, "name_prefix_kr") + [Get(race, "name_kr", JStr(UnknownRace))]
    + RoleField(role, "name_kr") + Field(attributes, "name_suffix_kr")
  }

  predicate AllStrings(parts: seq<Json>)
  {
    forall p | p in parts :: p.JStr?
  }

  function Texts(parts: seq<Json>): (r: seq<string>)
    requires AllStrings(parts)
    ensures |r| == |parts|
    ensures forall i :: 0 <= i < |parts| ==> r[i] == parts[i].s
  {
    seq(|parts|, i requires 0 <= i < |parts| => parts[i].s)
  }

  /** sep.join(parts); None where a part is not a str and Python raises TypeError. */
  function JoinParts(parts: seq<Json>, sep: string): Option<string>
  {
    if AllStrings(parts) then Some(Join(Texts(parts), sep)) else None
  }

  /** The loop of _generate_name that collects one key's values from the attributes, in order. */
  method CollectField(attributes: seq<Template>, key: string) returns (found: seq<Json>)
    ensures found == Field(attributes, key)
  {
    found := [];
    var i := 0;
    assert attributes[0..] == attributes;
    while i < |attributes|
      invariant 0 <= i <= |attributes|
      invariant found + Field(attributes[i..], key) == Field(attributes, key)
    {
      assert attributes[i..][1..] == attributes[i + 1..];
      if key in Keys(attributes[i]) {
        found := found + [Lookup(attributes[i], key).value];
      }
      i := i + 1;
    }
    assert attributes[|attributes|..] == [];
  }

  /** _generate_name, building the parts list step by step. */
  method GenerateName(race: Template, attributes: seq<Template>, role: Option<Template>) returns (name: Option<string>)
    ensures name == JoinParts(NameParts(race, attributes, role), " ")
  {
    var prefixes := CollectField(attributes, "name_prefix_kr");
    var parts := prefixes + [Get(race, "name_kr", JStr(UnknownRace))];
    var roleName: seq<Json> := [];
    if role.Some? && role.value != [] && "name_kr" in Keys(role.value) {
      roleName := [Lookup(role.value, "name_kr").value];
    }
    assert roleName == RoleField(role, "name_kr");
    parts := parts + roleName;
    var suffixes := CollectField(attributes, "name_suffix_kr");
    parts := parts + suffixes;
    assert parts == NameParts(race, attributes, role);
    if AllStrings(parts) {
      name := Some(Join(Texts(parts), " "));
    } else {
      name := None;
    }
  }

  /** A name whose parts hold no space splits back into those parts, the race name among them. */
  lemma NameSplitsIntoParts(race: Template, attributes: seq<Template>, role: Option<Template>)
    requires AllStrings(NameParts(race, attributes, role))
    requires forall p | p in NameParts(race, attributes, role) :: ' ' !in p.s
    ensures JoinParts(NameParts(race, attributes, role), " ").Some?
    ensures SplitOn(JoinParts(NameParts(race, attributes, role), " ").value, ' ')
            == Texts(NameParts(race, attributes, role))
    ensures Get(race, "name_kr", JStr(UnknownRace)).s in SplitOn(JoinParts(NameParts(race, attributes, role), " ").value, ' ')
  {
    var parts := NameParts(race, attributes, role);
    var texts := Texts(parts);
    forall t | t in texts
      ensures ' ' !in t
    {
      var i :| 0 <= i < |texts| && texts[i] == t;
      assert parts[i] in parts;
    }
    SplitOnJoin(texts, ' ');
    var at := |Field(attributes, "name_prefix_kr")|;
    assert parts[at] == Get(race, "name_kr", JStr(UnknownRace));
    assert texts[at] in texts;
  }

  // ------------------------------------------------ _generate_description

  /** The description's pieces: the race base, then attribute fragments, then the role fragment. */
  function DescriptionParts(race: Template, attributes: seq<Template>, role: Option<Template>): (parts: seq<Json>)
    ensures |parts| >= 1
    ensures parts[0] == Get(race, "description_base", JStr(UnknownBeing))
  {
    [Get(race, "description_base", JStr(UnknownBeing))]
    + Field(attributes, "description_fragment") + RoleField(role, "description_fragment")
  }

  /**
   * The description made of the pieces: the base as it is when there are no
   * fragments, else f"{base} {' '.join(fragments)}". None where join raises
   * (a fragment that is not a str) or the base is not a str.
   */
  function DescriptionOf(parts: seq<Json>): Option<Json>
    requires |parts| >= 1
  {
    if |parts| == 1 then Some(parts[0])
    else if AllStrings(parts) then Some(JStr(parts[0].s + " " + Join(Texts(parts[1..]), " ")))
    else None
  }

  /** _generate_description, building the pieces step by step. */
  method GenerateDescription(race: Template, attributes: seq<Template>, role: Option<Template>)
    returns (description: Option<Json>)
    ensures description == DescriptionOf(DescriptionParts(race, attributes, role))
  {
    var parts: seq<Json> := [Get(race, "description_base", JStr(UnknownBeing))];
    var i := 0;
    while i < |attributes|
      invariant 0 <= i <= |attributes|
      invariant parts + Field(attributes[i..], "description_fragment")
                == [Get(race, "description_base", JStr(UnknownBeing))] + Field(attributes, "description_fragment")
    {
      assert attributes[i..][1..] == attributes[i + 1..];
      if "description_fragment" in Keys(attributes[i]) {
        parts := parts + [Lookup(attributes[i], "description_fragment").value];
      }
      i := i + 1;
    }
    if role.Some? && role.value != [] && "description_fragment" in Keys(role.value) {
      parts := parts + [Lookup(role.value, "description_fragment").value];
    }
    assert parts == DescriptionParts(race, attributes, role);
    if |parts| > 1 {
      if AllStrings(parts) {
        description := Some(JStr(parts[0].s + " " + Join(Texts(parts[1..]), " ")));
      } else {
        description := None;
      }
    } else {
      description := Some(parts[0]);
    }
  }

  /** With string pieces, the description is all pieces joined by single spaces. */
  lemma DescriptionIsJoin(parts: seq<Json>)
    requires |parts| >= 1 && AllStrings(parts)
    ensures DescriptionOf(parts) == Some(JStr(Join(Texts(parts), " ")))
  {
    if |parts| > 1 {
      var texts := Texts(parts);
      assert texts[1..] == Texts(parts[1..]);
      assert Join(texts, " ") == texts[0] + " " + Join(texts[1..], " ");
      assert DescriptionOf(parts) == Some(JStr(parts[0].s + " " + Join(Texts(parts[1..]), " ")));
    }
  }

  // ----------------------------------------------- _calculate_combat_stats

  /** A stat_modifiers dict, or the numeric entries of base_combat_stats. */
  type Stats = map<string, int>

  /** dict.setdefault(key, value) */
  function SetDefault(m: Stats, key: string, value: int): (r: Stats)
    ensures key in r
    ensures key in m ==> r == m
    ensures key !in m ==> r == m[key := value]
  {
    if key in m then m else m[key := value]
  }

  /** The base stats with hp 10, ac 10, attack 0, damage 0 and speed 30 where the race gives none. */
  function WithDefaults(base: Stats): (r: Stats)
    ensures r.Keys == base.Keys + {"hp", "ac", "attack_bonus", "damage_bonus", "speed"}
    ensures forall k | k in base :: r[k] == base[k]
    ensures "hp" !in base ==> r["hp"] == 10
    ensures "ac" !in base ==> r["ac"] == 10
    ensures "attack_bonus" !in base ==> r["attack_bonus"] == 0
    ensures "damage_bonus" !in base ==> r["damage_bonus"] == 0
    ensures "speed" !in base ==> r["speed"] == 30
  {
    SetDefault(SetDefault(SetDefault(SetDefault(SetDefault(base, "hp", 10), "ac", 10), "attack_bonus", 0), "damage_bonus", 0), "speed", 30)
  }

  /** modifiers.get(key, 0) */
  function Mod(m: Stats, key: string): int
  {
    if key in m then m[key] else 0
  }

  /** The sum of one modifier over all attributes. */
  function Total(modifiers: seq<Stats>, key: string): int
  {
    if modifiers == [] then 0 else Mod(modifiers[0], key) + Total(modifiers[1..], key)
  }

  lemma {:induction false} TotalAppend(a: seq<Stats>, b: seq<Stats>, key: string)
    ensures Total(a + b, key) == Total(a, key) + Total(b, key)
    decreases |a|
  {
    if a == [] {
      assert a + b == b;
    } else {
      assert (a + b)[0] == a[0];
      assert (a + b)[1..] == a[1..] + b;
      TotalAppend(a[1..], b, key);
    }
  }

  /** The stats dict, max_hp and base_damage_dice. */
  datatype CombatStats = CombatStats(stats: Stats, maxHp: int, damageDice: string)

  /**
   * The additive result: each of hp, ac, attack, damage and speed is the
   * race's value (or its default) plus the attributes' and the role's
   * additions; ac leaves the dict as armor_class, hp as max_hp.
   */
  function CombatStatsOf(base: Stats, baseDice: Option<string>, attributes: seq<Stats>, role: Stats): (r: CombatStats)
    ensures "hp" !in r.stats && "ac" !in r.stats
    ensures r.stats.Keys == base.Keys - {"hp", "ac"} + {"attack_bonus", "damage_bonus", "speed", "armor_class"}
    ensures forall k | k in base && k !in {"hp", "ac", "attack_bonus", "damage_bonus", "speed", "armor_class"} ::
      r.stats[k] == base[k]
    ensures baseDice.None? ==> r.damageDice == "1d4"
  {
    var s := WithDefaults(base);
    var ac := s["ac"] + Total(attributes, "ac_add") + Mod(role, "ac_add") + Mod(role, "ac_shield_bonus_add");
    var attack := s["attack_bonus"] + Total(attributes, "attack_bonus_add") + Mod(role, "attack_bonus_add")
      + Mod(role, "attack_bonus_melee_add") + Mod(role, "attack_bonus_ranged_add");
    var damage := s["damage_bonus"] + Total(attributes, "damage_bonus_add") + Mod(role, "damage_bonus_add");
    var speed := s["speed"] + Total(attributes, "speed_add") + Mod(role, "speed_add");
    CombatStats(
      (s - {"hp", "ac"})["attack_bonus" := attack]["damage_bonus" := damage]["speed" := speed]["armor_class" := ac],
      s["hp"] + Total(attributes, "hp_add") + Mod(role, "hp_add"),
      baseDice.GetOr("1d4"))
  }

  /** The stats of the four additive entries the loop updates in place. */
  predicate Tracked(k: string)
  {
    k == "ac" || k == "attack_bonus" || k == "damage_bonus" || k == "speed"
  }

  /** Adds m[key] to stats[target] when m has key. */
  function AddIfPresent(stats: Stats, target: string, m: Stats, key: string): (r: Stats)
    requires target in stats
    ensures r.Keys == stats.Keys
    ensures r[target] == stats[target] + Mod(m, key)
    ensures forall k | k in stats && k != target :: r[k] == stats[k]
  {
    if key in m then stats[target := stats[target] + m[key]] else stats
  }

  /** The for-loop over the attributes: each attribute's additions, in place. */
  method AddAttributeModifiers(stats0: Stats, hp0: int, attributes: seq<Stats>) returns (stats: Stats, maxHp: int)
    requires "ac" in stats0 && "attack_bonus" in stats0 && "damage_bonus" in stats0 && "speed" in stats0
    ensures stats.Keys == stats0.Keys
    ensures forall k | k in stats0 && !Tracked(k) :: stats[k] == stats0[k]
    ensures maxHp == hp0 + Total(attributes, "hp_add")
    ensures stats["ac"] == stats0["ac"] + Total(attributes, "ac_add")
    ensures stats["attack_bonus"] == stats0["attack_bonus"] + Total(attributes, "attack_bonus_add")
    ensures stats["damage_bonus"] == stats0["damage_bonus"] + Total(attributes, "damage_bonus_add")
    ensures stats["speed"] == stats0["speed"] + Total(attributes, "speed_add")
  {
    stats := stats0;
    maxHp := hp0;
    var pending := attributes;
    while pending != []
      invariant stats.Keys == stats0.Keys
      invariant forall k | k in stats0 && !Tracked(k) :: stats[k] == stats0[k]
      invariant maxHp + Total(pending, "hp_add") == hp0 + Total(attributes, "hp_add")
      invariant stats["ac"] + Total(pending, "ac_add") == stats0["ac"] + Total(attributes, "ac_add")
      invariant stats["attack_bonus"] + Total(pending, "attack_bonus_add")
                == stats0["attack_bonus"] + Total(attributes, "attack_bonus_add")
      invariant stats["damage_bonus"] + Total(pending, "damage_bonus_add")
                == stats0["damage_bonus"] + Total(attributes, "damage_bonus_add")
      invariant stats["speed"] + Total(pending, "speed_add") == stats0["speed"] + Total(attributes, "speed_add")
    {
      var m := pending[0];
      if "hp_add" in m {
        maxHp := maxHp + m["hp_add"];
      }
      stats := AddIfPresent(stats, "ac", m, "ac_add");
      stats := AddIfPresent(stats, "attack_bonus", m, "attack_bonus_add");
      stats := AddIfPresent(stats, "damage_bonus", m, "damage_bonus_add");
      stats := AddIfPresent(stats, "speed", m, "speed_add");
      pending := pending[1..];
    }
  }

  /** The `if role:` block: the role's additions, in place. */
  method AddRoleModifiers(stats0: Stats, hp0: int, role: Stats) returns (stats: Stats, maxHp: int)
    requires "ac" in stats0 && "attack_bonus" in stats0 && "damage_bonus" in stats0 && "speed" in stats0
    ensures stats.Keys == stats0.Keys
    ensures forall k | k in stats0 && !Tracked(k) :: stats[k] == stats0[k]
    ensures maxHp == hp0 + Mod(role, "hp_add")
    ensures stats["ac"] == stats0["ac"] + Mod(role, "ac_add") + Mod(role, "ac_shield_bonus_add")
    ensures stats["attack_bonus"] == stats0["attack_bonus"] + Mod(role, "attack_bonus_add")
      + Mod(role, "attack_bonus_melee_add") + Mod(role, "attack_bonus_ranged_add")
    ensures stats["damage_bonus"] == stats0["damage_bonus"] + Mod(role, "damage_bonus_add")
    ensures stats["speed"] == stats0["speed"] + Mod(role, "speed_add")
  {
    maxHp := hp0;
    if "hp_add" in role {
      maxHp := maxHp + role["hp_add"];
    }
    stats := AddIfPresent(stats0, "ac", role, "ac_add");
    stats := AddIfPresent(stats, "ac", role, "ac_shield_bonus_add");
    stats := AddIfPresent(stats, "attack_bonus", role, "attack_bonus_add");
    stats := AddIfPresent(stats, "attack_bonus", role, "attack_bonus_melee_add");
    stats := AddIfPresent(stats, "attack_bonus", role, "attack_bonus_ranged_add");
    stats := AddIfPresent(stats, "damage_bonus", role, "damage_bonus_add");
    stats := AddIfPresent(stats, "speed", role, "speed_add");
  }

  /** _calculate_combat_stats: defaults, the attributes' and then the role's additions, ac renamed. */
  method CalculateCombatStats(base: Stats, baseDice: Option<string>, attributes: seq<Stats>, role: Stats)
    returns (r: CombatStats)
    ensures r == CombatStatsOf(base, baseDice, attributes, role)
  {
    var s0 := WithDefaults(base);
    var damageDice := baseDice.GetOr("1d4");
    var hp0 := s0["hp"];
    var s1, hp1 := AddAttributeModifiers(s0 - {"hp"}, hp0, attributes);
    var stats, maxHp := AddRoleModifiers(s1, hp1, role);
    var ac := stats["ac"];
    RenamedStats(s0, stats);
    ghost var spec := CombatStatsOf(base, baseDice, attributes, role);
    assert maxHp == spec.maxHp;
    assert damageDice == spec.damageDice;
    assert stats["attack_bonus"] == spec.stats["attack_bonus"];
    assert stats["damage_bonus"] == spec.stats["damage_bonus"];
    assert stats["speed"] == spec.stats["speed"];
    assert stats["ac"] == spec.stats["armor_class"];
    stats := (stats - {"ac"})["armor_class" := ac];
    r := CombatStats(stats, maxHp, damageDice);
  }

  /** Popping ac into armor_class leaves the untracked entries and the three other sums in place. */
  lemma RenamedStats(s0: Stats, stats: Stats)
    requires "hp" in s0 && "ac" in s0 && "attack_bonus" in s0 && "damage_bonus" in s0 && "speed" in s0
    requires stats.Keys == s0.Keys - {"hp"}
    requires forall k | k in s0 - {"hp"} && !Tracked(k) :: stats[k] == s0[k]
    ensures (stats - {"ac"})["armor_class" := stats["ac"]]
      == (s0 - {"hp", "ac"})["attack_bonus" := stats["attack_bonus"]]["damage_bonus" := stats["damage_bonus"]]
           ["speed" := stats["speed"]]["armor_class" := stats["ac"]]
  {
  }

  /** The order in which attributes were chosen does not change the stats. */
  lemma AttributeOrderIrrelevant(base: Stats, baseDice: Option<string>, a: seq<Stats>, b: seq<Stats>, role: Stats)
    ensures CombatStatsOf(base, baseDice, a + b, role) == CombatStatsOf(base, baseDice, b + a, role)
  {
    TotalSwap(a, b, "hp_add");
    TotalSwap(a, b, "ac_add");
    TotalSwap(a, b, "attack_bonus_add");
    TotalSwap(a, b, "damage_bonus_add");
    TotalSwap(a, b, "speed_add");
  }

  /** A sum does not depend on the order of its two parts. */
  lemma TotalSwap(a: seq<Stats>, b: seq<Stats>, key: string)
    ensures Total(a + b, key) == Total(b + a, key)
  {
    TotalAppend(a, b, key);
    TotalAppend(b, a, key);
  }

  /** A race with no stats, no attributes and no role gives exactly the defaults. */
  lemma DefaultCombatStats()
    ensures CombatStatsOf(map[], None, [], map[])
      == CombatStats(map["attack_bonus" := 0, "damage_bonus" := 0, "speed" := 30, "armor_class" := 10], 10, "1d4")
  {
    var r := CombatStatsOf(map[], None, [], map[]);
    assert r.stats.Keys == {"attack_bonus", "damage_bonus", "speed", "armor_class"};
  }
}
