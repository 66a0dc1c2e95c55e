// The combat session of combat_system.py on the PlayerState of game_state.py:
// starting a fight, one turn of the current participant, and the end check.

module CombatSystem {
  import opened Wrappers
  import opened PyText
  import opened Dice
  import opened HitPoints
  import opened StatusEffects
  import opened Combatants
  import opened GameState
  import opened Attacks
  import opened Initiative
  import opened Commands
  import opened Tables

  /** The first participant whose id is the given one: next(p for p in participants if p.id == id). */
  function FindById(participants: seq<Combatant>, id: string): (r: Option<Combatant>)
    ensures r.Some? ==> r.value in participants && r.value.Core().id == id
    ensures r.None? ==> forall c | c in participants :: c.Core().id != id
  {
    if participants == [] then None
    else if participants[0].Core().id == id then Some(participants[0])
    else FindById(participants[1..], id)
  }

  /** The Characters of the participants, the objects whose hit points a turn reads. */
  function Cores(participants: seq<Combatant>): set<Character>
  {
    set c | c in participants :: c.Core()
  }

  /** The first living participant whose name matches, ignoring case. */
  function FindTarget(participants: seq<Combatant>, name: string): (r: Option<Combatant>)
    reads Cores(participants)
    ensures r.Some? ==> r.value in participants && Lower(r.value.Core().name) == Lower(name) && r.value.Core().Alive()
    ensures r.None? ==> forall c | c in participants :: !(Lower(c.Core().name) == Lower(name) && c.Core().Alive())
  {
    if participants == [] then None
    else if Lower(participants[0].Core().name) == Lower(name) && participants[0].Core().Alive() then Some(participants[0])
    else FindTarget(participants[1..], name)
  }

  /** turn_order.index(id): the first position of id. */
  function IndexOf(order: seq<string>, id: string): (r: nat)
    requires id in order
    ensures r < |order| && order[r] == id
    ensures forall k :: 0 <= k < r ==> order[k] != id
  {
    if order[0] == id then 0 else 1 + IndexOf(order[1..], id)
  }

  /** The id after id in the turn order, wrapping round; None where index() raises ValueError. */
  function NextTurn(order: seq<string>, id: string): (r: Option<string>)
    ensures r.Some? <==> id in order
    ensures r.Some? ==> r.value in order
  {
    if id !in order then None else Some(order[(IndexOf(order, id) + 1) % |order|])
  }

  /** With no repeated ids, the turn passes from position i to position i + 1, and from the last back to the first. */
  lemma NextTurnOfDistinct(order: seq<string>, i: nat)
    requires i < |order|
    requires forall j, k :: 0 <= j < k < |order| ==> order[j] != order[k]
    ensures NextTurn(order, order[i]) == Some(order[(i + 1) % |order|])
  {
    var found := IndexOf(order, order[i]);
    assert found == i;
  }

  /** The participants as Characters, in order, for determine_initiative. */
  function CoreList(participants: seq<Combatant>): (r: seq<Character>)
    ensures |r| == |participants| && forall k :: 0 <= k < |r| ==> r[k] == participants[k].Core()
  {
    if participants == [] then [] else [participants[0].Core()] + CoreList(participants[1..])
  }

  /** The NPCs as participants, in order. */
  function NpcCombatants(npcs: seq<Npc>): (r: seq<Combatant>)
    ensures |r| == |npcs| && forall k :: 0 <= k < |npcs| ==> r[k] == NpcC(npcs[k])
  {
    if npcs == [] then [] else [NpcC(npcs[0])] + NpcCombatants(npcs[1..])
  }

  /** [player] + npcs */
  function Lineup(player: Player, npcs: seq<Npc>): (r: seq<Combatant>)
    ensures |r| == |npcs| + 1 && r[0] == PlayerC(player)
    ensures forall k :: 0 <= k < |npcs| ==> r[k + 1] == NpcC(npcs[k])
  {
    [PlayerC(player)] + NpcCombatants(npcs)
  }

  /** Every object of the given participants. */
  function FrameOf(participants: seq<Combatant>): set<object>
  {
    (set c | c in participants :: c.Core() as object)
    + (set c | c in participants && c.PlayerC? :: c.player as object)
  }

  /** Every participant is valid: each Character keeps its invariant and each Player's slots hold fitting items. */
  ghost predicate AllValid(participants: seq<Combatant>)
    reads FrameOf(participants)
  {
    (forall c | c in participants :: c.Core().Valid())
    && (forall c | c in participants && c.PlayerC? :: WellEquipped(c.player.equipment))
  }

  /** A valid participant list holds valid participants. */
  lemma MemberValid(participants: seq<Combatant>, c: Combatant)
    requires AllValid(participants) && c in participants
    ensures c.Valid()
  {
  }

  /** A fight's lineup is valid when the player and every NPC Character are. */
  lemma LineupValid(player: Player, npcs: seq<Npc>)
    requires player.Valid() && forall n | n in npcs :: n.character.Valid()
    ensures AllValid(Lineup(player, npcs))
  {
    var all := Lineup(player, npcs);
    forall c | c in all
      ensures c.Valid()
    {
      var k :| 0 <= k < |all| && all[k] == c;
      if k > 0 {
        assert c == NpcC(npcs[k - 1]);
      }
    }
  }

  /** determine_initiative over the participants' Characters; a non-empty lineup gives a non-empty order. */
  method TurnOrderOf(participants: seq<Combatant>, rolls: seq<int>) returns (order: seq<string>)
    requires participants != [] && |rolls| == |participants|
    ensures order == Ids(Ranked(CoreList(participants), rolls)) && order != []
  {
    var cores := CoreList(participants);
    RankedProperties(cores, rolls);
    order := DetermineInitiative(cores, rolls);
  }

  /** What handing the turn on from id does: the next id, or AdvanceFailed where index() raises. */
  function AdvanceOf(order: seq<string>, id: string): (r: Advance)
    ensures r.AdvancedTo? <==> id in order
    ensures r.AdvancedTo? ==> r.next in order && NextTurn(order, id) == Some(r.next)
  {
    match NextTurn(order, id)
    case Some(next) => AdvancedTo(next)
    case None => AdvanceFailed
  }

  /** What the status-effect tick of a participant would do now. */
  ghost function TickOf(c: Combatant): TickOutcome
    reads c.Core()
  {
    Tick(c.Core().statusEffects, c.Core().currentHp)
  }

  /**
   * How a turn's result moves the turn: a hand-over to the next id, a stopped combat where
   * the id is not in the order, or, for a prompt, a refusal or an escaping error, no change.
   */
  predicate Moved(result: TurnResult, id: string, turn0: Option<string>, turn1: Option<string>,
                  inCombat0: bool, inCombat1: bool, order: seq<string>)
  {
    if (result.AttackerMissing? || result.Acted?) && result.advance != Stay then
      result.advance == AdvanceOf(order, id)
      && (result.advance.AdvancedTo? ==> turn1 == Some(result.advance.next) && inCombat1 == inCombat0)
      && (result.advance.AdvanceFailed? ==> !inCombat1 && turn1 == turn0)
    else
      turn1 == turn0 && inCombat1 == inCombat0
  }

  /**
   * What the turn of a found participant amounts to, given what its status-effect tick does
   * (tick) and the typed action: the tick's messages are always reported; a tick error escapes;
   * a participant dead after the tick is incapacitated; a prompt, and only a prompt, stays;
   * the Player's commands and the NPC's attack give their actions; and the turn moves as Moved says.
   */
  predicate Turn(attacker: Combatant, id: string, tick: TickOutcome, action: string, result: TurnResult,
                 turn0: Option<string>, turn1: Option<string>, inCombat0: bool, inCombat1: bool, order: seq<string>)
  {
    var acts := tick.status != Failed && tick.hp > 0;
    (result.Rejected? || result.Raised? || result.Acted?)
    && result.ticks == tick.messages
    && ((result.Raised? && result.failure == TickFailed) <==> tick.status == Failed)
    && ((result.Acted? && result.action == Incapacitated) <==> (tick.status != Failed && tick.hp <= 0))
    && (result.Acted? ==> (result.advance == Stay <==> result.action == Prompt))
    && ((result.Acted? && result.action == Prompt) <==> (acts && attacker.PlayerC? && ParseCommand(action) == NoAction))
    && (acts && attacker.PlayerC? ==>
         (ParseCommand(action) == Blank ==> result.Raised? && result.failure == BlankAction)
         && (ParseCommand(action) == PassCmd ==> result.Acted? && result.action == Passed)
         && (ParseCommand(action) == Unknown ==> result.Rejected? && result.rejection == InvalidAction)
         && (ParseCommand(action) == AttackCmd(None) ==> result.Rejected? && result.rejection == AttackUsage)
         && (ParseCommand(action) == CastCmd(None) ==> result.Rejected? && result.rejection == CastUsage))
    && (acts && attacker.NpcC? ==>
         (result.Acted? && (result.action == PlayerDown || result.action.Attacked?))
         || (result.Raised? && result.failure.DiceFailure?))
    && Moved(result, id, turn0, turn1, inCombat0, inCombat1, order)
  }

  /** The Character an action changed: the target of a hit or of a spell that landed. */
  function TouchedBy(r: ActionResult): Option<Character>
  {
    if r.Done? && r.action.Attacked? && r.action.outcome.Hit? then Some(r.action.target)
    else if r.Done? && r.action.SpellCast? then Some(r.action.target)
    else None
  }

  /** The action result a turn reports once its participant acts (the other kinds never arise there). */
  function ActionOf(result: TurnResult): ActionResult
  {
    match result
    case Rejected(_, rejection) => Refused(rejection)
    case Raised(_, failure) => Raises(failure)
    case Acted(_, action, _) => Done(action)
    case _ => Done(Prompt)
  }

  /** A Character keeps its hit points and status effects. */
  twostate predicate Kept(c: Character)
    reads c
  {
    c.currentHp == old(c.currentHp) && c.statusEffects == old(c.statusEffects)
  }

  /** Every participant keeps its hit points and effects, except the one excluded and the one touched. */
  twostate predicate KeptBut(participants: seq<Combatant>, excluded: Option<Character>, new touched: Option<Character>)
    reads Cores(participants)
  {
    forall c | c in participants && Some(c.Core()) != excluded && Some(c.Core()) != touched :: Kept(c.Core())
  }

  /**
   * What "attack <name>" by the Player p did, against the participants as they were: no living
   * participant of that name is a refusal; naming oneself declines; otherwise the d20 against
   * the armor class of the first one found decides the attack, and a hit lands on it.
   */
  twostate predicate AttackDone(participants: seq<Combatant>, p: Player, name: string, rolls: Rolls, new r: ActionResult)
    reads Cores(participants)
  {
    var found := old(FindTarget(participants, name));
    if found.None? then r == Refused(NoSuchTarget(name))
    else if found.value.Core() == p.character then r == Done(DeclinedSelf)
    else Struck(p, found.value, rolls, r)
  }

  /** A spell landed: heal raises the hit points by its amount up to the maximum, damage lowers them down to 0. */
  predicate SpellLanded(effectType: string, c: CastOutcome, maxHp: int, hp0: int, hp1: int)
  {
    c.Cast? && c.amount >= 0
    && (effectType == "heal" ==> c.effect == Healed && hp0 <= maxHp && hp1 == AfterHeal(hp0, maxHp, c.amount))
    && (effectType == "damage" ==> c.effect == Dealt && hp1 == AfterDamage(hp0, c.amount))
  }

  /**
   * What "cast <spell> [on <target>]" by the Player p did, against the participants and slots as
   * they were and the caster's hit points and effects given: a named target that is no living
   * participant is a refusal; the spell is then refused as CastRefusal says, spending a slot only
   * when its dice fail, or it lands on the first living participant of that name, by the spell
   * amount, and spends a slot of its level.
   */
  twostate predicate CastDone(participants: seq<Combatant>, p: Player, req: CastRequest, rolls: Rolls, new r: ActionResult,
                              casterHp: int, casterEffects: seq<StatusEffect>)
    reads Cores(participants), p
  {
    var named := if req.target.Some? then old(FindTarget(participants, req.target.value)) else None;
    if req.target.Some? && named.None? then r == Refused(NoSuchCastTarget(req.target.value))
    else
      var refusal := CastRefusal(req.spell, req.target.Some?, old(p.spellSlots), rolls.spell);
      if refusal.Some? then
        r == Refused(CastRefused(refusal.value))
        && p.spellSlots == (if refusal.value == InvalidDice
                            then ConsumeSlot(old(p.spellSlots), LookupSpell(req.spell).value.level).value
                            else old(p.spellSlots))
      else
        var spell := LookupSpell(req.spell).value;
        var t := named.value.Core();
        var self := t == p.character;
        var dice := SpellDice(spell, rolls.spell);
        r.Done? && r.action.SpellCast? && r.action.target == t && r.action.cast.Cast?
        && dice.Ok? && r.action.cast.amount == SpellAmount(dice.value, SpellModifier(p.abilityScores, spell))
        && SpellLanded(spell.effectType, r.action.cast, t.maxHp, if self then casterHp else old(t.currentHp), t.currentHp)
        && t.statusEffects == (if self then casterEffects else old(t.statusEffects))
        && p.spellSlots == ConsumeSlot(old(p.spellSlots), spell.level).value
  }

  /**
   * What an NPC's turn did to the session's player pc: nothing to attack once pc is down;
   * otherwise the d20 against pc's armor class decides the attack, a hit whose damage dice do
   * not parse raises, and a hit lands on pc.
   */
  twostate predicate NpcDone(pc: Player, attacker: Combatant, rolls: Rolls, new r: ActionResult)
    reads pc, pc.character, attacker.Frame()
  {
    var victim := pc.character;
    if !old(victim.Alive()) then r == Done(PlayerDown)
    else
      var self := attacker.Core() == victim;
      var bonus := old(AttackBonus(attacker));
      var armorClass := old(TargetArmorClass(PlayerC(pc)));
      if !self && Hits(rolls.d20, bonus, armorClass) && ParseDice(DamageDice(attacker)).Err? then
        r == Raises(DiceFailure(ParseDice(DamageDice(attacker)).error))
      else
        r.Done? && r.action.Attacked? && r.action.target == victim
        && Decided(r.action.outcome, self, rolls.d20, bonus, armorClass)
        && (r.action.outcome.Hit? ==>
              HitLanded(r.action.outcome, rolls.damage, old(DamageBonus(attacker)), rolls.percent,
                        old(victim.currentHp), old(victim.statusEffects), victim.currentHp, victim.statusEffects))
  }

  /**
   * The Player p attacked the participant t: the d20 against t's armor class decided the
   * attack, and a hit landed on t; anything else left t as it was.
   */
  twostate predicate Struck(p: Player, t: Combatant, rolls: Rolls, new r: ActionResult)
    reads t.Core()
  {
    r.Done? && r.action.Attacked? && r.action.target == t.Core()
    && Decided(r.action.outcome, false, rolls.d20, old(AttackBonus(PlayerC(p))), old(TargetArmorClass(t)))
    && (r.action.outcome.Hit? ==>
          HitLanded(r.action.outcome, rolls.damage, old(DamageBonus(PlayerC(p))), rolls.percent,
                    old(t.Core().currentHp), old(t.Core().statusEffects), t.Core().currentHp, t.Core().statusEffects))
    && (!r.action.outcome.Hit? ==> Kept(t.Core()))
  }

  /** The Player's attack on another participant, which never raises since a Player's weapon dice parse. */
  method Strike(p: Player, t: Combatant, rolls: Rolls) returns (r: ActionResult)
    requires PlayerC(p).Valid() && t.Valid() && t.Core() != p.character
    modifies t.Core()
    ensures t.Valid()
    ensures Struck(p, t, rolls, r)
  {
    PlayerAttackNeverRaises(PlayerC(p));
    var res := Attack(PlayerC(p), t, rolls.d20, rolls.damage, rolls.percent);
    if res.Err? {
      assert false;
    }
    return Done(Attacked(t.Core(), res.value));
  }

  /**
   * What a turn of attacker did to the Characters once its status effects had ticked as tick
   * says, against the state the action started from, with pc the session's player: the participant's own Character
   * holds what its status effects left, unless its own spell landed on it; every other
   * participant and pc keep their hit points and effects unless the action touched them; and
   * a participant that acts does what AttackDone, CastDone or NpcDone says of its command, as
   * the state stood after the tick.
   */
  twostate predicate TurnEffects(participants: seq<Combatant>, pc: Player, attacker: Combatant, action: string,
                                 rolls: Rolls, new r: ActionResult, tick: TickOutcome)
    reads Cores(participants), pc, pc.character, attacker.Frame()
  {
    var x := attacker.Core();
    var touched := TouchedBy(r);
    var acts := tick.status != Failed && tick.hp > 0;
    var cmd := ParseCommand(action);
    (touched != Some(x) ==> x.currentHp == tick.hp && x.statusEffects == tick.effects)
    && KeptBut(participants, Some(x), touched)
    && (pc.character != x && touched != Some(pc.character) ==> Kept(pc.character))
    && (acts && attacker.PlayerC? && cmd.AttackCmd? && cmd.target.Some? ==>
          AttackDone(participants, attacker.player, cmd.target.value, rolls, r))
    && (acts && attacker.PlayerC? && cmd.CastCmd? && cmd.request.Some? ==>
          CastDone(participants, attacker.player, cmd.request.value, rolls, r, tick.hp, tick.effects))
    && (acts && attacker.NpcC? ==> NpcDone(pc, attacker, rolls, r))
  }

  /** The dice a turn may need, rolled beforehand: the attack's d20, damage and poison percentile, and a spell's dice. */
  datatype Rolls = Rolls(d20: int, damage: int, percent: int, spell: int)

  /** What the current participant did. */
  datatype Action =
    | Prompt                       // a Player with no action typed: wait for input
    | Incapacitated                // dead after the status effects ticked
    | DeclinedSelf                 // a Player named themselves as the target
    | Attacked(target: Character, outcome: AttackOutcome)
    | SpellCast(target: Character, cast: CastOutcome)   // a spell that landed
    | Passed
    | PlayerDown                   // an NPC whose target, the player, is already defeated

  /** Why a Player's command was refused; the turn does not pass. */
  datatype Rejection =
    | AttackUsage
    | NoSuchTarget(name: string)
    | CastUsage
    | NoSuchCastTarget(name: string)
    | CastRefused(cast: CastOutcome)
    | InvalidAction

  /** The exceptions a turn lets escape. */
  datatype Failure =
    | TickFailed                   // take_damage refused a negative poison potency
    | BlankAction                  // split() of a whitespace-only action is empty
    | DiceFailure(error: DiceError)

  /** What the turn hand-over did. */
  datatype Advance = Stay | AdvancedTo(next: string) | AdvanceFailed

  datatype ActionResult = Done(action: Action) | Refused(rejection: Rejection) | Raises(failure: Failure)

  /** What process_combat_turn reports, by kind. */
  datatype TurnResult =
    | NotReady
    | AttackerMissing(advance: Advance)
    | Rejected(ticks: seq<TickMessage>, rejection: Rejection)
    | Raised(ticks: seq<TickMessage>, failure: Failure)
    | Acted(ticks: seq<TickMessage>, action: Action, advance: Advance)

  /** The session end the end check reports. */
  datatype EndKind = StillFighting | AlreadyOver | PlayerDefeated | NpcsDefeated

  /** all(not npc.is_alive() for npc in npcs) with a non-empty list. */
  predicate AllDown(npcs: seq<Npc>)
    reads set n | n in npcs :: n.character
  {
    npcs != [] && forall n | n in npcs :: !n.character.Alive()
  }

  class PlayerState {
    const playerCharacter: Player
    var participants: seq<Combatant>
    var currentTurn: Option<string>
    var turnOrder: seq<string>
    var isInCombat: bool
    var dialogueNpcId: Option<string>
    var dialogueKey: Option<string>

    /** Every object of the participants. */
    ghost function Footprint(): set<object>
      reads this
    {
      FrameOf(participants)
    }

    ghost predicate Valid()
      reads this, Footprint(), playerCharacter, playerCharacter.character
    {
      playerCharacter.Valid()
      && AllValid(participants)
      && TurnInOrder()
    }

    /** The current id, when there is one, is one of the turn order's. */
    predicate TurnInOrder()
      reads this
    {
      currentTurn.Some? ==> currentTurn.value in turnOrder
    }

    /** The guards of process_combat_turn: in combat, a turn order, and a current id that is not empty. */
    predicate Ready()
      reads this
    {
      isInCombat && turnOrder != [] && currentTurn.Some? && currentTurn.value != ""
    }

    constructor(player: Player)
      requires player.Valid()
      ensures Valid() && playerCharacter == player
      ensures participants == [] && currentTurn == None && turnOrder == [] && !isInCombat
      ensures dialogueNpcId == None && dialogueKey == None
    {
      playerCharacter := player;
      participants := [];
      currentTurn := None;
      turnOrder := [];
      isInCombat := false;
      dialogueNpcId := None;
      dialogueKey := None;
    }

    /** start_dialogue */
    method StartDialogue(npcId: string, initialKey: string)
      modifies this
      ensures dialogueNpcId == Some(npcId) && dialogueKey == Some(initialKey)
      ensures InDialogue()
      ensures participants == old(participants) && currentTurn == old(currentTurn)
      ensures turnOrder == old(turnOrder) && isInCombat == old(isInCombat)
    {
      dialogueNpcId := Some(npcId);
      dialogueKey := Some(initialKey);
    }

    /** end_dialogue */
    method EndDialogue()
      modifies this
      ensures dialogueNpcId == None && dialogueKey == None && !InDialogue()
      ensures participants == old(participants) && currentTurn == old(currentTurn)
      ensures turnOrder == old(turnOrder) && isInCombat == old(isInCombat)
    {
      dialogueNpcId := None;
      dialogueKey := None;
    }

    /** is_in_dialogue */
    predicate InDialogue()
      reads this
    {
      dialogueNpcId.Some?
    }

    /**
     * start_combat with one initiative d20 per participant: the player and then the NPCs
     * take part, the turn order is their initiative order and its first id moves first.
     */
    method StartCombat(player: Player, npcs: seq<Npc>, rolls: seq<int>) returns (first: string)
      requires playerCharacter.Valid() && player.Valid()
      requires forall n | n in npcs :: n.character.Valid()
      requires |rolls| == |npcs| + 1
      modifies this
      ensures Valid()
      ensures isInCombat
      ensures participants == Lineup(player, npcs)
      ensures turnOrder == Ids(Ranked(CoreList(participants), rolls))
      ensures turnOrder != [] && first == turnOrder[0] && currentTurn == Some(first)
      ensures dialogueNpcId == old(dialogueNpcId) && dialogueKey == old(dialogueKey)
    {
      var all := Lineup(player, npcs);
      var order := TurnOrderOf(all, rolls);
      first := order[0];
      isInCombat, participants, turnOrder, currentTurn := true, all, order, Some(first);
      LineupValid(player, npcs);
    }

    /**
     * check_combat_end_condition for the player and NPCs it is given: outside combat the
     * session is already over; a defeated player ends it before defeated NPCs do, and all
     * NPCs down needs at least one NPC; an ending clears the four combat fields.
     */
    method CheckCombatEndCondition(player: Player, npcs: seq<Npc>) returns (ended: bool, kind: EndKind)
      requires Valid()
      modifies this
      ensures Valid()
      ensures !old(isInCombat) ==> ended && kind == AlreadyOver
      ensures old(isInCombat) && !player.character.Alive() ==> ended && kind == PlayerDefeated
      ensures old(isInCombat) && player.character.Alive() && AllDown(npcs) ==> ended && kind == NpcsDefeated
      ensures old(isInCombat) && player.character.Alive() && !AllDown(npcs) ==> !ended && kind == StillFighting
      ensures (kind == PlayerDefeated || kind == NpcsDefeated) ==>
        !isInCombat && participants == [] && currentTurn == None && turnOrder == []
      ensures !(kind == PlayerDefeated || kind == NpcsDefeated) ==>
        isInCombat == old(isInCombat) && participants == old(participants)
        && currentTurn == old(currentTurn) && turnOrder == old(turnOrder)
      ensures dialogueNpcId == old(dialogueNpcId) && dialogueKey == old(dialogueKey)
    {
      if !isInCombat {
        return true, AlreadyOver;
      }
      var playerDefeated := !player.character.Alive();
      var allNpcsDefeated := AllDown(npcs);
      if playerDefeated {
        kind := PlayerDefeated;
      } else if allNpcsDefeated {
        kind := NpcsDefeated;
      } else {
        return false, StillFighting;
      }
      isInCombat := false;
      participants := [];
      currentTurn := None;
      turnOrder := [];
      return true, kind;
    }

    /** The participant whose turn it is, when there is one. */
    function Current(): Option<Combatant>
      reads this
    {
      if currentTurn.Some? then FindById(participants, currentTurn.value) else None
    }

    /** The try block that hands the turn on: the next id in the turn order, or ValueError, which stops the combat. */
    method AdvanceTurn(charId: string) returns (advance: Advance)
      requires Valid()
      modifies this
      ensures Valid()
      ensures advance == AdvanceOf(turnOrder, charId)
      ensures advance.AdvancedTo? ==> currentTurn == Some(advance.next) && isInCombat == old(isInCombat)
      ensures advance.AdvanceFailed? ==> !isInCombat && currentTurn == old(currentTurn)
      ensures participants == old(participants) && turnOrder == old(turnOrder)
      ensures dialogueNpcId == old(dialogueNpcId) && dialogueKey == old(dialogueKey)
      ensures unchanged(Footprint(), playerCharacter, playerCharacter.character)
    {
      if charId !in turnOrder {
        isInCombat := false;
        return AdvanceFailed;
      }
      var next := turnOrder[(IndexOf(turnOrder, charId) + 1) % |turnOrder|];
      currentTurn := Some(next);
      return AdvancedTo(next);
    }

    /**
     * The NPC branch: attack the session's player while they are alive (the attack may raise
     * on damage dice that do not parse); otherwise there is nobody to attack.
     */
    method NpcTurn(attacker: Combatant, rolls: Rolls) returns (r: ActionResult)
      requires Valid() && attacker in participants
      modifies playerCharacter.character
      ensures Valid()
      ensures r == Done(PlayerDown) || (r.Done? && r.action.Attacked?) || (r.Raises? && r.failure.DiceFailure?)
      ensures NpcDone(playerCharacter, attacker, rolls, r)
      ensures TouchedBy(r) != Some(playerCharacter.character) ==> Kept(playerCharacter.character)
      ensures KeptBut(participants, None, TouchedBy(r))
    {
      var victim := playerCharacter.character;
      if !victim.Alive() {
        return Done(PlayerDown);
      }
      var target := PlayerC(playerCharacter);
      var res := Attack(attacker, target, rolls.d20, rolls.damage, rolls.percent);
      forall c | c in participants
        ensures c.Core().Valid()
      {
        if c.Core() != victim {
          assert old(c.Core().Valid());
        }
      }
      if res.Err? {
        return Raises(DiceFailure(res.error));
      }
      return Done(Attacked(victim, res.value));
    }

    /**
     * "attack <name>": the first living participant of that name, ignoring case; naming oneself
     * declines; otherwise the Player attacks it (AttackParticipant).
     */
    method PlayerAttack(p: Player, name: string, rolls: Rolls) returns (r: ActionResult)
      requires Valid() && PlayerC(p) in participants
      modifies Cores(participants)
      ensures Valid()
      ensures r.Refused? || r == Done(DeclinedSelf) || (r.Done? && r.action.Attacked?)
      ensures AttackDone(participants, p, name, rolls, r)
      ensures KeptBut(participants, None, TouchedBy(r))
      ensures TouchedBy(r) != Some(playerCharacter.character) ==> Kept(playerCharacter.character)
    {
      var found := FindTarget(participants, name);
      if found.None? {
        return Refused(NoSuchTarget(name));
      }
      if found.value.Core() == p.character {
        return Done(DeclinedSelf);
      }
      r := AttackParticipant(p, found.value, rolls);
    }

    /** The Player attacks another participant. */
    method AttackParticipant(p: Player, t: Combatant, rolls: Rolls) returns (r: ActionResult)
      requires Valid() && PlayerC(p) in participants && t in participants && t.Core() != p.character
      modifies t.Core()
      ensures Valid()
      ensures Struck(p, t, rolls, r)
      ensures TouchedBy(r) != Some(playerCharacter.character) ==> Kept(playerCharacter.character)
    {
      var victim := t.Core();
      MemberValid(participants, PlayerC(p));
      MemberValid(participants, t);
      r := Strike(p, t, rolls);
      forall c | c in participants
        ensures c.Core().Valid()
      {
        if c.Core() != victim {
          assert old(c.Core().Valid());
        }
      }
    }

    /**
     * "cast <spell> [on <target>]": a named target must be a living participant; the Player then
     * casts, and only a successful cast takes the turn.
     */
    method PlayerCast(p: Player, req: CastRequest, rolls: Rolls) returns (r: ActionResult)
      requires Valid() && PlayerC(p) in participants
      modifies Cores(participants), p
      ensures Valid()
      ensures r.Refused? || (r.Done? && r.action.SpellCast?)
      ensures CastDone(participants, p, req, rolls, r, old(p.character.currentHp), old(p.character.statusEffects))
      ensures KeptBut(participants, None, TouchedBy(r))
      ensures TouchedBy(r) != Some(playerCharacter.character) ==> Kept(playerCharacter.character)
      ensures p.equipment == old(p.equipment) && p.inventory == old(p.inventory)
    {
      var target: Option<Character> := None;
      if req.target.Some? {
        var found := FindTarget(participants, req.target.value);
        if found.None? {
          return Refused(NoSuchCastTarget(req.target.value));
        }
        MemberValid(participants, found.value);
        target := Some(found.value.Core());
      }
      MemberValid(participants, PlayerC(p));
      var outcome := p.CastSpell(req.spell, target, rolls.spell);
      forall c | c in participants
        ensures c.Core().Valid()
      {
        if c.Core() != p.character && (target.None? || c.Core() != target.value) {
          assert old(c.Core().Valid());
        }
      }
      forall c | c in participants && c.PlayerC?
        ensures WellEquipped(c.player.equipment)
      {
        if c.player != p {
          assert old(WellEquipped(c.player.equipment));
        }
      }
      if outcome.Cast? {
        return Done(SpellCast(target.value, outcome));
      }
      return Refused(CastRefused(outcome));
    }

    /** The Player branch: the typed command picks the action, and refusals leave the turn where it is. */
    method PlayerTurn(p: Player, action: string, rolls: Rolls) returns (r: ActionResult)
      requires Valid() && PlayerC(p) in participants
      modifies Cores(participants), p
      ensures Valid()
      ensures r == Done(Prompt) <==> ParseCommand(action) == NoAction
      ensures ParseCommand(action) == Blank ==> r == Raises(BlankAction)
      ensures ParseCommand(action) == AttackCmd(None) ==> r == Refused(AttackUsage)
      ensures ParseCommand(action) == CastCmd(None) ==> r == Refused(CastUsage)
      ensures ParseCommand(action) == PassCmd ==> r == Done(Passed)
      ensures ParseCommand(action) == Unknown ==> r == Refused(InvalidAction)
      ensures r != Done(Incapacitated) && r != Raises(TickFailed)
      ensures ParseCommand(action).AttackCmd? && ParseCommand(action).target.Some? ==>
        AttackDone(participants, p, ParseCommand(action).target.value, rolls, r)
      ensures ParseCommand(action).CastCmd? && ParseCommand(action).request.Some? ==>
        CastDone(participants, p, ParseCommand(action).request.value, rolls, r,
                 old(p.character.currentHp), old(p.character.statusEffects))
      ensures KeptBut(participants, None, TouchedBy(r))
      ensures TouchedBy(r) != Some(playerCharacter.character) ==> Kept(playerCharacter.character)
    {
      match ParseCommand(action)
      case NoAction => r := Done(Prompt);
      case Blank => r := Raises(BlankAction);
      case AttackCmd(None) => r := Refused(AttackUsage);
      case AttackCmd(Some(name)) => r := PlayerAttack(p, name, rolls);
      case CastCmd(None) => r := Refused(CastUsage);
      case CastCmd(Some(req)) => r := PlayerCast(p, req, rolls);
      case PassCmd => r := Done(Passed);
      case Unknown => r := Refused(InvalidAction);
    }

    /** The current participant would act this turn: it is found, and it is alive after its effects tick without error. */
    ghost predicate ActsNow()
      reads this, Cores(participants)
    {
      Ready() && Current().Some? && TickOf(Current().value).status != Failed && TickOf(Current().value).hp > 0
    }

    /** tick_status_effects of one participant. */
    method TickParticipant(c: Combatant) returns (status: TickStatus, messages: seq<TickMessage>)
      requires Valid() && c in participants
      modifies c.Core()
      ensures Valid()
      ensures old(TickOf(c)) == TickOutcome(status, c.Core().currentHp, c.Core().statusEffects, messages)
      ensures KeptBut(participants, Some(c.Core()), None)
      ensures forall d | d in participants :: unchanged(d.Gear())
      ensures forall d | d in participants ::
        AttackBonus(d) == old(AttackBonus(d)) && DamageBonus(d) == old(DamageBonus(d))
        && TargetArmorClass(d) == old(TargetArmorClass(d))
    {
      var x := c.Core();
      MemberValid(participants, c);
      status, messages := x.TickStatusEffects();
      forall d | d in participants
        ensures d.Core().Valid()
      {
        if d.Core() != x {
          assert old(d.Core().Valid());
        }
      }
    }

    /**
     * process_combat_turn with the turn's dice given. Outside a ready combat nothing happens.
     * A current id with no participant hands the turn on (or stops the combat); otherwise the
     * participant takes its turn (TakeTurn).
     */
    method ProcessCombatTurn(action: string, rolls: Rolls) returns (result: TurnResult)
      requires Valid()
      modifies this, Footprint(), playerCharacter.character
      ensures Valid()
      ensures participants == old(participants) && turnOrder == old(turnOrder)
      ensures dialogueNpcId == old(dialogueNpcId) && dialogueKey == old(dialogueKey)
      ensures result == NotReady <==> !old(Ready())
      ensures result.NotReady? ==> currentTurn == old(currentTurn) && isInCombat == old(isInCombat)
      ensures old(Ready()) && old(Current()).None? ==>
        result == AttackerMissing(AdvanceOf(turnOrder, old(currentTurn).value))
        && (result.advance.AdvancedTo? ==> currentTurn == Some(result.advance.next) && isInCombat == old(isInCombat))
        && (result.advance.AdvanceFailed? ==> !isInCombat && currentTurn == old(currentTurn))
      ensures old(Ready()) && old(Current()).Some? ==> Turn(old(Current().value), old(currentTurn).value,
        old(TickOf(Current().value)), action, result, old(currentTurn), currentTurn, old(isInCombat), isInCombat, turnOrder)
      ensures old(Ready()) && old(Current()).Some? && TouchedBy(ActionOf(result)) != Some(old(Current().value.Core())) ==>
        old(Current().value.Core()).currentHp == old(TickOf(Current().value)).hp
        && old(Current().value.Core()).statusEffects == old(TickOf(Current().value)).effects
    {
      if !isInCombat || turnOrder == [] || currentTurn.None? || currentTurn.value == "" {
        return NotReady;
      }
      var id := currentTurn.value;
      var found := FindById(participants, id);
      if found.None? {
        var advance := AdvanceTurn(id);
        return AttackerMissing(advance);
      }
      result := TakeTurn(id, found.value, action, rolls);
    }

    /**
     * The turn of a participant that was found: its status effects tick first, also when a
     * Player is only being prompted; a tick error escapes, so the turn returns nothing (Raised
     * stands for the escaping exception, and the tick messages it carries are those of the
     * effects that ticked before the failure, which the exception leaves in no result); a
     * participant dead after the tick hands the turn on. A living Player acts on the typed
     * command, a living NPC attacks the session's player. Only an action, never a prompt, a
     * refusal or an escaping error, hands the turn on. What the action did is stated by
     * AfterTick against the state the tick left, which differs from the state before the turn
     * only in the participant's own hit points and effects (TickParticipant).
     */
    method TakeTurn(id: string, attacker: Combatant, action: string, rolls: Rolls) returns (result: TurnResult)
      requires Valid() && Ready() && currentTurn == Some(id) && Current() == Some(attacker)
      modifies this, Footprint(), playerCharacter.character
      ensures Valid()
      ensures participants == old(participants) && turnOrder == old(turnOrder)
      ensures dialogueNpcId == old(dialogueNpcId) && dialogueKey == old(dialogueKey)
      ensures Turn(attacker, id, old(TickOf(attacker)), action, result, old(currentTurn), currentTurn, old(isInCombat), isInCombat, turnOrder)
      ensures TouchedBy(ActionOf(result)) != Some(attacker.Core()) ==>
        attacker.Core().currentHp == old(TickOf(attacker)).hp && attacker.Core().statusEffects == old(TickOf(attacker)).effects
    {
      var status, ticks := TickParticipant(attacker);
      result := AfterTick(id, attacker, action, rolls, status, ticks, old(TickOf(attacker)));
    }

    /** The rest of the turn once the participant's effects have ticked as tick says. */
    method AfterTick(id: string, attacker: Combatant, action: string, rolls: Rolls, status: TickStatus,
                     ticks: seq<TickMessage>, ghost tick: TickOutcome) returns (result: TurnResult)
      requires Valid() && Ready() && currentTurn == Some(id) && Current() == Some(attacker)
      requires tick == TickOutcome(status, attacker.Core().currentHp, attacker.Core().statusEffects, ticks)
      modifies this, Footprint(), playerCharacter.character
      ensures Valid()
      ensures participants == old(participants) && turnOrder == old(turnOrder)
      ensures dialogueNpcId == old(dialogueNpcId) && dialogueKey == old(dialogueKey)
      ensures Turn(attacker, id, tick, action, result, old(currentTurn), currentTurn, old(isInCombat), isInCombat, turnOrder)
      ensures TurnEffects(participants, playerCharacter, attacker, action, rolls, ActionOf(result), tick)
    {
      if status == Failed {
        return Raised(ticks, TickFailed);
      }
      if !attacker.Core().Alive() {
        var advance := AdvanceTurn(id);
        return Acted(ticks, Incapacitated, advance);
      }
      result := Act(id, attacker, action, rolls, ticks, tick);
    }

    /** The turn of a participant alive after its tick, which left it as tick says. */
    method Act(id: string, attacker: Combatant, action: string, rolls: Rolls, ticks: seq<TickMessage>, ghost tick: TickOutcome)
      returns (result: TurnResult)
      requires Valid() && Ready() && currentTurn == Some(id) && Current() == Some(attacker)
      requires tick.status != Failed && tick.hp > 0 && tick.messages == ticks
      requires attacker.Core().currentHp == tick.hp && attacker.Core().statusEffects == tick.effects
      modifies this, Footprint(), playerCharacter.character
      ensures Valid()
      ensures participants == old(participants) && turnOrder == old(turnOrder)
      ensures dialogueNpcId == old(dialogueNpcId) && dialogueKey == old(dialogueKey)
      ensures Turn(attacker, id, tick, action, result, old(currentTurn), currentTurn, old(isInCombat), isInCombat, turnOrder)
      ensures TurnEffects(participants, playerCharacter, attacker, action, rolls, ActionOf(result), tick)
    {
      if attacker.PlayerC? {
        result := ActPlayer(id, attacker, action, rolls, ticks, tick);
      } else {
        result := ActNpc(id, attacker, action, rolls, ticks, tick);
      }
    }

    /** A living Player's turn: the typed command, then the turn passes unless it only prompted or was refused. */
    method ActPlayer(id: string, attacker: Combatant, action: string, rolls: Rolls, ticks: seq<TickMessage>, ghost tick: TickOutcome)
      returns (result: TurnResult)
      requires attacker.PlayerC?
      requires Valid() && Ready() && currentTurn == Some(id) && Current() == Some(attacker)
      requires tick.status != Failed && tick.hp > 0 && tick.messages == ticks
      requires attacker.Core().currentHp == tick.hp && attacker.Core().statusEffects == tick.effects
      modifies this, Footprint(), playerCharacter.character
      ensures Valid()
      ensures participants == old(participants) && turnOrder == old(turnOrder)
      ensures dialogueNpcId == old(dialogueNpcId) && dialogueKey == old(dialogueKey)
      ensures Turn(attacker, id, tick, action, result, old(currentTurn), currentTurn, old(isInCombat), isInCombat, turnOrder)
      ensures TurnEffects(participants, playerCharacter, attacker, action, rolls, ActionOf(result), tick)
    {
      var r := PlayerAction(attacker, action, rolls, tick);
      result := Conclude(id, ticks, r);
    }

    /** What a living Player's command does, before the turn passes. */
    method PlayerAction(attacker: Combatant, action: string, rolls: Rolls, ghost tick: TickOutcome) returns (r: ActionResult)
      requires Valid() && attacker in participants && attacker.PlayerC?
      requires tick.status != Failed && tick.hp > 0
      requires attacker.Core().currentHp == tick.hp && attacker.Core().statusEffects == tick.effects
      modifies Cores(participants), attacker.player
      ensures Valid()
      ensures r == Done(Prompt) <==> ParseCommand(action) == NoAction
      ensures ParseCommand(action) == Blank ==> r == Raises(BlankAction)
      ensures ParseCommand(action) == AttackCmd(None) ==> r == Refused(AttackUsage)
      ensures ParseCommand(action) == CastCmd(None) ==> r == Refused(CastUsage)
      ensures ParseCommand(action) == PassCmd ==> r == Done(Passed)
      ensures ParseCommand(action) == Unknown ==> r == Refused(InvalidAction)
      ensures r != Done(Incapacitated) && r != Raises(TickFailed)
      ensures TurnEffects(participants, playerCharacter, attacker, action, rolls, r, tick)
    {
      r := PlayerTurn(attacker.player, action, rolls);
    }

    /** A living NPC's turn: it attacks the session's player, then the turn passes unless its dice raised. */
    method ActNpc(id: string, attacker: Combatant, action: string, rolls: Rolls, ticks: seq<TickMessage>, ghost tick: TickOutcome)
      returns (result: TurnResult)
      requires attacker.NpcC?
      requires Valid() && Ready() && currentTurn == Some(id) && Current() == Some(attacker)
      requires tick.status != Failed && tick.hp > 0 && tick.messages == ticks
      requires attacker.Core().currentHp == tick.hp && attacker.Core().statusEffects == tick.effects
      modifies this, Footprint(), playerCharacter.character
      ensures Valid()
      ensures participants == old(participants) && turnOrder == old(turnOrder)
      ensures dialogueNpcId == old(dialogueNpcId) && dialogueKey == old(dialogueKey)
      ensures Turn(attacker, id, tick, action, result, old(currentTurn), currentTurn, old(isInCombat), isInCombat, turnOrder)
      ensures TurnEffects(participants, playerCharacter, attacker, action, rolls, ActionOf(result), tick)
    {
      var r := NpcTurn(attacker, rolls);
      result := Conclude(id, ticks, r);
    }

    /** The turn passes after an action other than a prompt; a refusal or an error keeps it. */
    method Conclude(id: string, ticks: seq<TickMessage>, r: ActionResult) returns (result: TurnResult)
      requires Valid()
      modifies this
      ensures Valid()
      ensures participants == old(participants) && turnOrder == old(turnOrder)
      ensures dialogueNpcId == old(dialogueNpcId) && dialogueKey == old(dialogueKey)
      ensures r.Refused? ==> result == Rejected(ticks, r.rejection)
      ensures r.Raises? ==> result == Raised(ticks, r.failure)
      ensures r == Done(Prompt) ==> result == Acted(ticks, Prompt, Stay)
      ensures r.Done? && r.action != Prompt ==> result == Acted(ticks, r.action, AdvanceOf(turnOrder, id))
      ensures ActionOf(result) == r
      ensures unchanged(Footprint(), playerCharacter, playerCharacter.character)
      ensures unchanged(Cores(participants))
      ensures forall c | c in participants :: unchanged(c.Frame())
      ensures Moved(result, id, old(currentTurn), currentTurn, old(isInCombat), isInCombat, turnOrder)
    {
      match r
      case Refused(rejection) => return Rejected(ticks, rejection);
      case Raises(failure) => return Raised(ticks, failure);
      case Done(done) =>
        if done == Prompt {
          return Acted(ticks, Prompt, Stay);
        }
        var advance := AdvanceTurn(id);
        return Acted(ticks, done, advance);
    }
  }
}
