// The state every combatant shares (game_state.py's Character, which
// characters.py repeats line for line): identity, hit points and the
// status-effect list, with the operations that change them in place.

module Combatants {
  import opened Wrappers
  import opened PyText
  import opened HitPoints
  import opened StatusEffects

  /** Why Character.__init__ raises. */
  datatype InitError = InvalidId | InvalidName | InvalidMaxHp | InvalidDamageDice

  /** The constructor's checks, in the order it makes them. */
  function CheckCharacterArgs(id: string, name: string, maxHp: int, baseDamageDice: string): Option<InitError>
  {
    if Strip(id) == [] then Some(InvalidId)
    else if Strip(name) == [] then Some(InvalidName)
    else if maxHp <= 0 then Some(InvalidMaxHp)
    else if Strip(baseDamageDice) == [] then Some(InvalidDamageDice)
    else None
  }

  /** The arguments pass exactly when id, name and dice text each hold a non-space character and max_hp is positive. */
  lemma CheckCharacterArgsAccepts(id: string, name: string, maxHp: int, baseDamageDice: string)
    ensures CheckCharacterArgs(id, name, maxHp, baseDamageDice) == None <==>
      !AllSpace(id) && !AllSpace(name) && maxHp > 0 && !AllSpace(baseDamageDice)
  {
    StripEmptyIffAllSpace(id);
    StripEmptyIffAllSpace(name);
    StripEmptyIffAllSpace(baseDamageDice);
  }

  class Character {
    const id: string
    const name: string
    const maxHp: int
    const combatStats: map<string, int>
    const baseDamageDice: string
    var currentHp: int
    var statusEffects: seq<StatusEffect>

    ghost predicate Valid()
      reads this
    {
      0 <= currentHp <= maxHp && UniqueNames(statusEffects)
    }

    /** A fresh character starts at full health with no status effects. */
    constructor(id: string, name: string, maxHp: int, combatStats: map<string, int>, baseDamageDice: string)
      requires CheckCharacterArgs(id, name, maxHp, baseDamageDice) == None
      ensures Valid()
      ensures this.id == id && this.name == name && this.maxHp == maxHp
      ensures this.combatStats == combatStats && this.baseDamageDice == baseDamageDice
      ensures currentHp == maxHp && statusEffects == []
    {
      this.id := id;
      this.name := name;
      this.maxHp := maxHp;
      this.combatStats := combatStats;
      this.baseDamageDice := baseDamageDice;
      currentHp := maxHp;
      statusEffects := [];
    }

    /** Character(...) including the ValueError paths. */
    static method Create(id: string, name: string, maxHp: int, combatStats: map<string, int>, baseDamageDice: string)
      returns (r: Result<Character, InitError>)
      ensures r.Err? <==> CheckCharacterArgs(id, name, maxHp, baseDamageDice).Some?
      ensures r.Err? ==> CheckCharacterArgs(id, name, maxHp, baseDamageDice) == Some(r.error)
      ensures r.Ok? ==> (fresh(r.value) && r.value.Valid() && r.value.id == id && r.value.name == name &&
        r.value.maxHp == maxHp && r.value.combatStats == combatStats && r.value.baseDamageDice == baseDamageDice &&
        r.value.currentHp == maxHp && r.value.statusEffects == [])
    {
      var check := CheckCharacterArgs(id, name, maxHp, baseDamageDice);
      if check.Some? {
        return Err(check.value);
      }
      var c := new Character(id, name, maxHp, combatStats, baseDamageDice);
      return Ok(c);
    }

    /** combat_stats.get(key, default) */
    function Stat(key: string, default: int): int
    {
      if key in combatStats then combatStats[key] else default
    }

    predicate Alive()
      reads this
    {
      IsAlive(currentHp)
    }

    /** take_damage: ValueError (ok false, nothing changes) for a negative amount, else hit points floor at 0. */
    method TakeDamage(amount: int) returns (ok: bool)
      requires Valid()
      modifies this
      ensures Valid()
      ensures ok <==> amount >= 0
      ensures ok ==> currentHp == AfterDamage(old(currentHp), amount)
      ensures !ok ==> currentHp == old(currentHp)
      ensures statusEffects == old(statusEffects)
    {
      if amount < 0 {
        return false;
      }
      currentHp := if currentHp - amount > 0 then currentHp - amount else 0;
      return true;
    }

    /** heal: ValueError (ok false, nothing changes) for a negative amount, else hit points cap at max_hp. */
    method Heal(amount: int) returns (ok: bool)
      requires Valid()
      modifies this
      ensures Valid()
      ensures ok <==> amount >= 0
      ensures ok ==> currentHp == AfterHeal(old(currentHp), maxHp, amount)
      ensures !ok ==> currentHp == old(currentHp)
      ensures statusEffects == old(statusEffects)
    {
      if amount < 0 {
        return false;
      }
      currentHp := if currentHp + amount < maxHp then currentHp + amount else maxHp;
      return true;
    }

    /** add_status_effect: refreshed tells the "refreshed" message from the "is now" one. */
    method AddStatusEffect(effectName: string, duration: int, potency: int) returns (refreshed: bool)
      requires Valid()
      modifies this
      ensures Valid()
      ensures statusEffects == AddOrRefresh(old(statusEffects), effectName, duration, potency)
      ensures refreshed <==> HasName(old(statusEffects), effectName)
      ensures currentHp == old(currentHp)
    {
      ghost var before := statusEffects;
      AddOrRefreshKeepsUnique(before, effectName, duration, potency);
      var i := 0;
      while i < |statusEffects|
        invariant 0 <= i <= |statusEffects| && statusEffects == before
        invariant forall k :: 0 <= k < i ==> statusEffects[k].name != effectName
      {
        if statusEffects[i].name == effectName {
          AddOrRefreshAfter(before, i, effectName, duration, potency);
          statusEffects := statusEffects[i := StatusEffect(effectName, duration, potency)];
          return true;
        }
        i := i + 1;
      }
      AddOrRefreshAfter(before, i, effectName, duration, potency);
      statusEffects := statusEffects + [StatusEffect(effectName, duration, potency)];
      return false;
    }

    /** remove_status_effect */
    method RemoveStatusEffect(effectName: string)
      requires Valid()
      modifies this
      ensures Valid()
      ensures statusEffects == RemoveNamed(old(statusEffects), effectName)
      ensures currentHp == old(currentHp)
    {
      RemoveKeepsUnique(statusEffects, effectName);
      statusEffects := RemoveNamed(statusEffects, effectName);
    }

    /**
     * The end of one step of tick_status_effects: the effect at position k loses a turn,
     * and is removed by name once it reaches zero.
     */
    method AgeEffect(k: nat, ghost front: seq<StatusEffect>, e: StatusEffect, ghost rest: seq<StatusEffect>) returns (expired: bool)
      requires Valid() && statusEffects == front + ([e] + rest) && k == |front|
      modifies this
      ensures Valid()
      ensures statusEffects == (front + Aged(e)) + rest
      ensures expired <==> e.duration - 1 <= 0
      ensures currentHp == old(currentHp)
    {
      AppendAssoc(front, [e], rest);
      UniqueMiddle(front, e, rest);
      var aged := e.(duration := e.duration - 1);
      SameNameKeepsUnique(statusEffects, k, aged);
      statusEffects := statusEffects[k := aged];
      assert statusEffects == front + [aged] + rest;
      expired := aged.duration <= 0;
      if expired {
        RemoveTheOne(front, aged, rest);
        RemoveStatusEffect(e.name);
      }
    }

    /**
     * One pass of tick_status_effects' loop over the first pending effect of the copy: poison
     * deals its potency (stopping on a death or a refused amount), then the effect ages and is
     * removed once it runs out.
     */
    method TickFirst(pending: seq<StatusEffect>, ghost kept: seq<StatusEffect>, ghost all: seq<StatusEffect>, ghost hp0: int,
                     messages: seq<TickMessage>)
      returns (stop: bool, status: TickStatus, messages': seq<TickMessage>)
      requires Valid() && pending != []
      requires statusEffects == kept + pending
      requires Tick(all, hp0) == Prepend(kept, messages, Tick(pending, currentHp))
      modifies this
      ensures Valid()
      ensures stop ==> Tick(all, hp0) == TickOutcome(status, currentHp, statusEffects, messages')
      ensures !stop ==> statusEffects == (kept + Aged(pending[0])) + pending[1..]
      ensures !stop ==> Tick(all, hp0) == Prepend(kept + Aged(pending[0]), messages', Tick(pending[1..], currentHp))
    {
      var e := pending[0];
      ghost var hpBefore := currentHp;
      messages' := messages;
      if e.name == Poison {
        var ok := TakeDamage(e.potency);
        if !ok {
          TickStop(pending, kept, hpBefore, messages, all, hp0);
          return true, Failed, messages';
        }
        messages' := messages' + [PoisonDamage(e.potency)];
        if !Alive() {
          TickStop(pending, kept, hpBefore, messages, all, hp0);
          messages' := messages' + [Succumbed];
          return true, Died, messages';
        }
      }
      ghost var poisonMessages := messages';
      TickAdvance(pending, kept, hpBefore, messages, all, hp0);
      assert pending == [e] + pending[1..];
      var expired := AgeEffect(|statusEffects| - |pending|, kept, e, pending[1..]);
      if expired {
        messages' := messages' + [Expired(e.name)];
      }
      StepMessagesAppended(e, messages, poisonMessages, messages');
      stop, status := false, Finished;
    }

    /**
     * tick_status_effects over a copy of the list: poison deals its potency, each processed
     * effect ages by one turn and is removed when it runs out; a death stops processing.
     */
    method TickStatusEffects() returns (status: TickStatus, messages: seq<TickMessage>)
      requires Valid()
      modifies this
      ensures Valid()
      ensures Tick(old(statusEffects), old(currentHp)) == TickOutcome(status, currentHp, statusEffects, messages)
    {
      var pending := statusEffects;
      ghost var all := statusEffects;
      ghost var hp0 := currentHp;
      ghost var kept: seq<StatusEffect> := [];
      messages := [];
      while pending != []
        invariant Valid()
        invariant statusEffects == kept + pending
        invariant Tick(all, hp0) == Prepend(kept, messages, Tick(pending, currentHp))
        decreases |pending|
      {
        var stop;
        stop, status, messages := TickFirst(pending, kept, all, hp0, messages);
        if stop {
          return;
        }
        kept := kept + Aged(pending[0]);
        pending := pending[1..];
      }
      status := Finished;
    }
  }

  /** An effect that stops the tick ends it with the pending effects left as they are. */
  lemma TickStop(pending: seq<StatusEffect>, kept: seq<StatusEffect>, hp: int, messages: seq<TickMessage>, all: seq<StatusEffect>, hp0: int)
    requires pending != [] && Stops(pending[0], hp)
    requires Tick(all, hp0) == Prepend(kept, messages, Tick(pending, hp))
    ensures pending[0].potency < 0 ==> Tick(all, hp0) == TickOutcome(Failed, hp, kept + pending, messages)
    ensures pending[0].potency >= 0 ==> (Tick(all, hp0) ==
      TickOutcome(Died, 0, kept + pending, messages + [PoisonDamage(pending[0].potency)] + [Succumbed]))
  {
    assert messages + [PoisonDamage(pending[0].potency)] + [Succumbed] == messages + [PoisonDamage(pending[0].potency), Succumbed];
  }

  /** The messages of one processed effect are its poison line followed by its expiry line. */
  lemma StepMessagesAppended(e: StatusEffect, before: seq<TickMessage>, poisoned: seq<TickMessage>, after: seq<TickMessage>)
    requires poisoned == before + (if e.name == Poison then [PoisonDamage(e.potency)] else [])
    requires after == poisoned + ExpiryOf(e)
    ensures after == before + StepMessages(e)
  {
    AppendAssoc(before, if e.name == Poison then [PoisonDamage(e.potency)] else [], ExpiryOf(e));
  }

  /** One effect processed without stopping moves the loop's view of the tick forward by one. */
  lemma TickAdvance(pending: seq<StatusEffect>, kept: seq<StatusEffect>, hp: int, messages: seq<TickMessage>, all: seq<StatusEffect>, hp0: int)
    requires pending != [] && !Stops(pending[0], hp)
    requires Tick(all, hp0) == Prepend(kept, messages, Tick(pending, hp))
    ensures Tick(all, hp0) ==
      Prepend(kept + Aged(pending[0]), messages + StepMessages(pending[0]), Tick(pending[1..], HpAfter(pending[0], hp)))
  {
    var e := pending[0];
    PrependTwice(kept, messages, Aged(e), StepMessages(e), Tick(pending[1..], HpAfter(e, hp)));
  }

  lemma AppendAssoc<T>(a: seq<T>, b: seq<T>, c: seq<T>)
    ensures a + b + c == a + (b + c)
  {
  }

  lemma PrependTwice(a: seq<StatusEffect>, m: seq<TickMessage>, b: seq<StatusEffect>, n: seq<TickMessage>, o: TickOutcome)
    ensures Prepend(a, m, Prepend(b, n, o)) == Prepend(a + b, m + n, o)
  {
    assert a + (b + o.effects) == (a + b) + o.effects;
    assert m + (n + o.messages) == (m + n) + o.messages;
  }

  /** In a list with unique names, the name of a middle element occurs nowhere else. */
  lemma UniqueMiddle(a: seq<StatusEffect>, e: StatusEffect, b: seq<StatusEffect>)
    requires UniqueNames(a + [e] + b)
    ensures !HasName(a, e.name) && !HasName(b, e.name)
  {
    var s := a + [e] + b;
    assert s[|a|] == e;
    forall k | 0 <= k < |a|
      ensures a[k].name != e.name
    {
      assert s[k] == a[k];
    }
    forall k | 0 <= k < |b|
      ensures b[k].name != e.name
    {
      assert s[|a| + 1 + k] == b[k];
    }
  }

  /** Replacing an effect by one of the same name keeps the names unique. */
  lemma SameNameKeepsUnique(s: seq<StatusEffect>, k: int, x: StatusEffect)
    requires UniqueNames(s) && 0 <= k < |s| && x.name == s[k].name
    ensures UniqueNames(s[k := x])
  {
    var r := s[k := x];
    forall i, j | 0 <= i < j < |r|
      ensures r[i].name != r[j].name
    {
      assert r[i].name == s[i].name && r[j].name == s[j].name;
    }
  }

  /** Up to the first effect of the name, adding leaves the list alone. */
  lemma {:induction false} AddOrRefreshAfter(effects: seq<StatusEffect>, i: nat, name: string, duration: int, potency: int)
    requires i <= |effects|
    requires forall k :: 0 <= k < i ==> effects[k].name != name
    ensures AddOrRefresh(effects, name, duration, potency) == effects[..i] + AddOrRefresh(effects[i..], name, duration, potency)
  {
    if i > 0 {
      AddOrRefreshAfter(effects[1..], i - 1, name, duration, potency);
      assert effects[1..][..i - 1] == effects[1..i];
      assert effects[1..][i - 1..] == effects[i..];
      assert effects[..i] == [effects[0]] + effects[1..i];
    } else {
      assert effects[0..] == effects;
    }
  }

  /** Removing a name keeps the other names unique. */
  lemma {:induction false} RemoveKeepsUnique(effects: seq<StatusEffect>, name: string)
    requires UniqueNames(effects)
    ensures UniqueNames(RemoveNamed(effects, name))
  {
    if effects != [] {
      var x := effects[0];
      assert effects == [x] + effects[1..];
      UniqueCons(x, effects[1..]);
      RemoveKeepsUnique(effects[1..], name);
      var r := RemoveNamed(effects[1..], name);
      if x.name != name {
        UniqueCons(x, r);
      }
    }
  }
}
