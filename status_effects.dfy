// The status-effect list every combatant carries, as values: adding or
// refreshing an effect, removing it by name, and the per-turn tick that
// applies poison and counts durations down.

module StatusEffects {
  import opened Wrappers
  import opened HitPoints

  const Poison: string := "poison"

  datatype StatusEffect = StatusEffect(name: string, duration: int, potency: int)

  /** No two effects share a name; add_status_effect keeps it so. */
  predicate UniqueNames(effects: seq<StatusEffect>)
  {
    forall i, j :: 0 <= i < j < |effects| ==> effects[i].name != effects[j].name
  }

  predicate HasName(effects: seq<StatusEffect>, name: string)
  {
    exists i :: 0 <= i < |effects| && effects[i].name == name
  }

  /** The first effect with the given name. */
  function Find(effects: seq<StatusEffect>, name: string): (r: Option<StatusEffect>)
    ensures r.None? <==> !HasName(effects, name)
    ensures r.Some? ==> r.value in effects && r.value.name == name
  {
    if effects == [] then None
    else if effects[0].name == name then Some(effects[0])
    else
      assert forall i :: 1 <= i < |effects| ==> effects[i] == effects[1..][i - 1];
      Find(effects[1..], name)
  }

  // ---------------------------------------------------------------- add

  /** add_status_effect: refresh the first effect of that name in place, or append a new one. */
  function AddOrRefresh(effects: seq<StatusEffect>, name: string, duration: int, potency: int): (r: seq<StatusEffect>)
  {
    if effects == [] then [StatusEffect(name, duration, potency)]
    else if effects[0].name == name then [StatusEffect(name, duration, potency)] + effects[1..]
    else [effects[0]] + AddOrRefresh(effects[1..], name, duration, potency)
  }

  /** A present name keeps its place and the list its length; an absent one is appended at the end. */
  lemma {:induction false} AddOrRefreshShape(effects: seq<StatusEffect>, name: string, duration: int, potency: int)
    ensures var r := AddOrRefresh(effects, name, duration, potency);
      if HasName(effects, name) then
        |r| == |effects| &&
        exists k :: 0 <= k < |effects| && effects[k].name == name &&
          r == effects[k := StatusEffect(name, duration, potency)]
      else
        r == effects + [StatusEffect(name, duration, potency)]
  {
    var e := StatusEffect(name, duration, potency);
    if effects != [] {
      var r := AddOrRefresh(effects, name, duration, potency);
      if effects[0].name == name {
        assert r == effects[0 := e];
      } else {
        var rest := effects[1..];
        AddOrRefreshShape(rest, name, duration, potency);
        var r' := AddOrRefresh(rest, name, duration, potency);
        if HasName(effects, name) {
          var i :| 0 <= i < |effects| && effects[i].name == name;
          assert rest[i - 1].name == name;
          var k :| 0 <= k < |rest| && rest[k].name == name && r' == rest[k := e];
          assert effects[k + 1].name == name;
          assert r == effects[k + 1 := e];
        } else {
          assert r == effects + [e];
        }
      }
    }
  }

  /** After adding, the name maps to exactly the new duration and potency. */
  lemma {:induction false} FindAfterAdd(effects: seq<StatusEffect>, name: string, duration: int, potency: int)
    ensures Find(AddOrRefresh(effects, name, duration, potency), name) == Some(StatusEffect(name, duration, potency))
  {
    if effects != [] && effects[0].name != name {
      FindAfterAdd(effects[1..], name, duration, potency);
    }
  }

  /** Adding one name leaves every other name's effect as it was. */
  lemma {:induction false} FindOtherAfterAdd(effects: seq<StatusEffect>, name: string, duration: int, potency: int, other: string)
    requires other != name
    ensures Find(AddOrRefresh(effects, name, duration, potency), other) == Find(effects, other)
  {
    if effects != [] && effects[0].name != name && effects[0].name != other {
      FindOtherAfterAdd(effects[1..], name, duration, potency, other);
    }
  }

  /** Adding or refreshing never creates a second entry for a name. */
  lemma {:induction false} AddOrRefreshKeepsUnique(effects: seq<StatusEffect>, name: string, duration: int, potency: int)
    requires UniqueNames(effects)
    ensures UniqueNames(AddOrRefresh(effects, name, duration, potency))
  {
    var e := StatusEffect(name, duration, potency);
    var r := AddOrRefresh(effects, name, duration, potency);
    AddOrRefreshShape(effects, name, duration, potency);
    if HasName(effects, name) {
      var k :| 0 <= k < |effects| && effects[k].name == name && r == effects[k := e];
      forall i, j | 0 <= i < j < |r|
        ensures r[i].name != r[j].name
      {
        assert r[i].name == effects[i].name && r[j].name == effects[j].name;
      }
    } else {
      forall i, j | 0 <= i < j < |r|
        ensures r[i].name != r[j].name
      {
        if j == |effects| {
          assert r[i] == effects[i];
        } else {
          assert r[i] == effects[i] && r[j] == effects[j];
        }
      }
    }
  }

  // ---------------------------------------------------------------- remove

  /** remove_status_effect: every effect of that name dropped, the rest in order. */
  function RemoveNamed(effects: seq<StatusEffect>, name: string): (r: seq<StatusEffect>)
    ensures |r| <= |effects|
    ensures forall e | e in r :: e in effects && e.name != name
  {
    if effects == [] then []
    else if effects[0].name == name then RemoveNamed(effects[1..], name)
    else [effects[0]] + RemoveNamed(effects[1..], name)
  }

  /** Removing an absent name changes nothing. */
  lemma {:induction false} RemoveAbsent(effects: seq<StatusEffect>, name: string)
    requires !HasName(effects, name)
    ensures RemoveNamed(effects, name) == effects
  {
    if effects != [] {
      assert effects[0].name != name;
      RemoveAbsent(effects[1..], name);
    }
  }

  /** With unique names, removing the one effect of a name takes exactly it out. */
  lemma RemoveTheOne(before: seq<StatusEffect>, e: StatusEffect, after: seq<StatusEffect>)
    requires !HasName(before, e.name) && !HasName(after, e.name)
    ensures RemoveNamed(before + [e] + after, e.name) == before + after
  {
    var tail := [e] + after;
    assert before + [e] + after == before + tail;
    RemoveSplit(before, tail, e.name);
    RemoveAbsent(before, e.name);
    assert tail[1..] == after;
    assert RemoveNamed(tail, e.name) == RemoveNamed(after, e.name);
    RemoveAbsent(after, e.name);
  }

  lemma {:induction false} RemoveSplit(a: seq<StatusEffect>, b: seq<StatusEffect>, name: string)
    ensures RemoveNamed(a + b, name) == RemoveNamed(a, name) + RemoveNamed(b, name)
  {
    if a != [] {
      assert (a + b)[1..] == a[1..] + b;
      RemoveSplit(a[1..], b, name);
    } else {
      assert a + b == b;
    }
  }

  /** After removal the name is gone and every other name keeps its effect. */
  lemma {:induction false} FindAfterRemove(effects: seq<StatusEffect>, name: string, other: string)
    ensures Find(RemoveNamed(effects, name), name) == None
    ensures other != name ==> Find(RemoveNamed(effects, name), other) == Find(effects, other)
  {
    if effects != [] {
      FindAfterRemove(effects[1..], name, other);
    }
  }

  // ---------------------------------------------------------------- tick

  datatype TickMessage = PoisonDamage(amount: int) | Succumbed | Expired(name: string)

  /**
   * How a tick ends: every effect processed, the owner died of poison (processing stops
   * there), or take_damage refused a negative poison potency (ValueError; what was done
   * before stays done).
   */
  datatype TickStatus = Finished | Died | Failed

  datatype TickOutcome = TickOutcome(status: TickStatus, hp: int, effects: seq<StatusEffect>, messages: seq<TickMessage>)

  /** Put the effects and messages of the already-processed front before an outcome. */
  function Prepend(kept: seq<StatusEffect>, messages: seq<TickMessage>, o: TickOutcome): TickOutcome
  {
    TickOutcome(o.status, o.hp, kept + o.effects, messages + o.messages)
  }

  /** An effect one turn older, or nothing once its duration reaches zero. */
  function Aged(e: StatusEffect): seq<StatusEffect>
  {
    if e.duration - 1 <= 0 then [] else [e.(duration := e.duration - 1)]
  }

  function ExpiryOf(e: StatusEffect): seq<TickMessage>
  {
    if e.duration - 1 <= 0 then [Expired(e.name)] else []
  }

  /** Whether processing stops at this effect: poison with a negative potency, or poison that kills. */
  predicate Stops(e: StatusEffect, hp: int)
  {
    e.name == Poison && (e.potency < 0 || !IsAlive(AfterDamage(hp, e.potency)))
  }

  /** Hit points after this effect's damage, if any. */
  function HpAfter(e: StatusEffect, hp: int): int
    requires !Stops(e, hp)
  {
    if e.name == Poison then AfterDamage(hp, e.potency) else hp
  }

  /** Messages of an effect that does not stop processing. */
  function StepMessages(e: StatusEffect): seq<TickMessage>
  {
    (if e.name == Poison then [PoisonDamage(e.potency)] else []) + ExpiryOf(e)
  }

  /** tick_status_effects, effect by effect from the front of the list, starting at hit points hp. */
  function Tick(effects: seq<StatusEffect>, hp: int): TickOutcome
    decreases |effects|
  {
    if effects == [] then TickOutcome(Finished, hp, [], [])
    else
      var e := effects[0];
      if !Stops(e, hp) then
        Prepend(Aged(e), StepMessages(e), Tick(effects[1..], HpAfter(e, hp)))
      else if e.potency < 0 then
        TickOutcome(Failed, hp, effects, [])
      else
        TickOutcome(Died, 0, effects, [PoisonDamage(e.potency), Succumbed])
  }

  /** Every effect one turn older, expired ones dropped: what a tick leaves when nothing stops it. */
  function Survivors(effects: seq<StatusEffect>): (r: seq<StatusEffect>)
    ensures forall e | e in r :: e.duration >= 1
  {
    if effects == [] then [] else Aged(effects[0]) + Survivors(effects[1..])
  }

  function ExpiryMessages(effects: seq<StatusEffect>): seq<TickMessage>
  {
    if effects == [] then [] else ExpiryOf(effects[0]) + ExpiryMessages(effects[1..])
  }

  lemma SurvivorsSplit(a: seq<StatusEffect>, e: StatusEffect)
    ensures Survivors(a + [e]) == Survivors(a) + Aged(e)
  {
    if a == [] {
      assert [e][1..] == [];
    } else {
      assert (a + [e])[1..] == a[1..] + [e];
      SurvivorsSplit(a[1..], e);
    }
  }

  lemma ExpiryMessagesSplit(a: seq<StatusEffect>, e: StatusEffect)
    ensures ExpiryMessages(a + [e]) == ExpiryMessages(a) + ExpiryOf(e)
  {
    if a == [] {
      assert [e][1..] == [];
    } else {
      assert (a + [e])[1..] == a[1..] + [e];
      ExpiryMessagesSplit(a[1..], e);
    }
  }

  /** Without poison a tick never stops early: every effect ages and the hit points do not move. */
  lemma {:induction false} TickWithoutPoison(effects: seq<StatusEffect>, hp: int)
    requires !HasName(effects, Poison)
    ensures Tick(effects, hp) == TickOutcome(Finished, hp, Survivors(effects), ExpiryMessages(effects))
  {
    if effects != [] {
      assert effects[0].name != Poison;
      TickWithoutPoison(effects[1..], hp);
    }
  }

  lemma ShapeStep(e: StatusEffect, rest: seq<StatusEffect>, k: nat)
    requires k <= |rest|
    ensures Aged(e) + (Survivors(rest[..k]) + rest[k..]) == Survivors(([e] + rest)[..k + 1]) + ([e] + rest)[k + 1..]
  {
    var front := ([e] + rest)[..k + 1];
    assert front == [e] + rest[..k];
    assert front[1..] == rest[..k];
    assert ([e] + rest)[k + 1..] == rest[k..];
  }

  /**
   * The outcome's effects are the first k effects, aged, followed by the untouched rest;
   * k is the whole list exactly when the tick finished, and otherwise the rest starts
   * with the poison that stopped it.
   */
  predicate ShapedAt(effects: seq<StatusEffect>, o: TickOutcome, k: int)
  {
    0 <= k <= |effects| && o.effects == Survivors(effects[..k]) + effects[k..] &&
    (o.status == Finished <==> k == |effects|) &&
    (o.status != Finished ==> effects[k].name == Poison)
  }

  /** An effect that does not stop the tick moves the split point one to the right. */
  lemma ShapedAtStep(e: StatusEffect, rest: seq<StatusEffect>, o: TickOutcome, k: int)
    requires ShapedAt(rest, o, k)
    ensures ShapedAt([e] + rest, Prepend(Aged(e), StepMessages(e), o), k + 1)
  {
    ShapeStep(e, rest, k);
    assert ([e] + rest)[1..] == rest;
  }

  /**
   * The effects after a tick are the processed front, aged, followed by the untouched
   * rest; the rest is empty when the tick finished, and starts with the poison that
   * stopped it otherwise.
   */
  lemma {:induction false} TickShape(effects: seq<StatusEffect>, hp: int)
    ensures exists k :: ShapedAt(effects, Tick(effects, hp), k)
    decreases |effects|
  {
    var o := Tick(effects, hp);
    if effects == [] {
      assert ShapedAt(effects, o, 0);
    } else if Stops(effects[0], hp) {
      assert effects[..0] == [] && effects[0..] == effects;
      assert ShapedAt(effects, o, 0);
    } else {
      var e := effects[0];
      var rest := effects[1..];
      var hp' := HpAfter(e, hp);
      TickShape(rest, hp');
      var o' := Tick(rest, hp');
      var k :| ShapedAt(rest, o', k);
      assert [e] + rest == effects;
      ShapedAtStep(e, rest, o', k);
      assert ShapedAt(effects, o, k + 1);
    }
  }

  /** A tick only ever loses hit points, and never below zero. */
  lemma {:induction false} TickHitPoints(effects: seq<StatusEffect>, hp: int)
    requires hp >= 0
    ensures 0 <= Tick(effects, hp).hp <= hp
    ensures Tick(effects, hp).status == Died ==> Tick(effects, hp).hp == 0
    decreases |effects|
  {
    if effects != [] && !Stops(effects[0], hp) {
      TickHitPoints(effects[1..], HpAfter(effects[0], hp));
    }
  }

  /** Names in the aged front of a list come from that front. */
  lemma {:induction false} SurvivorNames(effects: seq<StatusEffect>, name: string)
    requires HasName(Survivors(effects), name)
    ensures HasName(effects, name)
  {
    var s := Survivors(effects);
    var i :| 0 <= i < |s| && s[i].name == name;
    var a := Aged(effects[0]);
    if i < |a| {
      assert effects[0].name == name;
    } else {
      assert Survivors(effects[1..])[i - |a|].name == name;
      SurvivorNames(effects[1..], name);
      var j :| 0 <= j < |effects[1..]| && effects[1..][j].name == name;
      assert effects[j + 1].name == name;
    }
  }

  /** A list led by x has unique names exactly when x's name is not further on and the rest is unique. */
  lemma UniqueCons(x: StatusEffect, s: seq<StatusEffect>)
    ensures UniqueNames([x] + s) <==> !HasName(s, x.name) && UniqueNames(s)
  {
    var r := [x] + s;
    if UniqueNames(r) {
      forall k | 0 <= k < |s|
        ensures s[k].name != x.name
      {
        assert r[k + 1] == s[k] && r[0] == x;
      }
      forall i, j | 0 <= i < j < |s|
        ensures s[i].name != s[j].name
      {
        assert r[i + 1] == s[i] && r[j + 1] == s[j];
      }
    }
    if !HasName(s, x.name) && UniqueNames(s) {
      forall i, j | 0 <= i < j < |r|
        ensures r[i].name != r[j].name
      {
        if i == 0 {
          assert r[j] == s[j - 1];
        } else {
          assert r[i] == s[i - 1] && r[j] == s[j - 1];
        }
      }
    }
  }

  lemma HasNameConcat(a: seq<StatusEffect>, b: seq<StatusEffect>, name: string)
    ensures HasName(a + b, name) <==> HasName(a, name) || HasName(b, name)
  {
    if HasName(a + b, name) {
      var i :| 0 <= i < |a + b| && (a + b)[i].name == name;
      if i >= |a| {
        assert b[i - |a|].name == name;
      }
    }
    if HasName(b, name) {
      var i :| 0 <= i < |b| && b[i].name == name;
      assert (a + b)[|a| + i] == b[i];
    }
    if HasName(a, name) {
      var i :| 0 <= i < |a| && a[i].name == name;
      assert (a + b)[i] == a[i];
    }
  }

  /** Ageing the front of a list with unique names keeps the names unique. */
  lemma {:induction false} SurvivorsKeepUnique(a: seq<StatusEffect>, b: seq<StatusEffect>)
    requires UniqueNames(a + b)
    ensures UniqueNames(Survivors(a) + b)
  {
    if a == [] {
      assert a + b == b;
    } else {
      var x := a[0];
      var tail := a[1..];
      assert a + b == [x] + (tail + b);
      UniqueCons(x, tail + b);
      SurvivorsKeepUnique(tail, b);
      var s := Survivors(tail) + b;
      assert Survivors(a) + b == Aged(x) + s;
      if Aged(x) != [] {
        var x' := x.(duration := x.duration - 1);
        assert Aged(x) == [x'];
        HasNameConcat(Survivors(tail), b, x.name);
        HasNameConcat(tail, b, x.name);
        if HasName(Survivors(tail), x.name) {
          SurvivorNames(tail, x.name);
        }
        UniqueCons(x', s);
      }
    }
  }

  /** A tick keeps the names unique. */
  lemma TickKeepsUnique(effects: seq<StatusEffect>, hp: int)
    requires UniqueNames(effects)
    ensures UniqueNames(Tick(effects, hp).effects)
  {
    TickShape(effects, hp);
    var o := Tick(effects, hp);
    var k :| ShapedAt(effects, o, k);
    assert effects[..k] + effects[k..] == effects;
    SurvivorsKeepUnique(effects[..k], effects[k..]);
  }

  /** Poison potency 2 for 3 turns, from the start of a 10-hit-point combatant, ticked three times. */
  lemma ThreePoisonTicks()
    ensures var t1 := Tick([StatusEffect(Poison, 3, 2)], 10);
      var t2 := Tick(t1.effects, t1.hp);
      var t3 := Tick(t2.effects, t2.hp);
      t1.hp == 8 && t2.hp == 6 && t3.hp == 4 && t3.effects == [] && t3.status == Finished &&
      t3.messages == [PoisonDamage(2), Expired(Poison)]
  {
    var e := StatusEffect(Poison, 3, 2);
    assert Tick([e], 10) == TickOutcome(Finished, 8, [e.(duration := 2)], [PoisonDamage(2)]);
    assert Tick([e.(duration := 2)], 8) == TickOutcome(Finished, 6, [e.(duration := 1)], [PoisonDamage(2)]);
    assert Tick([e.(duration := 1)], 6) == TickOutcome(Finished, 4, [], [PoisonDamage(2), Expired(Poison)]);
  }
}
