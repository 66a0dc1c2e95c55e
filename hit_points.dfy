// Hit-point arithmetic shared by every combatant: damage floors at zero,
// healing caps at the maximum, and a combatant is alive while above zero.

module HitPoints {

  /** current_hp after take_damage(amount) with a non-negative amount. */
  function AfterDamage(hp: int, amount: int): (r: int)
    requires amount >= 0
    ensures hp >= amount ==> r == hp - amount
    ensures hp <= amount ==> r == 0
  {
    if hp - amount > 0 then hp - amount else 0
  }

  /** current_hp after heal(amount) with a non-negative amount. */
  function AfterHeal(hp: int, maxHp: int, amount: int): (r: int)
    requires amount >= 0 && hp <= maxHp
    ensures hp <= r <= maxHp
    ensures hp + amount <= maxHp ==> r == hp + amount
    ensures hp + amount >= maxHp ==> r == maxHp
  {
    if hp + amount < maxHp then hp + amount else maxHp
  }

  predicate IsAlive(hp: int)
  {
    hp > 0
  }

  /** Healing back the damage just taken restores the hit points when the damage did not bottom out. */
  lemma HealUndoesDamage(hp: int, maxHp: int, amount: int)
    requires 0 <= amount <= hp <= maxHp
    ensures AfterHeal(AfterDamage(hp, amount), maxHp, amount) == hp
  {
  }

  /** Damage is monotone: more damage never leaves more hit points. */
  lemma DamageMonotone(hp: int, a: int, b: int)
    requires 0 <= a <= b
    ensures AfterDamage(hp, b) <= AfterDamage(hp, a)
  {
  }

  /** Two hits in a row do as much as one hit of their sum. */
  lemma DamageAdds(hp: int, a: int, b: int)
    requires 0 <= a && 0 <= b && hp >= 0
    ensures AfterDamage(AfterDamage(hp, a), b) == AfterDamage(hp, a + b)
  {
  }
}
