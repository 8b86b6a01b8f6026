/**
 * The player's health: damage and healing are applied and the result is
 * clamped to [0, maxHealth]; damage that leaves the player at 0 or below
 * triggers death (loading the game-over scene, modelled as a counter).
 */
module Health {
  import opened Runtime

  /** Health after `TakeDamage(damage)`: subtract in 32-bit arithmetic, then clamp. */
  function Damaged(health: Int32, damage: Int32, maxHealth: Int32): (r: Int32)
    ensures maxHealth >= 0 ==> 0 <= r <= maxHealth
    ensures maxHealth >= 0 && 0 <= health && 0 <= damage ==> r == Clamp(health - damage, 0, maxHealth)
  {
    Clamp(Wrap32(health - damage), 0, maxHealth)
  }

  /** Whether `TakeDamage` calls `Die`: health at or below zero after clamping. */
  predicate DiesAfter(health: Int32, damage: Int32, maxHealth: Int32) {
    Damaged(health, damage, maxHealth) <= 0
  }

  /** With a non-negative maximum, death is triggered exactly when health reaches 0. */
  lemma DeathExactlyAtZero(health: Int32, damage: Int32, maxHealth: Int32)
    requires maxHealth >= 0
    ensures DiesAfter(health, damage, maxHealth) <==> Damaged(health, damage, maxHealth) == 0
  {
  }

  /** Real damage never raises health, and the player dies once damage reaches the remaining health. */
  lemma DamageLowersHealth(health: Int32, damage: Int32, maxHealth: Int32)
    requires 0 <= health <= maxHealth && damage >= 0
    ensures Damaged(health, damage, maxHealth) <= health
    ensures DiesAfter(health, damage, maxHealth) <==> damage >= health
  {
  }

  /** 100 health and 20 damage leave 80. */
  lemma DamageExample()
    ensures Damaged(100, 20, 100) == 80 && !DiesAfter(100, 20, 100)
  {
  }

  /** Health after `Heal(amount)` as written: the addition wraps around in 32 bits before the clamp. */
  function HealedAsWritten(health: Int32, amount: Int32, maxHealth: Int32): (r: Int32)
    ensures maxHealth >= 0 ==> 0 <= r <= maxHealth
    ensures INT32_MIN <= health + amount <= INT32_MAX ==> r == Clamp(health + amount, 0, maxHealth)
  {
    Clamp(Wrap32(health + amount), 0, maxHealth)
  }

  /** A large heal overflows: at full health 100, healing by int.MaxValue leaves the player at 0. */
  lemma HealOverflowEmptiesHealth()
    ensures HealedAsWritten(100, INT32_MAX, 100) == 0
  {
    assert Wrap32(100 + INT32_MAX) == 100 + INT32_MAX - 0x1_0000_0000;
  }

  /** Health after `Heal(amount)` as intended: the sum is clamped without wrapping first. */
  function Healed(health: Int32, amount: Int32, maxHealth: Int32): (r: Int32)
    ensures maxHealth >= 0 ==> 0 <= r <= maxHealth
    ensures INT32_MIN <= health + amount <= INT32_MAX ==> r == HealedAsWritten(health, amount, maxHealth)
  {
    Clamp(health + amount, 0, maxHealth)
  }

  /** Healing by a non-negative amount never lowers health that is in range. */
  lemma HealNeverLowers(health: Int32, amount: Int32, maxHealth: Int32)
    requires 0 <= health <= maxHealth && amount >= 0
    ensures health <= Healed(health, amount, maxHealth) <= maxHealth
    ensures Healed(health, amount, maxHealth) == if health + amount >= maxHealth then maxHealth else health + amount
  {
  }

  class PlayerManager {
    const maxHealth: Int32
    var currentHealth: Int32
    /** How many times `Die` ran (each loads the game-over scene). */
    var deaths: nat

    /** `Start`: begin at full health. */
    constructor Start(maxHealth: Int32)
      ensures this.maxHealth == maxHealth && currentHealth == maxHealth && deaths == 0
    {
      this.maxHealth := maxHealth;
      currentHealth := maxHealth;
      deaths := 0;
    }

    method TakeDamage(damage: Int32)
      modifies this
      ensures currentHealth == Damaged(old(currentHealth), damage, maxHealth)
      ensures deaths == old(deaths) + (if currentHealth <= 0 then 1 else 0)
    {
      currentHealth := Wrap32(currentHealth - damage);
      currentHealth := Clamp(currentHealth, 0, maxHealth);
      if currentHealth <= 0 {
        Die();
      }
    }

    /** Heal as written: the addition wraps around in 32 bits before the clamp; never triggers death. */
    method Heal(amount: Int32)
      modifies this
      ensures currentHealth == HealedAsWritten(old(currentHealth), amount, maxHealth)
      ensures deaths == old(deaths)
    {
      currentHealth := Wrap32(currentHealth + amount);
      currentHealth := Clamp(currentHealth, 0, maxHealth);
    }

    method Die()
      modifies this
      ensures deaths == old(deaths) + 1 && currentHealth == old(currentHealth)
    {
      deaths := deaths + 1;
    }
  }
}
