/*
 * The combat units of the Mediator demo (Mediator/Unit.cs, with the
 * DamageInfo and HealingInfo records of Mediator/Info.cs). Units never call
 * each other: they raise events on the static `GameEvents` hub, which here
 * is an explicit object whose `log` records every event raised, in order.
 * Delivering an event to its subscribers is the hub's business and is not
 * part of this model; `Player` subscribes `DamageTaken` and
 * `HealingReceived`, `Enemy` only `DamageTaken`.
 */
module Combat {
  import opened Wrappers

  /** C#'s `uint`. */
  newtype uint32 = x: int | 0 <= x < 0x1_0000_0000

  /** `DamageInfo`: `instigator` hits `target` for `damage`. */
  datatype DamageInfo = DamageInfo(instigator: Guid, target: Guid, damage: uint32)

  /** `HealingInfo`: `source` heals `target` by `amount`. */
  datatype HealingInfo = HealingInfo(target: Guid, source: Guid, amount: uint32)

  /** An inventory item: the demo's only kind is the potion, whose `Use`
      raises a healing event for its target. */
  datatype ItemInfo = Potion(id: Guid, name: string, healAmount: uint32, target: Guid)

  /** The events units raise: `OnDamage`, `OnDeath(killer, target)` and
      `OnHealing`. */
  datatype Event =
    | Damage(info: DamageInfo)
    | Death(killer: Guid, target: Guid)
    | Healing(heal: HealingInfo)

  /** `GameEvents`: the hub, reduced to the record of what was raised. */
  class GameEvents {
    var log: seq<Event>

    constructor ()
      ensures log == []
    {
      log := [];
    }

    method Raise(e: Event)
      modifies this
      ensures log == old(log) + [e]
    {
      log := log + [e];
    }
  }

  /** `ItemInfo.Use` for a potion: the healing event it raises. */
  function UseEvent(item: ItemInfo): (e: Event)
    ensures e.Healing? && e.heal.target == item.target && e.heal.source == item.id && e.heal.amount == item.healAmount
  {
    Healing(HealingInfo(item.target, item.id, item.healAmount))
  }

  /** Health after a hit of `damage`: the hit subtracts, and a hit at
      least as large as the health leaves exactly 0, so health never wraps
      below zero. */
  function Damaged(health: uint32, damage: uint32): (h: uint32)
    ensures h <= health
    ensures h == 0 <==> damage >= health
    ensures damage < health ==> h as int == health as int - damage as int
  {
    if damage >= health then 0 else health - damage
  }

  /** Health after healing: `Math.Min(health + amount, 100)`, where the
      `uint` sum wraps modulo 2^32 as C# does by default. */
  function Healed(health: uint32, amount: uint32): (h: uint32)
    ensures h <= 100
    ensures health as int + amount as int < 0x1_0000_0000 ==>
      h as int == if health as int + amount as int < 100 then health as int + amount as int else 100
  {
    var sum := ((health as int + amount as int) % 0x1_0000_0000) as uint32;
    if sum < 100 then sum else 100
  }

  /** The wrap is reachable: a potion of 2^32 - 10 takes a unit at 50
      health down to 40. */
  lemma HealingCanWrap()
    ensures Healed(50, 0xFFFF_FFF6) == 40
  {
  }

  /** What the attack step of a tick raises: a hit of `damage` from
      `attacker` on `target` when the roll is above 0.49, else nothing. */
  function AttackEvents(attackRoll: real, attacker: Guid, target: Guid, damage: uint32): (es: seq<Event>)
    ensures |es| <= 1 && (|es| == 1 <==> attackRoll > 0.49)
    ensures forall e :: e in es ==> e == Damage(DamageInfo(attacker, target, damage))
  {
    if attackRoll > 0.49 then [Damage(DamageInfo(attacker, target, damage))] else []
  }

  /** `List.IndexOf`: the position of the first occurrence of `x`. */
  function IndexOf<T(==)>(s: seq<T>, x: T): (k: nat)
    requires x in s
    ensures k < |s| && s[k] == x && forall j :: 0 <= j < k ==> s[j] != x
  {
    if s[0] == x then 0 else 1 + IndexOf(s[1..], x)
  }

  /** Removing the first occurrence of `x` takes exactly one `x` out of
      the multiset of items and keeps the order of the rest. */
  lemma RemoveFirstOccurrence<T>(s: seq<T>, x: T)
    requires x in s
    ensures multiset(s[..IndexOf(s, x)] + s[IndexOf(s, x) + 1..]) == multiset(s) - multiset{x}
  {
    var k := IndexOf(s, x);
    var before, after := s[..k], s[k + 1..];
    assert s == before + [x] + after;
    assert multiset(s) == multiset(before) + multiset{x} + multiset(after);
  }

  /** `Player`: a unit with health, a target and an inventory. */
  class Player {
    const id: Guid
    const name: string
    var health: uint32
    var target: Guid
    var inventory: seq<ItemInfo>
    /** The hub the player raises its events on. */
    const events: GameEvents

    /** `new Player(name, health, seed)`: the new `Guid` is `id`, the
        target is not yet set and the inventory is empty. */
    constructor (id: Guid, name: string, health: uint32, events: GameEvents)
      ensures this.id == id && this.name == name && this.health == health && this.events == events
      ensures target == EmptyGuid && inventory == []
    {
      this.id := id;
      this.name := name;
      this.health := health;
      this.target := EmptyGuid;
      this.inventory := [];
      this.events := events;
    }

    /** The `Target` setter. */
    method SetTarget(target: Guid)
      modifies this
      ensures this.target == target && health == old(health) && inventory == old(inventory)
    {
      this.target := target;
    }

    /** `AddItemToInventory`: the item goes to the end of the list. */
    method AddItemToInventory(item: ItemInfo)
      modifies this
      ensures inventory == old(inventory) + [item]
      ensures health == old(health) && target == old(target)
    {
      inventory := inventory + [item];
    }

    /** `Tick`: a dead player does nothing. Otherwise, with a nonempty
        inventory and an item roll above 0.7, the item at `pick` is used
        and its first occurrence removed; then, with an attack roll above
        0.49, the target is hit for `damage`, drawn from [4, 12). */
    method Tick(itemRoll: real, pick: nat, attackRoll: real, damage: uint32)
      requires 0.0 <= itemRoll < 1.0 && 0.0 <= attackRoll < 1.0 && 4 <= damage < 12
      requires |inventory| > 0 ==> pick < |inventory|
      modifies this, events
      ensures health == old(health) && target == old(target)
      ensures old(health) == 0 ==> inventory == old(inventory) && events.log == old(events.log)
      ensures old(health) != 0 && |old(inventory)| > 0 && itemRoll > 0.7 ==>
        var item := old(inventory)[pick];
        var k := IndexOf(old(inventory), item);
        inventory == old(inventory)[..k] + old(inventory)[k + 1..] &&
        multiset(inventory) == multiset(old(inventory)) - multiset{item} &&
        events.log == old(events.log) + [UseEvent(item)] + AttackEvents(attackRoll, id, target, damage)
      ensures old(health) != 0 && !(|old(inventory)| > 0 && itemRoll > 0.7) ==>
        inventory == old(inventory) &&
        events.log == old(events.log) + AttackEvents(attackRoll, id, target, damage)
    {
      if health == 0 {
        return;
      }
      if |inventory| > 0 && itemRoll > 0.7 {
        var item := inventory[pick];
        events.Raise(UseEvent(item));
        RemoveFirstOccurrence(inventory, item);
        var k := IndexOf(inventory, item);
        inventory := inventory[..k] + inventory[k + 1..];
      }
      if attackRoll > 0.49 {
        Attack(damage);
      }
    }

    /** `Attack`: raise a hit from this player on its target. */
    method Attack(damage: uint32)
      modifies events
      ensures events.log == old(events.log) + [Damage(DamageInfo(id, target, damage))]
    {
      events.Raise(Damage(DamageInfo(id, target, damage)));
    }

    /** `DamageTaken`: a hit aimed elsewhere changes nothing. A hit on this
        player that is at least its health leaves it at 0 and raises its
        death, credited to the instigator, even when it was already dead;
        a smaller hit is subtracted. */
    method DamageTaken(info: DamageInfo)
      modifies this, events
      ensures health == if info.target == id then Damaged(old(health), info.damage) else old(health)
      ensures events.log == old(events.log) +
        if info.target == id && info.damage >= old(health) then [Death(info.instigator, id)] else []
      ensures inventory == old(inventory) && target == old(target)
    {
      if info.target == id {
        if info.damage >= health {
          health := 0;
          Die(info.instigator);
        } else {
          health := health - info.damage;
        }
      }
    }

    /** `HealingReceived`: healing aimed at this player raises its health,
        capped at 100; healing aimed elsewhere changes nothing. */
    method HealingReceived(info: HealingInfo)
      modifies this
      ensures health == if info.target == id then Healed(old(health), info.amount) else old(health)
      ensures inventory == old(inventory) && target == old(target)
    {
      if info.target == id {
        health := Healed(health, info.amount);
      }
    }

    /** `Die`: raise this player's death. */
    method Die(killer: Guid)
      modifies events
      ensures events.log == old(events.log) + [Death(killer, id)]
    {
      events.Raise(Death(killer, id));
    }
  }

  /** `Enemy`: a unit with health and a target but no inventory. */
  class Enemy {
    const id: Guid
    const name: string
    var health: uint32
    var target: Guid
    /** The hub the enemy raises its events on. */
    const events: GameEvents

    /** `new Enemy(name, health, seed)`: the new `Guid` is `id` and the
        target is not yet set. */
    constructor (id: Guid, name: string, health: uint32, events: GameEvents)
      ensures this.id == id && this.name == name && this.health == health && this.events == events
      ensures target == EmptyGuid
    {
      this.id := id;
      this.name := name;
      this.health := health;
      this.target := EmptyGuid;
      this.events := events;
    }

    /** The `Target` setter. */
    method SetTarget(target: Guid)
      modifies this
      ensures this.target == target && health == old(health)
    {
      this.target := target;
    }

    /** `AddItemToInventory`: an enemy keeps nothing. */
    method AddItemToInventory(item: ItemInfo)
      ensures unchanged(this, events)
    {
    }

    /** `Tick`: a dead enemy does nothing; otherwise, with an attack roll
        above 0.49, the target is hit for `damage`, drawn from [4, 12). */
    method Tick(attackRoll: real, damage: uint32)
      requires 0.0 <= attackRoll < 1.0 && 4 <= damage < 12
      modifies events
      ensures events.log == old(events.log) + if old(health) != 0 then AttackEvents(attackRoll, id, target, damage) else []
    {
      if health == 0 {
        return;
      }
      if attackRoll > 0.49 {
        Attack(damage);
      }
    }

    /** `Attack`: raise a hit from this enemy on its target. */
    method Attack(damage: uint32)
      modifies events
      ensures events.log == old(events.log) + [Damage(DamageInfo(id, target, damage))]
    {
      events.Raise(Damage(DamageInfo(id, target, damage)));
    }

    /** `DamageTaken`, as for the player. */
    method DamageTaken(info: DamageInfo)
      modifies this, events
      ensures health == if info.target == id then Damaged(old(health), info.damage) else old(health)
      ensures events.log == old(events.log) +
        if info.target == id && info.damage >= old(health) then [Death(info.instigator, id)] else []
      ensures target == old(target)
    {
      if info.target == id {
        if info.damage >= health {
          health := 0;
          Die(info.instigator);
        } else {
          health := health - info.damage;
        }
      }
    }

    /** `Die`: raise this enemy's death. */
    method Die(killer: Guid)
      modifies events
      ensures events.log == old(events.log) + [Death(killer, id)]
    {
      events.Raise(Death(killer, id));
    }
  }
}
