/** The player's three weapon slots, the wheel that selects one, ammunition, healing,
    and what a loot pickup or a shop purchase does to the player's holdings.

    The engine mutates `playerRef.current` in place; the rules it applies are stated
    here as functions on values, and the `Game` class (engine.dfy) applies them. */
module Inventory {
  import opened Types
  import opened Seqs

  /** `inventory`: three slots, each a weapon or null. */
  type Slots = seq<Option<Weapon>>

  /** A weapon as the game hands them out: a ranged weapon holds at least one round (its slot
      is cleared when ammo reaches 0), a melee weapon has ammo -1 (infinite). */
  predicate WeaponOk(w: Weapon)
  {
    w.damage >= 0.0 && w.range >= 0.0 && (if w.isRanged then w.ammo > 0 else w.ammo == -1)
  }

  predicate InventoryOk(inv: Slots, slot: int)
  {
    |inv| == 3 && 0 <= slot < 3 && forall i :: 0 <= i < |inv| && inv[i].Some? ==> WeaponOk(inv[i].value)
  }

  /** `[WEAPONS.FISTS, null, null]`, the inventory at start and after `resetGame`. */
  const START_INVENTORY: Slots := [Some(FISTS), None, None]

  lemma StartInventoryOk()
    ensures InventoryOk(START_INVENTORY, 0)
    ensures WeaponOk(FISTS) && WeaponOk(BOTTLE) && WeaponOk(PISTOL) && WeaponOk(AK47)
  {
  }

  /** `inventory[activeSlot] || WEAPONS.FISTS`: an empty slot fights with fists. */
  function ActiveWeapon(inv: Slots, slot: int): (w: Weapon)
    requires 0 <= slot < |inv|
    ensures inv[slot].Some? ==> w == inv[slot].value
    ensures inv[slot].None? ==> w == FISTS
  {
    if inv[slot].Some? then inv[slot].value else FISTS
  }

  /** `Math.sign` of a wheel delta. */
  function Sign(v: real): (r: int)
    ensures -1 <= r <= 1
    ensures r == 1 <==> v > 0.0
    ensures r == -1 <==> v < 0.0
  {
    if v > 0.0 then 1 else if v < 0.0 then -1 else 0
  }

  /** The wheel handler's slot arithmetic: past slot 2 it wraps to 0, below 0 to 2. */
  function NextSlot(slot: int, dir: int): (r: int)
    requires 0 <= slot < 3 && -1 <= dir <= 1
    ensures 0 <= r < 3
    ensures r == (slot + dir) % 3
  {
    var next := slot + dir;
    if next > 2 then 0 else if next < 0 then 2 else next
  }

  /** Scrolling one notch back undoes one notch forward, and three notches go full circle. */
  lemma WheelRoundTrip(slot: int)
    requires 0 <= slot < 3
    ensures NextSlot(NextSlot(slot, 1), -1) == slot
    ensures NextSlot(NextSlot(slot, -1), 1) == slot
    ensures NextSlot(NextSlot(NextSlot(slot, 1), 1), 1) == slot
  {
  }

  /** `inventory.findIndex(s => s === null)`. */
  function FreeSlot(inv: Slots): (k: int)
    ensures -1 <= k < |inv|
    ensures k >= 0 ==> inv[k].None? && forall j :: 0 <= j < k ==> inv[j].Some?
    ensures k == -1 <==> forall j :: 0 <= j < |inv| ==> inv[j].Some?
  {
    FindIndex(inv, (o: Option<Weapon>) => o.None?)
  }

  /** A new weapon goes into the first empty slot; with no empty slot it replaces the weapon
      in the active slot. */
  function PlaceWeapon(inv: Slots, slot: int, w: Weapon): (r: Slots)
    requires 0 <= slot < |inv|
    ensures |r| == |inv|
    ensures forall j :: 0 <= j < |inv| && inv[j].None? && (forall m :: 0 <= m < j ==> inv[m].Some?) ==>
      r == inv[j := Some(w)]
    ensures (forall j :: 0 <= j < |inv| ==> inv[j].Some?) ==> r == inv[slot := Some(w)]
  {
    var k := FreeSlot(inv);
    if k != -1 then inv[k := Some(w)] else inv[slot := Some(w)]
  }

  /** Placing a weapon keeps the inventory well formed, puts the weapon in it, changes exactly
      one slot, and loses no weapon while a slot was free. */
  lemma PlaceWeaponKeeps(inv: Slots, slot: int, w: Weapon)
    requires InventoryOk(inv, slot) && WeaponOk(w)
    ensures var r := PlaceWeapon(inv, slot, w);
      && InventoryOk(r, slot)
      && Some(w) in r
      && (exists p :: 0 <= p < |inv| && r[p] == Some(w) && forall j :: 0 <= j < |inv| && j != p ==> r[j] == inv[j])
      && ((exists j :: 0 <= j < |inv| && inv[j].None?) ==>
            forall j :: 0 <= j < |inv| && inv[j].Some? ==> r[j] == inv[j])
  {
    var k := FreeSlot(inv);
    var r := PlaceWeapon(inv, slot, w);
    if k != -1 {
      assert r == inv[k := Some(w)];
      assert r[k] == Some(w);
    } else {
      assert r[slot] == Some(w);
    }
  }

  /** The ammo bookkeeping of a ranged player shot: a finite-ammo weapon loses one round and
      its slot is emptied when the last round goes. */
  function Fire(inv: Slots, slot: int): (r: Slots)
    requires 0 <= slot < |inv|
    ensures |r| == |inv|
    ensures forall j :: 0 <= j < |inv| && j != slot ==> r[j] == inv[j]
    ensures inv[slot].Some? && inv[slot].value.ammo > 1 ==>
      r[slot] == Some(inv[slot].value.(ammo := inv[slot].value.ammo - 1))
    ensures inv[slot].Some? && inv[slot].value.ammo == 1 ==> r[slot].None?
    ensures (inv[slot].None? || inv[slot].value.ammo <= 0) ==> r == inv
    ensures InventoryOk(inv, slot) ==> InventoryOk(r, slot)
  {
    match inv[slot]
    case None => inv
    case Some(w) =>
      if w.ammo > 0 then
        var left := w.ammo - 1;
        if left == 0 then inv[slot := None] else inv[slot := Some(w.(ammo := left))]
      else inv
  }

  /** `k` ranged shots from the active slot. */
  function Shots(inv: Slots, slot: int, k: nat): (r: Slots)
    requires 0 <= slot < |inv|
    ensures |r| == |inv|
  {
    if k == 0 then inv else Fire(Shots(inv, slot, k - 1), slot)
  }

  /** A weapon with `a` rounds fires exactly `a` times: after `k < a` shots it holds `a - k`
      rounds, after the `a`-th the slot is empty and attacks fall back to fists. The other slots
      are untouched throughout. */
  lemma {:induction false} ShotsUntilEmpty(inv: Slots, slot: int, k: nat)
    requires 0 <= slot < |inv| && inv[slot].Some? && 0 < inv[slot].value.ammo && k <= inv[slot].value.ammo
    ensures var r := Shots(inv, slot, k);
      && (forall j :: 0 <= j < |inv| && j != slot ==> r[j] == inv[j])
      && (k < inv[slot].value.ammo ==> r[slot] == Some(inv[slot].value.(ammo := inv[slot].value.ammo - k)))
      && (k == inv[slot].value.ammo ==> r[slot].None? && ActiveWeapon(r, slot) == FISTS)
  {
    if k > 0 {
      ShotsUntilEmpty(inv, slot, k - 1);
    }
  }

  /** One slot after an ammo purchase: a ranged weapon gains the rounds. */
  function AmmoTo(o: Option<Weapon>, rounds: int): Option<Weapon>
  {
    if o.Some? && o.value.isRanged then Some(o.value.(ammo := o.value.ammo + rounds)) else o
  }

  /** Every ranged weapon in the inventory gains the rounds; nothing else changes. */
  function AmmoAdded(inv: Slots, rounds: int): (r: Slots)
    ensures |r| == |inv|
    ensures forall j :: 0 <= j < |inv| && (inv[j].None? || !inv[j].value.isRanged) ==> r[j] == inv[j]
    ensures forall j :: 0 <= j < |inv| && inv[j].Some? && inv[j].value.isRanged ==>
      r[j].Some? && r[j].value.ammo == inv[j].value.ammo + rounds
    ensures forall slot :: rounds >= 0 && InventoryOk(inv, slot) ==> InventoryOk(r, slot)
  {
    seq(|inv|, j requires 0 <= j < |inv| => AmmoTo(inv[j], rounds))
  }

  /** `Math.min(100, health + amount)`. */
  function Heal(health: real, amount: real): (r: real)
    ensures r <= 100.0
    ensures health + amount <= 100.0 ==> r == health + amount
    ensures health + amount > 100.0 ==> r == 100.0
    ensures 0.0 < health && 0.0 <= amount ==> 0.0 < r
  {
    if 100.0 < health + amount then 100.0 else health + amount
  }

  /** What the pickup and shop code read and write of the player. */
  datatype Holdings = Holdings(cash: real, health: real, inventory: Slots, activeSlot: int)

  predicate HoldingsOk(h: Holdings)
  {
    h.cash >= 0.0 && h.health <= 100.0 && InventoryOk(h.inventory, h.activeSlot)
  }

  /** A loot value as `spawnLoot` produces them. */
  predicate LootKindOk(k: LootKind)
  {
    match k
    case Money(a) => a >= 0.0
    case Health(a) => a >= 0.0
    case WeaponLoot(tag) => tag == Pistol || tag == Bottle
    case Misc(a) => a >= 0.0
  }

  /** The weapon a weapon drop becomes: a fresh pistol for 'pistol', otherwise a bottle. */
  function LootWeapon(tag: WeaponType): (w: Weapon)
    ensures WeaponOk(w)
    ensures w == (if tag == Pistol then PISTOL else BOTTLE)
  {
    if tag == Pistol then PISTOL else BOTTLE
  }

  /** The effect of picking up one loot item. Money adds its amount, health heals up to 100,
      a weapon goes to a slot, and a misc item is sold on the spot for 5 whatever its value. */
  function Pickup(h: Holdings, k: LootKind): (r: Holdings)
    requires 0 <= h.activeSlot < |h.inventory|
    ensures k.Money? ==> r == h.(cash := h.cash + k.amount)
    ensures k.Misc? ==> r == h.(cash := h.cash + 5.0)
    ensures k.Health? ==> r == h.(health := Heal(h.health, k.amount))
    ensures k.WeaponLoot? ==> r == h.(inventory := PlaceWeapon(h.inventory, h.activeSlot, LootWeapon(k.tag)))
    ensures HoldingsOk(h) && LootKindOk(k) ==> HoldingsOk(r) && r.cash >= h.cash && r.health >= h.health
  {
    match k
    case Money(a) => h.(cash := h.cash + a)
    case Health(a) => h.(health := Heal(h.health, a))
    case WeaponLoot(tag) =>
      PlaceWeaponKeepsLater(h.inventory, h.activeSlot, LootWeapon(tag));
      h.(inventory := PlaceWeapon(h.inventory, h.activeSlot, LootWeapon(tag)))
    case Misc(_) => h.(cash := h.cash + 5.0)
  }

  lemma PlaceWeaponKeepsLater(inv: Slots, slot: int, w: Weapon)
    requires 0 <= slot < |inv|
    ensures InventoryOk(inv, slot) && WeaponOk(w) ==> InventoryOk(PlaceWeapon(inv, slot, w), slot)
  {
    if InventoryOk(inv, slot) && WeaponOk(w) {
      PlaceWeaponKeeps(inv, slot, w);
    }
  }

  /** A shop item the catalogues offer: a priced item whose weapon, rounds or heal are
      well formed. */
  predicate ItemOk(item: ShopItem)
  {
    item.price >= 0.0 &&
    match item.kind
    case WeaponItem(w) => WeaponOk(w)
    case AmmoItem(n) => n >= 0
    case HealItem(x) => x >= 0.0
    case CarItem(_, _, _) => true
  }

  lemma CataloguesOk(item: ShopItem)
    requires item in DEALER_ITEMS || item in CAR_SHOP_ITEMS || item in BAR_ITEMS
    ensures ItemOk(item)
  {
  }

  /** `buyItem` on the player's holdings. With too little cash nothing changes; otherwise the
      price is paid first and then a weapon is placed, ammo added to every ranged weapon or
      health healed. A car is paid for here and appears in the street (see the `Game` class). */
  function Buy(h: Holdings, item: ShopItem): (r: Holdings)
    requires 0 <= h.activeSlot < |h.inventory|
    ensures h.cash < item.price ==> r == h
    ensures h.cash >= item.price ==> r.cash == h.cash - item.price && r.activeSlot == h.activeSlot
    ensures h.cash >= item.price && item.kind.HealItem? ==>
      r.health == Heal(h.health, item.kind.heal) && r.inventory == h.inventory
    ensures h.cash >= item.price && item.kind.AmmoItem? ==>
      r.inventory == AmmoAdded(h.inventory, item.kind.rounds) && r.health == h.health
    ensures h.cash >= item.price && item.kind.WeaponItem? ==>
      r.inventory == PlaceWeapon(h.inventory, h.activeSlot, item.kind.weapon) && r.health == h.health
    ensures h.cash >= item.price && item.kind.CarItem? ==> r == h.(cash := h.cash - item.price)
    ensures HoldingsOk(h) && ItemOk(item) ==> HoldingsOk(r) && r.health >= h.health
  {
    if h.cash < item.price then h
    else
      var paid := h.(cash := h.cash - item.price);
      match item.kind
      case WeaponItem(w) =>
        PlaceWeaponKeepsLater(h.inventory, h.activeSlot, w);
        paid.(inventory := PlaceWeapon(h.inventory, h.activeSlot, w))
      case AmmoItem(n) => paid.(inventory := AmmoAdded(h.inventory, n))
      case HealItem(x) => paid.(health := Heal(h.health, x))
      case CarItem(_, _, _) => paid
  }
}
