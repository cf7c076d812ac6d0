/** Record shapes and constants of the game (types.ts, constants.ts).

    Numbers of the source are JavaScript numbers; positions, health, damage and
    cash are `real` here (bar prices such as 2.5 are fractional), cooldowns, ammo
    and timestamps are `int`. Colours, dialogue lines and other display-only
    fields are not part of the records. */
module Types {

  datatype Option<T> = None | Some(value: T)

  datatype Vec = Vec(x: real, y: real)

  /** The top-level screen of the game (`GameState`). */
  datatype GameState = Menu | Playing | MissionComplete | Wasted

  datatype WeaponType = Fists | Bottle | Pistol | Ak47

  /** `range` is the melee reach or the projectile travel distance; `ammo` is -1 for infinite. */
  datatype Weapon = Weapon(kind: WeaponType, name: string, damage: real, range: real,
                           cooldown: int, isRanged: bool, ammo: int)

  const FISTS: Weapon := Weapon(Fists, "Vuisten", 10.0, 40.0, 500, false, -1)
  const BOTTLE: Weapon := Weapon(Bottle, "Gebroken Fles", 25.0, 50.0, 400, false, -1)
  const PISTOL: Weapon := Weapon(Pistol, "Pistool", 15.0, 600.0, 600, true, 12)
  const AK47: Weapon := Weapon(Ak47, "AK-47", 20.0, 800.0, 150, true, 30)

  const WORLD_WIDTH: real := 6000.0
  const WORLD_HEIGHT: real := 6000.0
  const PLAYER_SIZE: real := 24.0
  const CAR_WIDTH: real := 40.0
  const CAR_HEIGHT: real := 70.0
  /** The double nearest to pi, as `Math.PI`. */
  const PI: real := 3.141592653589793

  /** The id of the player entity; projectiles with this owner hit NPCs. */
  const PLAYER_ID: string := "robert"

  datatype NpcState = Wandering | Fleeing | Talking | Fighting | Dead | Sitting | Barman | DealerRole

  datatype Npc = Npc(id: string, name: string, x: real, y: real, width: real, height: real,
                     rotation: real, state: NpcState, health: real, weapon: Weapon,
                     aggroTargetId: Option<string>)

  datatype Car = Car(id: string, x: real, y: real, width: real, height: real, rotation: real,
                     speed: real, maxSpeed: real, brand: string, isHybrid: bool,
                     driverId: Option<string>)

  /** A projectile keeps its heading as the unit vector (cos, sin) of its rotation. */
  datatype Projectile = Projectile(x: real, y: real, dir: Vec, speed: real, damage: real,
                                   ownerId: string, distanceTraveled: real, maxDistance: real)

  /** The loot type together with its value: an amount, or the weapon tag of a weapon drop. */
  datatype LootKind = Money(amount: real) | Health(amount: real) | WeaponLoot(tag: WeaponType) | Misc(amount: real)

  datatype Loot = Loot(x: real, y: real, kind: LootKind, name: string)

  datatype BuildingType = PlainBuilding | HouseBuilding | CafeBuilding | BreweryBuilding | CarDealerBuilding

  /** `doorOffset` is relative to the top-left corner (x, y). */
  datatype Building = Building(id: string, x: real, y: real, width: real, height: real,
                               kind: BuildingType, doorOffset: Vec, labelText: Option<string>)

  /** The value of a shop item, by item type. */
  datatype ShopItemKind =
    | WeaponItem(weapon: Weapon)
    | AmmoItem(rounds: int)
    | HealItem(heal: real)
    | CarItem(brand: string, color: string, isHybrid: bool)

  datatype ShopItem = ShopItem(id: string, name: string, price: real, kind: ShopItemKind)

  const DEALER_ITEMS: seq<ShopItem> := [
    ShopItem("pistol", "Pistool", 150.0, WeaponItem(PISTOL)),
    ShopItem("ak47", "AK-47", 600.0, WeaponItem(AK47)),
    ShopItem("ammo", "Munitie (30x)", 50.0, AmmoItem(30)),
    ShopItem("kebab", "Kebab (Heal)", 20.0, HealItem(50.0))
  ]

  const CAR_SHOP_ITEMS: seq<ShopItem> := [
    ShopItem("canta", "Canta LX", 450.0, CarItem("Canta LX", "#dc2626", false)),
    ShopItem("audi", "Snelle Audi", 1200.0, CarItem("Audi RS6", "#ef4444", false)),
    ShopItem("volvo", "Oude Volvo", 200.0, CarItem("Volvo 240", "#7f1d1d", false)),
    ShopItem("tank", "Pantserwagen", 5000.0, CarItem("Pantserwagen", "#3f6212", false))
  ]

  /** The bar menu as the cafe shop offers it: each beer is a heal item priced in euros. */
  const BAR_ITEMS: seq<ShopItem> := [
    ShopItem("Pilske (Maes)", "Pilske (Maes)", 2.5, HealItem(10.0)),
    ShopItem("Duvel", "Duvel", 4.5, HealItem(20.0)),
    ShopItem("Karmeliet", "Karmeliet", 5.0, HealItem(25.0)),
    ShopItem("Cara Pils (Warm)", "Cara Pils (Warm)", 0.5, HealItem(5.0))
  ]

  const FUN_LOOT_NAMES: seq<string> := [
    "Smerig Boekje", "Gouden Tand", "Pakje Sigaretten", "Oude Nokia",
    "Half Broodje", "Lotto Lot (Niet winnend)", "Trouwring", "Kunstgebit"
  ]

  datatype MissionType = Kill | Delivery | MiscMission

  datatype Mission = Mission(id: string, title: string, kind: MissionType,
                             targetId: Option<string>, reward: real, completed: bool)

  /** Which interior the player is in (`insideLocation`, null when outdoors). */
  datatype Location = InCafe | InHouse | InCarDealer

  datatype Shop = NoShop | WeaponShop | CarShop | BarShop

  /** A number drawn by `Math.random()`. */
  type Unit = r: real | 0.0 <= r < 1.0

  /** The two draws `spawnLoot` makes: the loot type, then its detail. */
  datatype LootRoll = LootRoll(kind: Unit, detail: Unit)
}
