/** The game loop (`update`) and the input handlers as functions on the engine's `World`:
    player movement, the E, M and Space keys, the mouse wheel, shop purchases, `resetGame`, the
    card game's buttons and the timers the engine schedules. */
module Handlers {
  import opened Types
  import opened Seqs
  import opened Geometry
  import Pesten
  import opened Inventory
  import opened Combat
  import opened Movement
  import opened Projectiles
  import opened Interaction
  import opened Rules

  // ---------------------------------------------------------------------------------------
  // The game loop.

  /** What one animation frame reads from outside: the keys held, the unit headings of the
      steered car and of the walking direction, the mouse angle and its unit vector, the
      spread heading of a shot, the mouse button and the clock. */
  datatype Input = Input(keys: Keys, carHeading: Vec, walkHeading: Vec, aim: real, aimDir: Vec,
                         shotDir: Vec, mouseDown: bool, now: int)

  /** `cars.find(c => c.id === player.inCarId)`, as an index or -1. */
  function OwnCar(cars: seq<Car>, inCarId: Option<string>): (k: int)
    ensures -1 <= k < |cars|
    ensures k == -1 <==> forall j :: 0 <= j < |cars| ==> Some(cars[j].id) != inCarId
    ensures k != -1 ==> Some(cars[k].id) == inCarId && forall j :: 0 <= j < k ==> Some(cars[j].id) != inCarId
  {
    FindIndex(cars, (c: Car) => Some(c.id) == inCarId)
  }

  /** The player part of a frame. In a car that exists, the car is driven and the player sits
      where it is, facing its way; in a car that no longer exists nothing moves. On foot the
      player walks, turns to the mouse and attacks while the button is down. */
  function MovePlayer(w: World, st: Setting, input: Input, rolls: nat -> LootRoll): (r: World)
    requires 0 <= w.hero.activeSlot < |w.hero.inventory|
    ensures w.hero.inCarId.Some? ==> r.inside == w.inside && r.hero.inventory == w.hero.inventory
    ensures w.hero.inCarId.None? ==> r.cars == w.cars
    ensures SameScenery(w, r) && r.gameState == w.gameState
  {
    var h := w.hero;
    if h.inCarId.Some? then
      var k := OwnCar(w.cars, h.inCarId);
      if k == -1 then w
      else
        var car := Drive(w.cars[k], input.keys, input.carHeading, w.cars, st.buildings);
        w.(cars := w.cars[k := car], hero := h.(x := car.x, y := car.y, rotation := car.rotation))
    else
      var p := Walk(HeroPos(h), input.keys, input.walkHeading, w.inside.Some?, st.canvasW, st.canvasH, st.buildings);
      var walked := w.(hero := h.(x := p.x, y := p.y, rotation := input.aim));
      if input.mouseDown then PlayerAttack(walked, input.now, input.aimDir, input.shotDir, rolls) else walked
  }

  /** Driving moves exactly the player's own car (the first with the player's car id) and puts
      the player on it; walking moves the player by `Walk`, turns them to the mouse and never
      touches the cars. With the button up nothing else changes; with it down the player
      attacks from the new spot. */
  lemma MovePlayerEffect(w: World, st: Setting, input: Input, rolls: nat -> LootRoll)
    requires 0 <= w.hero.activeSlot < |w.hero.inventory|
    ensures var r := MovePlayer(w, st, input, rolls);
      && (w.hero.inCarId.Some? ==>
            var k := OwnCar(w.cars, w.hero.inCarId);
            && (k == -1 ==> r == w)
            && (k != -1 ==>
                  && |r.cars| == |w.cars| && r.cars[k] == Drive(w.cars[k], input.keys, input.carHeading, w.cars, st.buildings)
                  && (forall j :: 0 <= j < |w.cars| && j != k ==> r.cars[j] == w.cars[j])
                  && HeroPos(r.hero) == CarPos(r.cars[k]) && r.hero.rotation == r.cars[k].rotation
                  && r.hero.health == w.hero.health && r.projectiles == w.projectiles))
      && (w.hero.inCarId.None? ==>
            var p := Walk(HeroPos(w.hero), input.keys, input.walkHeading, w.inside.Some?,
                          st.canvasW, st.canvasH, st.buildings);
            var walked := w.(hero := w.hero.(x := p.x, y := p.y, rotation := input.aim));
            && r.cars == w.cars
            && (!input.mouseDown ==> r == walked)
            && (input.mouseDown ==> r == PlayerAttack(walked, input.now, input.aimDir, input.shotDir, rolls)))
  {
  }

  lemma MovePlayerKeepsOk(w: World, st: Setting, input: Input, rolls: nat -> LootRoll)
    requires WorldOk(w)
    ensures WorldOk(MovePlayer(w, st, input, rolls))
  {
    var h := w.hero;
    if h.inCarId.Some? {
      var k := OwnCar(w.cars, h.inCarId);
      if k != -1 {
        var car := Drive(w.cars[k], input.keys, input.carHeading, w.cars, st.buildings);
        assert CarOk(w.cars[k]);
        var r := MovePlayer(w, st, input, rolls);
        forall j | 0 <= j < |r.cars|
          ensures CarOk(r.cars[j])
        {
          assert j != k ==> r.cars[j] == w.cars[j];
        }
      }
    } else {
      var p := Walk(HeroPos(h), input.keys, input.walkHeading, w.inside.Some?, st.canvasW, st.canvasH, st.buildings);
      var walked := w.(hero := h.(x := p.x, y := p.y, rotation := input.aim));
      assert WorldOk(walked);
      PlayerAttackKeepsOk(walked, input.now, input.aimDir, input.shotDir, rolls);
    }
  }

  /** The game loop only runs while playing, with no shop and no card game open. */
  predicate Running(w: World)
  {
    w.gameState == Playing && w.shop == NoShop && !w.pesten.active
  }

  /** One frame of `update`: the player, then every projectile (last first), then every NPC of
      the pool the frame runs. `rolls(i)` are the loot draws of NPC `i` of that pool and
      `choices(i)` the draws of its turn: an NPC dies at most once per frame, because dead
      NPCs are neither hit nor moved. */
  function Update(w: World, st: Setting, input: Input, rolls: nat -> LootRoll, choices: nat -> NpcChoice): (r: World)
    requires 0 <= w.hero.activeSlot < |w.hero.inventory|
    ensures !Running(w) ==> r == w
  {
    if !Running(w) then w
    else Tick(Shoot(MovePlayer(w, st, input, rolls), st, rolls), st, choices)
  }

  /** A frame keeps the engine's invariant and never changes the interior, the shop, the card
      game or the building last entered. */
  lemma UpdateKeepsOk(w: World, st: Setting, input: Input, rolls: nat -> LootRoll, choices: nat -> NpcChoice)
    requires WorldOk(w)
    ensures var r := Update(w, st, input, rolls, choices);
      WorldOk(r) && SameScenery(w, r)
  {
    if Running(w) {
      MovePlayerKeepsOk(w, st, input, rolls);
      var m := MovePlayer(w, st, input, rolls);
      ShootKeepsOk(m, st, rolls);
      TickKeepsOk(Shoot(m, st, rolls), st, choices);
    }
  }

  // ---------------------------------------------------------------------------------------
  // `handleInteraction` (the E key).

  /** What the dispatcher sees of the world: the barman and the card player are the cafe's two
      NPCs, the seller is the car dealer's. */
  function SceneOf(w: World, st: Setting): Scene
    requires |w.cafeNpcs| >= 2 && |w.carDealerNpcs| >= 1
  {
    Scene(w.pesten.active, w.inside, HeroPos(w.hero), w.hero.inCarId, st.canvasH,
          NpcPos(w.cafeNpcs[0]), NpcPos(w.cafeNpcs[1]), NpcPos(w.carDealerNpcs[0]),
          st.buildings, w.loot, w.cars)
  }

  /** The indices an action carries are in range. */
  predicate ActionOk(w: World, st: Setting, a: Action)
  {
    match a
    case LeaveInterior => w.inside.Some?
    case EnterBuilding(i) => i < |st.buildings|
    case PickUp(l) => l < |w.loot|
    case ExitCar(c) => c < |w.cars|
    case EnterCar(c) => c < |w.cars|
    case _ => true
  }

  /** Carries out one action of `handleInteraction`. `shuffled` is the deck `createDeck` returns.
      No action fights: the NPCs, the projectiles, the mission and the screen stay, the cars
      are neither added nor removed, and the slots stay as many with the same one active. Only
      the shop actions open a shop and only the card player deals. */
  function Perform(w: World, st: Setting, shuffled: seq<Pesten.Card>, a: Action): (r: World)
    requires ActionOk(w, st, a) && Pesten.IsShuffle(shuffled)
    requires 0 <= w.hero.activeSlot < |w.hero.inventory|
    ensures a == Busy || a == StayInside || a == NoAction ==> r == w
    ensures r.npcs == w.npcs && r.cafeNpcs == w.cafeNpcs && r.carDealerNpcs == w.carDealerNpcs
    ensures r.projectiles == w.projectiles && r.mission == w.mission && r.gameState == w.gameState
    ensures |r.cars| == |w.cars| && r.hero.activeSlot == w.hero.activeSlot && |r.hero.inventory| == |w.hero.inventory|
    ensures !(a == OpenBar || a == OpenCarShop || a == OpenWeaponShop) ==> r.shop == w.shop
    ensures a != StartCards ==> r.pesten == w.pesten
  {
    var h := w.hero;
    match a
    case Busy => w
    case StayInside => w
    case NoAction => w
    case LeaveInterior =>
      var out := w.(inside := None);
      (match ExitSpot(st.buildings, w.lastEntered, w.inside.value)
       case None => out
       case Some(p) => out.(hero := h.(x := p.x, y := p.y)))
    case OpenBar => w.(shop := BarShop)
    case StartCards => w.(pesten := Pesten.StartPesten(shuffled))
    case OpenCarShop => w.(shop := CarShop)
    case EnterBuilding(i) =>
      var b := st.buildings[i];
      var p := InteriorSpawn(st.canvasW, st.canvasH);
      w.(inside := Some(Interior(b)), lastEntered := Some(b.id), hero := h.(x := p.x, y := p.y))
    case OpenWeaponShop => w.(shop := WeaponShop)
    case PickUp(l) =>
      w.(loot := Remove(w.loot, l), hero := WithHoldings(h, Pickup(HoldingsOf(h), w.loot[l].kind)))
    case ExitCar(c) =>
      var car := w.cars[c];
      w.(cars := w.cars[c := car.(driverId := None)],
         hero := h.(inCarId := None, x := car.x + 40.0, y := car.y, speed := 0.0))
    case EnterCar(c) =>
      var car := w.cars[c];
      w.(cars := w.cars[c := car.(driverId := Some(PLAYER_ID))],
         hero := h.(inCarId := Some(car.id), x := car.x, y := car.y, rotation := car.rotation))
  }

  /** `handleInteraction`: the action `Dispatch` chooses, carried out. It never changes the
      interior NPCs, the number of cars, the active slot or the number of slots, so E can be
      pressed again on its result. */
  function Interact(w: World, st: Setting, shuffled: seq<Pesten.Card>): (r: World)
    requires |w.cafeNpcs| >= 2 && |w.carDealerNpcs| >= 1 && Pesten.IsShuffle(shuffled)
    requires 0 <= w.hero.activeSlot < |w.hero.inventory|
    ensures r.cafeNpcs == w.cafeNpcs && r.carDealerNpcs == w.carDealerNpcs && |r.cars| == |w.cars|
    ensures r.hero.activeSlot == w.hero.activeSlot && |r.hero.inventory| == |w.hero.inventory|
    ensures r.npcs == w.npcs && r.projectiles == w.projectiles && r.mission == w.mission && r.gameState == w.gameState
    ensures w.pesten.active ==> r == w
  {
    Perform(w, st, shuffled, Dispatch(SceneOf(w, st)))
  }

  predicate CarsOk(cars: seq<Car>)
  {
    forall j :: 0 <= j < |cars| ==> CarOk(cars[j])
  }

  /** A car list stays within the speed bound when one car is replaced by another that is. */
  lemma CarsOkAfterUpdate(cars: seq<Car>, c: nat, car: Car)
    requires c < |cars| && CarOk(car) && CarsOk(cars)
    ensures CarsOk(cars[c := car])
  {
  }

  /** Removing an item keeps every remaining loot value well formed. */
  lemma LootOkAfterRemove(loot: seq<Loot>, l: nat)
    requires l < |loot| && forall j :: 0 <= j < |loot| ==> LootKindOk(loot[j].kind)
    ensures forall j :: 0 <= j < |Remove(loot, l)| ==> LootKindOk(Remove(loot, l)[j].kind)
  {
    var r := Remove(loot, l);
    forall j | 0 <= j < |r|
      ensures LootKindOk(r[j].kind)
    {
      assert r[j] == (if j < l then loot[j] else loot[j + 1]);
    }
  }

  lemma DealKeepsOk(w: World, shuffled: seq<Pesten.Card>)
    requires WorldOk(w) && Pesten.IsShuffle(shuffled)
    ensures WorldOk(w.(pesten := Pesten.StartPesten(shuffled)))
  {
    Pesten.StartIsDealt(shuffled);
  }

  /** Every action keeps the invariant. */
  lemma PerformKeepsOk(w: World, st: Setting, shuffled: seq<Pesten.Card>, a: Action)
    requires WorldOk(w) && ActionOk(w, st, a) && Pesten.IsShuffle(shuffled)
    ensures WorldOk(Perform(w, st, shuffled, a))
  {
    match a
    case StartCards =>
      DealKeepsOk(w, shuffled);
    case PickUp(l) =>
      LootOkAfterRemove(w.loot, l);
      assert LootKindOk(w.loot[l].kind);
    case ExitCar(c) =>
      assert CarsOk(w.cars);
      CarsOkAfterUpdate(w.cars, c, w.cars[c].(driverId := None));
    case EnterCar(c) =>
      assert CarsOk(w.cars);
      CarsOkAfterUpdate(w.cars, c, w.cars[c].(driverId := Some(PLAYER_ID)));
    case _ =>
  }

  lemma InteractKeepsOk(w: World, st: Setting, shuffled: seq<Pesten.Card>)
    requires WorldOk(w) && Pesten.IsShuffle(shuffled)
    ensures WorldOk(Interact(w, st, shuffled))
  {
    PerformKeepsOk(w, st, shuffled, Dispatch(SceneOf(w, st)));
  }

  /** Picking up loot removes exactly that item and applies `Pickup` to the holdings; nothing
      else changes. */
  lemma InteractPicksUp(w: World, st: Setting, shuffled: seq<Pesten.Card>, l: nat)
    requires |w.cafeNpcs| >= 2 && |w.carDealerNpcs| >= 1 && Pesten.IsShuffle(shuffled)
    requires 0 <= w.hero.activeSlot < |w.hero.inventory|
    requires Dispatch(SceneOf(w, st)) == PickUp(l)
    ensures var r := Interact(w, st, shuffled);
      && l < |w.loot| && |r.loot| == |w.loot| - 1
      && multiset(r.loot) + multiset{w.loot[l]} == multiset(w.loot)
      && HoldingsOf(r.hero) == Pickup(HoldingsOf(w.hero), w.loot[l].kind)
      && r.cars == w.cars && r.npcs == w.npcs && r.inside == w.inside && HeroPos(r.hero) == HeroPos(w.hero)
  {
    PerformPicksUp(w, st, shuffled, l);
  }

  lemma PerformPicksUp(w: World, st: Setting, shuffled: seq<Pesten.Card>, l: nat)
    requires ActionOk(w, st, PickUp(l)) && Pesten.IsShuffle(shuffled)
    requires 0 <= w.hero.activeSlot < |w.hero.inventory|
    ensures var r := Perform(w, st, shuffled, PickUp(l));
      && l < |w.loot| && |r.loot| == |w.loot| - 1
      && multiset(r.loot) + multiset{w.loot[l]} == multiset(w.loot)
      && HoldingsOf(r.hero) == Pickup(HoldingsOf(w.hero), w.loot[l].kind)
      && r.cars == w.cars && r.npcs == w.npcs && r.inside == w.inside && HeroPos(r.hero) == HeroPos(w.hero)
  {
  }

  /** Round trip through a door: entering building `i` and then pressing E anywhere in the
      room's exit zone puts the player 50 below that building's door, outdoors again, provided
      no earlier building shares its id. */
  lemma EnterLeaveRoundTrip(w: World, st: Setting, shuffled: seq<Pesten.Card>, i: nat, y: real)
    requires |w.cafeNpcs| >= 2 && |w.carDealerNpcs| >= 1 && Pesten.IsShuffle(shuffled)
    requires 0 <= w.hero.activeSlot < |w.hero.inventory|
    requires Dispatch(SceneOf(w, st)) == EnterBuilding(i)
    requires forall j :: 0 <= j < i ==> st.buildings[j].id != st.buildings[i].id
    requires y > st.canvasH - 60.0
    ensures var inside := Interact(w, st, shuffled);
      var back := Interact(inside.(hero := inside.hero.(y := y)), st, shuffled);
      && inside.inside == Some(Interior(st.buildings[i]))
      && back.inside.None? && HeroPos(back.hero) == Outside(st.buildings[i])
  {
    var inside := Interact(w, st, shuffled);
    var moved := inside.(hero := inside.hero.(y := y));
    assert Dispatch(SceneOf(moved, st)) == LeaveInterior;
    EnterThenLeave(st.buildings, i);
  }

  /** Getting into a car and pressing E again where only the car rule applies gets the player
      out 40 to the right of it: the car has no driver and the player is on foot, at rest. */
  lemma CarEnterThenExit(w: World, st: Setting, shuffled: seq<Pesten.Card>, c: nat)
    requires |w.cafeNpcs| >= 2 && |w.carDealerNpcs| >= 1 && Pesten.IsShuffle(shuffled)
    requires 0 <= w.hero.activeSlot < |w.hero.inventory|
    requires Dispatch(SceneOf(w, st)) == EnterCar(c)
    requires forall j :: 0 <= j < |w.cars| && j != c ==> w.cars[j].id != w.cars[c].id
    requires CarTurn(SceneOf(Interact(w, st, shuffled), st))
    ensures var entered := Interact(w, st, shuffled);
      var left := Interact(entered, st, shuffled);
      && entered.hero.inCarId == Some(w.cars[c].id) && entered.cars[c].driverId == Some(PLAYER_ID)
      && left.hero.inCarId.None? && left.cars[c].driverId.None? && left.hero.speed == 0.0
      && HeroPos(left.hero) == Vec(w.cars[c].x + 40.0, w.cars[c].y)
  {
    var entered := Interact(w, st, shuffled);
    var s := SceneOf(entered, st);
    assert entered.cars[c].id == w.cars[c].id;
    assert Some(s.cars[c].id) == s.inCarId;
    assert Dispatch(s) == ExitCar(c);
  }

  // ---------------------------------------------------------------------------------------
  // The shops.

  /** The catalogue an open shop shows. */
  function Catalogue(shop: Shop): seq<ShopItem>
  {
    match shop
    case NoShop => []
    case WeaponShop => DEALER_ITEMS
    case CarShop => CAR_SHOP_ITEMS
    case BarShop => BAR_ITEMS
  }

  /** A car bought at the Aalst dealer: it waits at rest at (1250, 1400), facing down, with no
      driver; a hybrid gets `maxSpeed` 14, any other 12. */
  function BoughtCar(now: nat, brand: string, isHybrid: bool): (c: Car)
    ensures CarPos(c) == Vec(1250.0, 1400.0) && c.speed == 0.0 && c.driverId.None?
    ensures c.maxSpeed == (if isHybrid then 14.0 else 12.0) && c.brand == brand && c.isHybrid == isHybrid
  {
    Car("car-bought-" + Digits(now), 1250.0, 1400.0, CAR_WIDTH, CAR_HEIGHT, PI / 2.0, 0.0,
        if isHybrid then 14.0 else 12.0, brand, isHybrid, None)
  }

  /** `buyItem` on an item of the open shop at time `now`: `Buy` on the holdings, and an
      affordable car also appears outside the dealer. */
  function Purchase(w: World, item: ShopItem, now: nat): (r: World)
    requires item in Catalogue(w.shop)
    requires 0 <= w.hero.activeSlot < |w.hero.inventory|
    ensures HoldingsOf(r.hero) == Buy(HoldingsOf(w.hero), item)
    ensures w.hero.cash >= item.price && item.kind.CarItem? ==>
      r.cars == w.cars + [BoughtCar(now, item.kind.brand, item.kind.isHybrid)]
    ensures !(w.hero.cash >= item.price && item.kind.CarItem?) ==> r.cars == w.cars
    ensures w.hero.cash < item.price ==> r == w
  {
    var h := w.hero;
    var bought := w.(hero := WithHoldings(h, Buy(HoldingsOf(h), item)));
    if h.cash >= item.price && item.kind.CarItem? then
      bought.(cars := w.cars + [BoughtCar(now, item.kind.brand, item.kind.isHybrid)])
    else bought
  }

  /** A purchase keeps the invariant and never lowers health; the money goes down by exactly
      the price whenever anything is bought. */
  lemma PurchaseKeepsOk(w: World, item: ShopItem, now: nat)
    requires WorldOk(w) && item in Catalogue(w.shop)
    ensures var r := Purchase(w, item, now);
      && WorldOk(r) && r.hero.health >= w.hero.health
      && (w.hero.cash >= item.price ==> r.hero.cash == w.hero.cash - item.price)
  {
    CataloguesOk(item);
    var r := Purchase(w, item, now);
    forall j | 0 <= j < |r.cars|
      ensures CarOk(r.cars[j])
    {
      if j < |w.cars| {
        assert r.cars[j] == w.cars[j];
      }
    }
  }

  // ---------------------------------------------------------------------------------------
  // The other input handlers.

  /** The mouse wheel: while playing with no card game open, move to the next or previous slot,
      wrapping around. */
  function Wheel(w: World, deltaY: real): (r: World)
    ensures w.gameState != Playing || w.pesten.active ==> r == w
    ensures w.gameState == Playing && !w.pesten.active && 0 <= w.hero.activeSlot < 3 ==>
      r == w.(hero := w.hero.(activeSlot := NextSlot(w.hero.activeSlot, Sign(deltaY))))
  {
    if w.gameState != Playing || w.pesten.active then w
    else if 0 <= w.hero.activeSlot < 3 then w.(hero := w.hero.(activeSlot := NextSlot(w.hero.activeSlot, Sign(deltaY))))
    else w
  }

  /** Scrolling down then up (or up then down) returns to the same slot. */
  lemma WheelBackAndForth(w: World, deltaY: real)
    requires WorldOk(w) && w.gameState == Playing && !w.pesten.active
    ensures WorldOk(Wheel(w, deltaY))
    ensures Wheel(Wheel(w, deltaY), -deltaY) == w
  {
    WheelRoundTrip(w.hero.activeSlot);
    var r := Wheel(w, deltaY);
    assert r.hero.inventory == w.hero.inventory;
  }

  /** Where `resetGame` puts the player: 60 below the door of the building whose id is "cafe",
      or (2950, 3100) when there is none. */
  function StartSpot(buildings: seq<Building>): (p: Vec)
    ensures (forall i :: 0 <= i < |buildings| ==> buildings[i].id != "cafe") ==> p == Vec(2950.0, 3100.0)
    ensures forall i ::
      (0 <= i < |buildings| && buildings[i].id == "cafe" && forall j :: 0 <= j < i ==> buildings[j].id != "cafe") ==>
      p == Vec(buildings[i].x + buildings[i].doorOffset.x, buildings[i].y + buildings[i].doorOffset.y + 60.0)
  {
    var k := FindIndex(buildings, (b: Building) => b.id == "cafe");
    if k == -1 then Vec(2950.0, 3100.0)
    else Vec(buildings[k].x + buildings[k].doorOffset.x, buildings[k].y + buildings[k].doorOffset.y + 60.0)
  }

  /** A street NPC after `resetGame`: wandering, calm, at health 50, where it was. */
  function Revived(n: Npc): (r: Npc)
    ensures r.state == Wandering && r.health == 50.0 && r.aggroTargetId.None?
    ensures r.(state := n.state, aggroTargetId := n.aggroTargetId, health := n.health) == n
    ensures WeaponOk(n.weapon) ==> NpcOk(r)
  {
    n.(state := Wandering, aggroTargetId := None, health := 50.0)
  }

  /** `resetGame`: the player full of health, on foot at the start spot with fists only; every
      street NPC revived; outdoors with no shop or card game open, playing. Cash, cars, loot,
      projectiles and the mission stay as they were. */
  function Reset(w: World, st: Setting): (r: World)
    ensures HeroPos(r.hero) == StartSpot(st.buildings) && r.hero.health == 100.0 && r.hero.inCarId.None?
    ensures r.hero.inventory == START_INVENTORY && r.hero.activeSlot == 0 && r.hero.cash == w.hero.cash
    ensures |r.npcs| == |w.npcs| && forall i :: 0 <= i < |w.npcs| ==> r.npcs[i] == Revived(w.npcs[i])
    ensures r.inside.None? && r.shop == NoShop && !r.pesten.active && r.gameState == Playing && r.lastEntered.None?
    ensures r.cars == w.cars && r.loot == w.loot && r.projectiles == w.projectiles && r.mission == w.mission
    ensures r.cafeNpcs == w.cafeNpcs && r.carDealerNpcs == w.carDealerNpcs
  {
    var p := StartSpot(st.buildings);
    w.(hero := w.hero.(health := 100.0, x := p.x, y := p.y, inCarId := None, inventory := START_INVENTORY, activeSlot := 0),
       lastEntered := None,
       npcs := seq(|w.npcs|, i requires 0 <= i < |w.npcs| => Revived(w.npcs[i])),
       inside := None, shop := NoShop, pesten := w.pesten.(active := false), gameState := Playing)
  }

  lemma ResetKeepsOk(w: World, st: Setting)
    requires WorldOk(w)
    ensures WorldOk(Reset(w, st))
  {
    StartInventoryOk();
    var r := Reset(w, st);
    forall i | 0 <= i < |r.npcs|
      ensures NpcOk(r.npcs[i])
    {
      assert NpcOk(w.npcs[i]);
    }
    assert Pesten.PestenOk(r.pesten) by {
      assert Pesten.Cards(r.pesten) == Pesten.Cards(w.pesten);
    }
  }

  /** Resetting twice is resetting once. */
  lemma ResetIdempotent(w: World, st: Setting)
    ensures Reset(Reset(w, st), st) == Reset(w, st)
  {
    var r := Reset(w, st);
    assert Reset(r, st).npcs == r.npcs;
  }

  /** E: nothing while the card game is open; with no shop open, while playing, interact;
      with a shop open, close it. */
  function PressE(w: World, st: Setting, shuffled: seq<Pesten.Card>): (r: World)
    requires |w.cafeNpcs| >= 2 && |w.carDealerNpcs| >= 1 && Pesten.IsShuffle(shuffled)
    requires 0 <= w.hero.activeSlot < |w.hero.inventory|
    ensures w.pesten.active ==> r == w
    ensures !w.pesten.active && w.shop != NoShop ==> r == w.(shop := NoShop)
    ensures !w.pesten.active && w.shop == NoShop && w.gameState != Playing ==> r == w
  {
    if w.pesten.active then w
    else if w.shop == NoShop then (if w.gameState == Playing then Interact(w, st, shuffled) else w)
    else w.(shop := NoShop)
  }

  /** M: while playing outdoors with no mission and no card game, the mission the service
      generates becomes current. */
  function PressM(w: World, m: Mission): (r: World)
    ensures w.pesten.active || w.gameState != Playing || w.mission.Some? || w.inside.Some? ==> r == w
    ensures !(w.pesten.active || w.gameState != Playing || w.mission.Some? || w.inside.Some?) ==>
      r == w.(mission := Some(m))
  {
    if w.pesten.active || w.gameState != Playing || w.mission.Some? || w.inside.Some? then w
    else w.(mission := Some(m))
  }

  /** Space: on the WASTED screen (and with no card game open), start over. */
  function PressSpace(w: World, st: Setting): (r: World)
    ensures w.pesten.active || w.gameState != Wasted ==> r == w
    ensures !w.pesten.active && w.gameState == Wasted ==> r == Reset(w, st)
  {
    if w.pesten.active || w.gameState != Wasted then w else Reset(w, st)
  }

  /** The START button of the menu. */
  function PressStart(w: World): (r: World)
    ensures w.gameState == Menu ==> r == w.(gameState := Playing)
    ensures w.gameState != Menu ==> r == w
  {
    if w.gameState == Menu then w.(gameState := Playing) else w
  }

  /** A click on hand card `i`: `playCard`, and a play that empties the hand wins 20. */
  function ClickCard(w: World, i: nat): (r: World)
    requires Pesten.CanPlay(w.pesten, i)
    ensures r.pesten == Pesten.PlayCard(w.pesten, i)
    ensures Pesten.PlayerWins(w.pesten, i) ==> r.hero == w.hero.(cash := w.hero.cash + 20.0)
    ensures !Pesten.PlayerWins(w.pesten, i) ==> r.hero == w.hero
  {
    var s := Pesten.PlayCard(w.pesten, i);
    if Pesten.PlayerWins(w.pesten, i) then w.(pesten := s, hero := w.hero.(cash := w.hero.cash + 20.0))
    else w.(pesten := s)
  }

  /** The PAK button: the player draws, on any turn. */
  function ClickDraw(w: World): (r: World)
    ensures r.(pesten := w.pesten) == w
    ensures Pesten.Cards(r.pesten) == Pesten.Cards(w.pesten)
    ensures |w.pesten.deck| == 0 ==> !r.pesten.active
    ensures |w.pesten.deck| > 0 ==>
      r.pesten.turn == Pesten.NpcSide && |r.pesten.playerHand| == |w.pesten.playerHand| + 1
  {
    Pesten.CardsConserved(w.pesten, Pesten.Draw);
    w.(pesten := Pesten.DrawCard(w.pesten, Pesten.PlayerSide))
  }

  /** The timer `playCard` and `drawCard('player')` set: the NPC's turn. */
  function NpcTurnDue(w: World): (r: World)
    requires w.pesten.active ==> |w.pesten.discardPile| > 0
    ensures r.(pesten := w.pesten) == w
    ensures !w.pesten.active ==> r == w
    ensures r.pesten.playerHand == w.pesten.playerHand
  {
    w.(pesten := Pesten.NpcTurn(w.pesten))
  }

  /** The STOP button, and the timer after a win: the card game closes. */
  function CloseCards(w: World): (r: World)
    ensures !r.pesten.active
    ensures r.(pesten := w.pesten) == w && r.pesten.(active := w.pesten.active) == w.pesten
  {
    w.(pesten := w.pesten.(active := false))
  }

  /** The timer a kill sets: three seconds later the mission is cleared. */
  function ClearMission(w: World): (r: World)
    ensures r.mission.None? && r.(mission := w.mission) == w
  {
    w.(mission := None)
  }

  /** The card game keeps the invariant for every move: all 52 cards stay in play once dealt,
      and a game never dealt stays empty. */
  lemma PestenStepOk(s: Pesten.PestenState, m: Pesten.Move)
    requires Pesten.PestenOk(s) && Pesten.MoveOk(s, m)
    ensures Pesten.PestenOk(Pesten.Step(s, m))
  {
    if Pesten.Dealt(s) {
      Pesten.MovePreservesDealt(s, m);
    } else {
      assert s.playerHand == [] && s.npcHand == [] && s.deck == [] && s.discardPile == [];
    }
  }

  /** A card click keeps the invariant, and a win only ever adds money. */
  lemma ClickCardKeepsOk(w: World, i: nat)
    requires WorldOk(w) && Pesten.CanPlay(w.pesten, i)
    ensures WorldOk(ClickCard(w, i)) && ClickCard(w, i).hero.cash >= w.hero.cash
  {
    PestenStepOk(w.pesten, Pesten.Play(i));
  }

  lemma ClickDrawKeepsOk(w: World)
    requires WorldOk(w)
    ensures WorldOk(ClickDraw(w))
  {
    PestenStepOk(w.pesten, Pesten.Draw);
  }

  lemma NpcTurnDueKeepsOk(w: World)
    requires WorldOk(w) && (w.pesten.active ==> |w.pesten.discardPile| > 0)
    ensures WorldOk(NpcTurnDue(w))
  {
    PestenStepOk(w.pesten, Pesten.NpcMove);
  }

  lemma TimersKeepOk(w: World)
    requires WorldOk(w)
    ensures WorldOk(CloseCards(w)) && WorldOk(ClearMission(w))
  {
    assert Pesten.Cards(w.pesten.(active := false)) == Pesten.Cards(w.pesten);
  }

  /** E and Space keep the invariant. */
  lemma KeysKeepOk(w: World, st: Setting, shuffled: seq<Pesten.Card>)
    requires WorldOk(w) && Pesten.IsShuffle(shuffled)
    ensures WorldOk(PressE(w, st, shuffled)) && WorldOk(PressSpace(w, st))
  {
    if !w.pesten.active && w.shop == NoShop && w.gameState == Playing {
      InteractKeepsOk(w, st, shuffled);
    }
    ResetKeepsOk(w, st);
  }

  /** M keeps the invariant for a mission with a reward of at least 0. */
  lemma MenuKeysKeepOk(w: World, m: Mission)
    requires WorldOk(w) && m.reward >= 0.0
    ensures WorldOk(PressM(w, m))
  {
    assert Pesten.Cards(PressM(w, m).pesten) == Pesten.Cards(w.pesten);
  }

  /** START keeps the invariant: a player on the menu is alive. */
  lemma StartKeepsOk(w: World)
    requires WorldOk(w)
    ensures WorldOk(PressStart(w))
  {
    assert Pesten.Cards(PressStart(w).pesten) == Pesten.Cards(w.pesten);
  }
}
