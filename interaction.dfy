/** `handleInteraction` (the E key): a strict first-match dispatcher over what the player is
    near, plus where leaving an interior puts the player. The `Game` class (engine.dfy)
    carries out the chosen action. */
module Interaction {
  import opened Types
  import opened Geometry
  import opened Seqs
  import opened Movement

  /** The street weapon dealer's fixed position. */
  const DEALER_POS: Vec := Vec(400.0, 5500.0)

  function Door(b: Building): Vec
  {
    Vec(b.x + b.doorOffset.x, b.y + b.doorOffset.y)
  }

  /** Just outside a building: 50 below its door. */
  function Outside(b: Building): Vec
  {
    Vec(b.x + b.doorOffset.x, b.y + b.doorOffset.y + 50.0)
  }

  function LootPos(l: Loot): Vec
  {
    Vec(l.x, l.y)
  }

  /** What the dispatcher reads: the game mode, where the player is, the positions of the
      barman, the card player and the car seller, and the buildings, loot and cars. */
  datatype Scene = Scene(pestenActive: bool, inside: Option<Location>, player: Vec, inCarId: Option<string>,
                         canvasHeight: real, barman: Vec, cardPlayer: Vec, carSeller: Vec,
                         buildings: seq<Building>, loot: seq<Loot>, cars: seq<Car>)

  /** The one action an interaction performs. Indices are into the scene's sequences. */
  datatype Action =
    | Busy
    | LeaveInterior
    | OpenBar
    | StartCards
    | OpenCarShop
    | StayInside
    | EnterBuilding(b: nat)
    | OpenWeaponShop
    | PickUp(l: nat)
    | ExitCar(c: nat)
    | EnterCar(c: nat)
    | NoAction

  predicate AtDoor(s: Scene, b: Building)
  {
    Within(s.player, Door(b), 40.0)
  }

  predicate AtLoot(s: Scene, l: Loot)
  {
    Within(s.player, LootPos(l), 30.0)
  }

  predicate AtCar(s: Scene, c: Car)
  {
    Within(s.player, CarPos(c), 60.0)
  }

  predicate InExitZone(s: Scene)
  {
    s.player.y > s.canvasHeight - 60.0
  }

  predicate NoDoor(s: Scene)
  {
    forall i :: 0 <= i < |s.buildings| ==> !AtDoor(s, s.buildings[i])
  }

  predicate NoLoot(s: Scene)
  {
    forall i :: 0 <= i < |s.loot| ==> !AtLoot(s, s.loot[i])
  }

  /** Outdoors, not at any door, away from the dealer and from any loot: only the car rule is left. */
  predicate CarTurn(s: Scene)
  {
    !s.pestenActive && s.inside.None? && NoDoor(s) && !Within(s.player, DEALER_POS, 50.0) && NoLoot(s)
  }

  /** The dispatcher. While the card game is open nothing happens. Inside: the exit zone first,
      then the barman and the card player in the cafe, the seller in the car dealer's shop.
      Outdoors: the first door within 40, the dealer within 50, the first loot within 30, and
      last the car, left if the player is in one, otherwise the first car within 60. */
  function Dispatch(s: Scene): (a: Action)
    ensures a == Busy <==> s.pestenActive
    ensures a == LeaveInterior <==> !s.pestenActive && s.inside.Some? && InExitZone(s)
    ensures a == OpenBar <==>
      !s.pestenActive && s.inside == Some(InCafe) && !InExitZone(s) && Within(s.player, s.barman, 60.0)
    ensures a == StartCards <==>
      !s.pestenActive && s.inside == Some(InCafe) && !InExitZone(s) && !Within(s.player, s.barman, 60.0)
      && Within(s.player, s.cardPlayer, 60.0)
    ensures a == OpenCarShop <==>
      !s.pestenActive && s.inside == Some(InCarDealer) && !InExitZone(s) && Within(s.player, s.carSeller, 60.0)
    ensures a.EnterBuilding? <==> !s.pestenActive && s.inside.None? && !NoDoor(s)
    ensures a.EnterBuilding? ==>
      (a.b < |s.buildings| && AtDoor(s, s.buildings[a.b]) && forall j :: 0 <= j < a.b ==> !AtDoor(s, s.buildings[j]))
    ensures a == OpenWeaponShop <==>
      !s.pestenActive && s.inside.None? && NoDoor(s) && Within(s.player, DEALER_POS, 50.0)
    ensures a.PickUp? <==> CarTurn(s.(loot := [])) && !NoLoot(s)
    ensures a.PickUp? ==>
      (a.l < |s.loot| && AtLoot(s, s.loot[a.l]) && forall j :: 0 <= j < a.l ==> !AtLoot(s, s.loot[j]))
    ensures a.ExitCar? <==> CarTurn(s) && s.inCarId.Some? && exists i :: 0 <= i < |s.cars| && Some(s.cars[i].id) == s.inCarId
    ensures a.ExitCar? ==> a.c < |s.cars| && Some(s.cars[a.c].id) == s.inCarId
    ensures a.EnterCar? <==> CarTurn(s) && s.inCarId.None? && exists i :: 0 <= i < |s.cars| && AtCar(s, s.cars[i])
    ensures a.EnterCar? ==>
      (a.c < |s.cars| && AtCar(s, s.cars[a.c]) && forall j :: 0 <= j < a.c ==> !AtCar(s, s.cars[j]))
  {
    if s.pestenActive then Busy
    else if s.inside.Some? then
      if InExitZone(s) then LeaveInterior
      else if s.inside == Some(InCafe) && Within(s.player, s.barman, 60.0) then OpenBar
      else if s.inside == Some(InCafe) && Within(s.player, s.cardPlayer, 60.0) then StartCards
      else if s.inside == Some(InCarDealer) && Within(s.player, s.carSeller, 60.0) then OpenCarShop
      else StayInside
    else
      var door := FindIndex(s.buildings, (b: Building) => AtDoor(s, b));
      if door != -1 then EnterBuilding(door)
      else if Within(s.player, DEALER_POS, 50.0) then OpenWeaponShop
      else
        var item := FindIndex(s.loot, (l: Loot) => AtLoot(s, l));
        if item != -1 then PickUp(item)
        else if s.inCarId.Some? then
          var own := FindIndex(s.cars, (c: Car) => Some(c.id) == s.inCarId);
          if own != -1 then ExitCar(own) else NoAction
        else
          var near := FindIndex(s.cars, (c: Car) => AtCar(s, c));
          if near != -1 then EnterCar(near) else NoAction
  }

  /** Door, dealer and loot rules come before the car rule even while the player drives: a
      driver at a door walks in, car and all. */
  lemma DoorBeatsCar(s: Scene, i: nat)
    requires !s.pestenActive && s.inside.None? && s.inCarId.Some?
    requires i < |s.buildings| && AtDoor(s, s.buildings[i])
    ensures Dispatch(s).EnterBuilding? && Dispatch(s).b <= i
  {
  }

  /** The interior a door leads into: the cafe, the car dealer's shop, otherwise a house
      (the brewery too). */
  function Interior(b: Building): (l: Location)
    ensures b.kind == CafeBuilding <==> l == InCafe
    ensures b.kind == CarDealerBuilding <==> l == InCarDealer
  {
    if b.kind == CafeBuilding then InCafe else if b.kind == CarDealerBuilding then InCarDealer else InHouse
  }

  /** Where the player spawns inside: the middle of the room, 100 above its bottom edge. */
  function InteriorSpawn(canvasW: real, canvasH: real): Vec
  {
    Vec(canvasW / 2.0, canvasH - 100.0)
  }

  /** The interior spawn point lies outside the exit zone, so pressing E right after entering
      does not walk straight back out. */
  lemma SpawnNotInExit(s: Scene, canvasW: real)
    requires s.inside.Some? && !s.pestenActive && s.player == InteriorSpawn(canvasW, s.canvasHeight)
    ensures Dispatch(s) != LeaveInterior
  {
  }

  /** Building `k` is the first one of its kind (`buildings.find(b => b.type === kind)`). */
  predicate FirstOfKind(buildings: seq<Building>, k: nat, kind: BuildingType)
  {
    k < |buildings| && buildings[k].kind == kind && forall j :: 0 <= j < k ==> buildings[j].kind != kind
  }

  /** The index of the first building of a kind, or -1 when there is none. */
  function FirstIndexOfKind(buildings: seq<Building>, kind: BuildingType): (k: int)
    ensures -1 <= k < |buildings|
    ensures k == -1 <==> forall i :: 0 <= i < |buildings| ==> buildings[i].kind != kind
    ensures forall j: nat :: FirstOfKind(buildings, j, kind) <==> j == k
  {
    FindIndex(buildings, (b: Building) => b.kind == kind)
  }

  /** Where leaving an interior puts the player; `None` leaves the position as it is. The
      building recorded on entry wins; failing that, the first cafe or car dealer building
      (by interior), or for a house the world centre. */
  function ExitSpot(buildings: seq<Building>, lastId: Option<string>, inside: Location): (r: Option<Vec>)
    ensures forall i ::
      (0 <= i < |buildings| && Some(buildings[i].id) == lastId
       && forall j :: 0 <= j < i ==> Some(buildings[j].id) != lastId) ==> r == Some(Outside(buildings[i]))
    ensures (forall i :: 0 <= i < |buildings| ==> Some(buildings[i].id) != lastId) && inside == InHouse ==>
      r == Some(Vec(WORLD_WIDTH / 2.0, WORLD_HEIGHT / 2.0))
    ensures (forall i :: 0 <= i < |buildings| ==> Some(buildings[i].id) != lastId) && inside == InCafe ==>
      && (r.None? <==> forall i :: 0 <= i < |buildings| ==> buildings[i].kind != CafeBuilding)
      && forall k: nat :: FirstOfKind(buildings, k, CafeBuilding) ==> r == Some(Outside(buildings[k]))
    ensures (forall i :: 0 <= i < |buildings| ==> Some(buildings[i].id) != lastId) && inside == InCarDealer ==>
      && (r.None? <==> forall i :: 0 <= i < |buildings| ==> buildings[i].kind != CarDealerBuilding)
      && forall k: nat :: FirstOfKind(buildings, k, CarDealerBuilding) ==> r == Some(Outside(buildings[k]))
  {
    var entered := FindIndex(buildings, (b: Building) => Some(b.id) == lastId);
    if entered != -1 then Some(Outside(buildings[entered]))
    else if inside == InCafe then
      var k := FirstIndexOfKind(buildings, CafeBuilding);
      if k != -1 then Some(Outside(buildings[k])) else None
    else if inside == InCarDealer then
      var k := FirstIndexOfKind(buildings, CarDealerBuilding);
      if k != -1 then Some(Outside(buildings[k])) else None
    else Some(Vec(WORLD_WIDTH / 2.0, WORLD_HEIGHT / 2.0))
  }

  /** Round trip: entering building `i` records its id, and leaving then puts the player 50
      below that building's door, provided no earlier building shares the id. */
  lemma EnterThenLeave(buildings: seq<Building>, i: nat)
    requires i < |buildings| && forall j :: 0 <= j < i ==> buildings[j].id != buildings[i].id
    ensures ExitSpot(buildings, Some(buildings[i].id), Interior(buildings[i])) == Some(Outside(buildings[i]))
  {
  }
}
