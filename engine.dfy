/** The engine as it runs: the player record and the game's refs and state, updated in place.
    Every method here performs one operation of the component the way its code does it (loops
    over the pools, the projectiles and the buildings, in-place field updates, `push` and
    `splice`) and is proved to end in exactly the state the matching function of `Rules` or
    `Handlers` describes. The properties of those functions carry over to the methods. */
module Engine {
  import opened Types
  import opened Seqs
  import opened Geometry
  import Pesten
  import opened Inventory
  import opened Combat
  import opened Movement
  import opened Projectiles
  import opened Interaction
  import opened Rules
  import opened Handlers

  /** `playerRef.current`. */
  class Player {
    var x: real
    var y: real
    var rotation: real
    var speed: real
    var inCarId: Option<string>
    var health: real
    var cash: real
    var inventory: Slots
    var activeSlot: int
    var lastAttackTime: int

    function State(): Hero
      reads this
    {
      Hero(x, y, rotation, speed, inCarId, health, cash, inventory, activeSlot, lastAttackTime)
    }

    /** The player as the component creates it, placed at the start position the world
        generator picks. */
    constructor (start: Vec)
      ensures State() == Hero(start.x, start.y, 0.0, 0.0, None, 100.0, 0.0, START_INVENTORY, 0, 0)
    {
      x, y, rotation, speed, inCarId := start.x, start.y, 0.0, 0.0, None;
      health, cash, inventory, activeSlot, lastAttackTime := 100.0, 0.0, START_INVENTORY, 0, 0;
    }
  }

  /** The world a new game starts from: the generated streets, cars and NPCs, the player at the
      start position, on the menu screen, with nothing on the ground or in the air. */
  function Initial(start: Vec, npcs: seq<Npc>, cafeNpcs: seq<Npc>, carDealerNpcs: seq<Npc>, cars: seq<Car>): (w: World)
    ensures w.gameState == Menu && w.loot == [] && w.projectiles == [] && w.mission.None?
    ensures w.hero.health == 100.0 && w.hero.cash == 0.0 && w.hero.inventory == START_INVENTORY
  {
    World(Hero(start.x, start.y, 0.0, 0.0, None, 100.0, 0.0, START_INVENTORY, 0, 0),
          npcs, cafeNpcs, carDealerNpcs, cars, [], [], Menu, None, NoShop, Pesten.NO_GAME, None, None)
  }

  /** A freshly generated world satisfies the engine's invariant. */
  lemma InitialOk(start: Vec, npcs: seq<Npc>, cafeNpcs: seq<Npc>, carDealerNpcs: seq<Npc>, cars: seq<Car>)
    requires PoolOk(npcs) && PoolOk(cafeNpcs) && PoolOk(carDealerNpcs) && CarsOk(cars)
    requires |cafeNpcs| == 2 && |carDealerNpcs| == 1
    ensures WorldOk(Initial(start, npcs, cafeNpcs, carDealerNpcs, cars))
  {
    StartInventoryOk();
    assert Pesten.Cards(Pesten.NO_GAME) == multiset{};
  }

  /** The component: its refs (player, NPC pools, cars, loot, projectiles, the building last
      entered) and its React state (screen, interior, shop, card game, mission). Buildings and
      the canvas size are fixed once the world is generated. */
  class Game {
    const player: Player
    const buildings: seq<Building>
    const canvasW: real
    const canvasH: real
    var npcs: seq<Npc>
    var cafeNpcs: seq<Npc>
    var carDealerNpcs: seq<Npc>
    var cars: seq<Car>
    var loot: seq<Loot>
    var projectiles: seq<Projectile>
    var gameState: GameState
    var inside: Option<Location>
    var shop: Shop
    var pesten: Pesten.PestenState
    var mission: Option<Mission>
    var lastEntered: Option<string>

    function Snap(): World
      reads this, player
    {
      World(player.State(), npcs, cafeNpcs, carDealerNpcs, cars, loot, projectiles, gameState, inside, shop,
            pesten, mission, lastEntered)
    }

    function Scenery(): Setting
    {
      Setting(buildings, canvasW, canvasH)
    }

    predicate Valid()
      reads this, player
    {
      WorldOk(Snap())
    }

    constructor (start: Vec, buildings: seq<Building>, canvasW: real, canvasH: real,
                 npcs: seq<Npc>, cafeNpcs: seq<Npc>, carDealerNpcs: seq<Npc>, cars: seq<Car>)
      requires PoolOk(npcs) && PoolOk(cafeNpcs) && PoolOk(carDealerNpcs) && CarsOk(cars)
      requires |cafeNpcs| == 2 && |carDealerNpcs| == 1
      ensures Snap() == Initial(start, npcs, cafeNpcs, carDealerNpcs, cars) && Valid()
      ensures Scenery() == Setting(buildings, canvasW, canvasH)
    {
      player := new Player(start);
      this.buildings, this.canvasW, this.canvasH := buildings, canvasW, canvasH;
      this.npcs, this.cafeNpcs, this.carDealerNpcs, this.cars := npcs, cafeNpcs, carDealerNpcs, cars;
      loot, projectiles := [], [];
      gameState, inside, shop, pesten, mission, lastEntered := Menu, None, NoShop, Pesten.NO_GAME, None, None;
      new;
      InitialOk(start, npcs, cafeNpcs, carDealerNpcs, cars);
    }

    function PoolAt(id: PoolId): (s: seq<Npc>)
      reads this, player
      ensures s == Pool(Snap(), id)
    {
      match id
      case StreetPool => npcs
      case CafePool => cafeNpcs
      case DealerPool => carDealerNpcs
    }

    method SetPool(id: PoolId, s: seq<Npc>)
      modifies this
      ensures Snap() == WithPool(old(Snap()), id, s)
    {
      match id
      case StreetPool => npcs := s;
      case CafePool => cafeNpcs := s;
      case DealerPool => carDealerNpcs := s;
    }

    // -------------------------------------------------------------------------------------
    // Combat.

    /** `damagePlayer`. */
    method DamagePlayer(amount: real)
      modifies player, this`gameState
      ensures Snap() == HurtPlayer(old(Snap()), amount)
    {
      player.health := player.health - amount;
      if player.health <= 0.0 {
        gameState := Wasted;
      }
    }

    /** `damageNPC` on NPC `i` of a pool: the NPC record is updated, and a kill drops loot
        (rolled with `roll`) and credits a current kill mission. */
    method DamageNpc(id: PoolId, i: nat, amount: real, roll: LootRoll)
      requires i < |PoolAt(id)|
      modifies this, player
      ensures Snap() == Plug(old(Snap()), id, HitNpc(FightOf(old(Snap()), id), i, amount, roll))
    {
      ghost var w0 := Snap();
      ghost var t := HitNpc(FightOf(w0, id), i, amount, roll);
      var pool := PoolAt(id);
      var n := pool[i];
      n := n.(health := n.health - amount);
      if n.health > 0.0 {
        n := n.(state := Fighting, aggroTargetId := Some(PLAYER_ID));
      }
      if n.health <= 0.0 {
        n := n.(state := Dead);
        loot := loot + [SpawnLoot(n.x, n.y, roll)];
        if mission.Some? && mission.value.kind == Kill {
          mission := Some(mission.value.(completed := true));
          player.cash := player.cash + mission.value.reward;
        }
      }
      assert t.pool == pool[i := n];
      assert loot == t.loot && player.cash == t.cash && mission == t.mission;
      ghost var mid := Snap();
      assert mid == w0.(loot := t.loot, hero := w0.hero.(cash := t.cash), mission := t.mission);
      SetPool(id, pool[i := n]);
    }

    /** The `forEach` of a melee swing or a bullet sub-step over a pool: `damageNPC` on every
        live NPC the box overlaps. Reports whether there was one. */
    method StrikeAll(id: PoolId, box: Box, damage: real, rolls: nat -> LootRoll) returns (reached: bool)
      modifies this, player
      ensures Snap() == StrikeIn(old(Snap()), id, box, damage, rolls)
      ensures reached == AnyHit(Pool(old(Snap()), id), box)
    {
      ghost var w0 := Snap();
      ghost var f0 := FightOf(w0, id);
      PlugSame(w0, id);
      reached := false;
      var size := |PoolAt(id)|;
      var k := 0;
      ghost var f := f0;
      while k < size
        invariant 0 <= k <= size == |f0.pool|
        invariant f == StrikeUpTo(f0, box, damage, rolls, k)
        invariant Snap() == Plug(w0, id, f)
        invariant reached == HitsBefore(f0.pool, box, k)
      {
        var n := PoolAt(id)[k];
        StrikeNext(w0, id, box, damage, rolls, k);
        if n.state != Dead && IsColliding(box, NpcBox(n)) {
          DamageNpc(id, k, damage, rolls(k));
          f := HitNpc(f, k, damage, rolls(k));
          reached := true;
        }
        k := k + 1;
      }
      StrikeDone(w0, id, box, damage, rolls);
      HitsBeforeAll(f0.pool, box, size);
    }

    /** `attack(player, true)`: the cooldown gate, then a shot from a ranged weapon (with its
        ammo bookkeeping) or a swing at the pool the player can reach. */
    method Attack(now: int, aim: Vec, shotDir: Vec, rolls: nat -> LootRoll)
      requires 0 <= player.activeSlot < |player.inventory|
      modifies this, player
      ensures Snap() == PlayerAttack(old(Snap()), now, aim, shotDir, rolls)
    {
      ghost var w0 := Snap();
      var weapon := ActiveWeapon(player.inventory, player.activeSlot);
      if now - player.lastAttackTime < weapon.cooldown {
        return;
      }
      player.lastAttackTime := now;
      ghost var ready := Snap();
      assert ready == w0.(hero := w0.hero.(lastAttackTime := now));
      if weapon.isRanged {
        projectiles := projectiles + [Shot(Vec(player.x, player.y), aim, shotDir, weapon, PLAYER_ID)];
        if weapon.ammo > 0 {
          var left := weapon.ammo - 1;
          if left == 0 {
            player.inventory := player.inventory[player.activeSlot := None];
          } else {
            player.inventory := player.inventory[player.activeSlot := Some(weapon.(ammo := left))];
          }
        }
        assert player.inventory == Fire(w0.hero.inventory, w0.hero.activeSlot);
      } else {
        var target := MeleePool(inside);
        if target.Some? {
          var reached := StrikeAll(target.value, HitBox(Vec(player.x, player.y), aim), weapon.damage, rolls);
        }
      }
    }

    // -------------------------------------------------------------------------------------
    // The game loop.

    /** The building loops of the game loop (`for (const b of buildings)` with its `break`,
        and `buildings.forEach`): whether the rectangle overlaps a building. */
    method BuildingHit(r: Rect) returns (hit: bool)
      ensures hit == Blocked(r, buildings)
    {
      hit := false;
      var j := 0;
      while j < |buildings| && !hit
        invariant 0 <= j <= |buildings|
        invariant hit == exists i :: 0 <= i < j && RectIntersect(r, BuildingRect(buildings[i]))
      {
        var b := buildings[j];
        if RectIntersect(r, Rect(b.x, b.y, b.width, b.height)) {
          hit := true;
        }
        j := j + 1;
      }
    }

    /** One NPC's movement in the NPC loop: chasing the player or wandering, outdoors only. */
    method MoveNpc(n: Npc, pos: Vec, c: NpcChoice, outdoors: bool) returns (m: Npc)
      ensures m == NpcMove(n, pos, c, buildings, outdoors)
    {
      m := n;
      if n.state == Fighting && outdoors {
        m := m.(rotation := c.facing);
        if Beyond(NpcPos(n), pos, 150.0) {
          var next := Step(n, c.facingDir, 2.0);
          var col := BuildingHit(NpcRect(next));
          if !col {
            m := m.(x := next.x, y := next.y);
          }
        }
      } else if n.state == Wandering && outdoors {
        if c.redirect.Some? {
          m := m.(rotation := c.redirect.value);
        }
        var next := Step(n, c.heading, 0.5);
        var col := false;
        if Fenced(next, 0.0, WORLD_WIDTH, WORLD_HEIGHT) {
          col := true;
          m := m.(rotation := m.rotation + PI);
        }
        if !col {
          col := BuildingHit(NpcRect(next));
        }
        if !col {
          m := m.(x := next.x, y := next.y);
        } else {
          m := m.(rotation := m.rotation + PI / 2.0);
        }
      }
    }

    /** One sub-step of a projectile: it advances a quarter of its speed; outdoors a building
        in its 5 by 5 square stops it; then the player's shot strikes the pool, and anyone
        else's hurts the player its box reaches. */
    method SubStepShot(p: Projectile, rolls: nat -> LootRoll) returns (q: Projectile, hit: bool)
      modifies this, player
      ensures var f := SubStepAt(BattleOf(old(Snap())), ArenaOf(old(Snap()), Scenery()), rolls, p);
        q == f.shot && hit == f.hit && Snap() == PutBattle(old(Snap()), f.battle)
    {
      ghost var w1 := Snap();
      ghost var b1 := BattleOf(w1);
      ghost var a := ArenaOf(w1, Scenery());
      PutBattleSame(w1);
      var step := p.speed / (SUB_STEPS as real);
      q := p.(x := p.x + p.dir.x * step, y := p.y + p.dir.y * step, distanceTraveled := p.distanceTraveled + step);
      assert q == SubStep(p);
      hit := false;
      if inside.None? {
        hit := BuildingHit(ShotRect(q));
      }
      if hit {
        assert SubStepAt(b1, a, rolls, p) == Flight(b1, q, true, 1);
      } else if q.ownerId == PLAYER_ID {
        var box := ShotBox(q);
        hit := StrikeAll(ActivePool(inside), box, q.damage, rolls);
        ghost var f := Strike(b1.fight, box, q.damage, rolls);
        PutBattleFight(w1, f);
        assert SubStepAt(b1, a, rolls, p) == Flight(b1.(fight := f), q, AnyHit(b1.fight.pool, box), 1);
      } else if IsColliding(ShotBox(q), PlayerBox(Vec(player.x, player.y))) {
        DamagePlayer(q.damage);
        PutBattleVitals(w1, Hurt(b1.vitals, q.damage));
        hit := true;
        assert SubStepAt(b1, a, rolls, p) == Flight(b1.(vitals := Hurt(b1.vitals, q.damage)), q, true, 1);
      } else {
        assert SubStepAt(b1, a, rolls, p) == Flight(b1, q, false, 1);
      }
    }

    /** The sub-step loop of one projectile: at most four sub-steps, leaving at the first hit. */
    method FlyShot(p: Projectile, rolls: nat -> LootRoll) returns (q: Projectile, hit: bool)
      modifies this, player
      ensures var f := Fly(BattleOf(old(Snap())), ArenaOf(old(Snap()), Scenery()), rolls, p, SUB_STEPS);
        q == f.shot && hit == f.hit && Snap() == PutBattle(old(Snap()), f.battle)
    {
      ghost var w1 := Snap();
      ghost var b1 := BattleOf(w1);
      ghost var a := ArenaOf(w1, Scenery());
      PutBattleSame(w1);
      q, hit := p, false;
      var s := 0;
      ghost var g := Fly(b1, a, rolls, p, 0);
      while s < SUB_STEPS && !hit
        invariant 0 <= s <= SUB_STEPS
        invariant g == Fly(b1, a, rolls, p, s)
        invariant q == g.shot && hit == g.hit
        invariant Snap() == PutBattle(w1, g.battle)
      {
        PutBattleRead(w1, g.battle, Scenery());
        q, hit := SubStepShot(q, rolls);
        ghost var h := SubStepAt(g.battle, a, rolls, g.shot);
        PutBattleTwice(w1, g.battle, h.battle);
        g := Flight(h.battle, h.shot, h.hit, s + 1);
        s := s + 1;
      }
      if hit {
        FlyStops(b1, a, rolls, p, s, SUB_STEPS);
      }
    }

    /** The projectile part of `update`: from the last projectile to the first, each flies its
        sub-steps and is spliced out when it hit something or has passed its range. */
    method MoveProjectiles(rolls: nat -> LootRoll)
      modifies this, player
      ensures Snap() == Shoot(old(Snap()), Scenery(), rolls)
    {
      ghost var w0 := Snap();
      ghost var v0 := Volley(BattleOf(w0), w0.projectiles);
      ghost var a := ArenaOf(w0, Scenery());
      PutVolleyRead(w0, v0, Scenery());
      var i := |projectiles|;
      ghost var u := v0;
      while i > 0
        invariant 0 <= i <= |v0.shots|
        invariant u == ShotsFrom(v0, a, rolls, i)
        invariant Snap() == PutVolley(w0, u)
      {
        i := i - 1;
        SpliceShot(i, rolls, w0, u);
        u := StepShot(u, a, rolls, i);
      }
    }

    /** Projectile `i`'s turn of the projectile loop: it flies, then it is replaced by where it
        got to or, when it hit something or has passed its range, spliced out. */
    method SpliceShot(i: nat, rolls: nat -> LootRoll, ghost w0: World, ghost u: Volley)
      requires i < |u.shots| && Snap() == PutVolley(w0, u)
      modifies this, player
      ensures Snap() == PutVolley(w0, StepShot(u, ArenaOf(w0, Scenery()), rolls, i))
    {
      ghost var a := ArenaOf(w0, Scenery());
      PutVolleyRead(w0, u, Scenery());
      var p := projectiles[i];
      var q, hit := FlyShot(p, rolls);
      ghost var f := Fly(u.battle, a, rolls, u.shots[i], SUB_STEPS);
      PutVolleyTwice(w0, u, f.battle, u.shots);
      if hit || q.distanceTraveled > q.maxDistance {
        projectiles := Remove(projectiles, i);
      } else {
        projectiles := projectiles[i := q];
      }
      PutVolleyTwice(w0, u.(battle := f.battle), f.battle, projectiles);
    }

    /** One turn of the NPC loop: a dead NPC is skipped; any other moves, and a fighting NPC
        that was close enough attacks on its draw (`attack(npc, false)`): a ranged one fires,
        a melee one hurts the player its hit box reaches. */
    method NpcTurn(id: PoolId, k: nat, pos: Vec, c: NpcChoice, outdoors: bool)
      requires id == ActivePool(inside) && k < |PoolAt(id)|
      modifies this, player
      ensures Snap() == PlugBrawl(old(Snap()), NpcStepAt(BrawlOf(old(Snap())), pos, buildings, outdoors, c, k))
    {
      ghost var w1 := Snap();
      ghost var b1 := BrawlOf(w1);
      PlugBrawlSame(w1);
      var n := PoolAt(id)[k];
      if n.state != Dead {
        var m := MoveNpc(n, pos, c, outdoors);
        SetPool(id, PoolAt(id)[k := m]);
        PlugBrawlPool(w1, b1, b1.pool[k := m]);
        ghost var moved := b1.(pool := b1.pool[k := m]);
        if NpcAttacks(n, pos, c, outdoors) {
          if m.weapon.isRanged {
            projectiles := projectiles + [Shot(NpcPos(m), c.facingDir, c.shotDir, m.weapon, m.id)];
          } else if IsColliding(HitBox(NpcPos(m), c.facingDir), PlayerBox(pos)) {
            DamagePlayer(m.weapon.damage);
            PlugBrawlHurt(w1, moved, m.weapon.damage);
          }
        }
      }
    }

    /** The NPC part of `update`: every NPC of the pool the frame runs, in pool order. */
    method TickNpcs(choices: nat -> NpcChoice)
      modifies this, player
      ensures Snap() == Tick(old(Snap()), Scenery(), choices)
    {
      ghost var w0 := Snap();
      ghost var b0 := BrawlOf(w0);
      var id := ActivePool(inside);
      var pos := Vec(player.x, player.y);
      var outdoors := inside.None?;
      var size := |PoolAt(id)|;
      PlugBrawlSame(w0);
      var k := 0;
      ghost var t := b0;
      while k < size
        invariant 0 <= k <= size == |b0.pool|
        invariant t == TickUpTo(b0, pos, buildings, outdoors, choices, k)
        invariant Snap() == PlugBrawl(w0, t)
      {
        PlugBrawlRead(w0, t);
        NpcTurn(id, k, pos, choices(k), outdoors);
        PlugBrawlTwice(w0, t, NpcStepAt(t, pos, buildings, outdoors, choices(k), k));
        t := NpcStepAt(t, pos, buildings, outdoors, choices(k), k);
        k := k + 1;
      }
    }

    /** `cars.find(c => c.id === player.inCarId)`, as an index or -1. */
    method FindOwnCar() returns (k: int)
      ensures k == OwnCar(cars, player.inCarId)
    {
      k := -1;
      var j := 0;
      while j < |cars| && k == -1
        invariant 0 <= j <= |cars|
        invariant k == -1 ==> forall m :: 0 <= m < j ==> Some(cars[m].id) != player.inCarId
        invariant k != -1 ==> 0 <= k < j && Some(cars[k].id) == player.inCarId
                              && forall m :: 0 <= m < k ==> Some(cars[m].id) != player.inCarId
      {
        if Some(cars[j].id) == player.inCarId {
          k := j;
        }
        j := j + 1;
      }
    }

    /** The loop over the other cars: one with a different id closer than `CAR_HEIGHT / 1.5`. */
    method OtherCarNear(p: Vec, id: string) returns (near: bool)
      ensures near == NearCar(cars, p, id)
    {
      near := false;
      var j := 0;
      while j < |cars|
        invariant 0 <= j <= |cars|
        invariant near == exists i :: 0 <= i < j && cars[i].id != id && Within(p, CarPos(cars[i]), CAR_HEIGHT / 1.5)
      {
        var other := cars[j];
        j := j + 1;
        if other.id == id {
          continue;
        }
        if Within(p, Vec(other.x, other.y), CAR_HEIGHT / 1.5) {
          near := true;
          break;
        }
      }
    }

    /** One driven tick of car `k`: throttle and friction, steering, then the fence, building
        and car tests on the candidate position; the car advances or bounces. */
    method DriveCar(k: nat, keys: Keys, heading: Vec) returns (car: Car)
      requires k < |cars|
      ensures car == Drive(cars[k], keys, heading, cars, buildings)
    {
      car := cars[k];
      var speed := car.speed;
      if keys.up {
        speed := speed + 0.2;
      }
      if keys.down {
        speed := speed - 0.2;
      }
      speed := speed * 0.98;
      assert speed == Throttle(car.speed, keys.up, keys.down);
      var rotation := car.rotation;
      if speed > 0.1 || speed < -0.1 {
        var dir := if speed > 0.0 then 1.0 else -1.0;
        if keys.left {
          rotation := rotation - 0.04 * dir;
        }
        if keys.right {
          rotation := rotation + 0.04 * dir;
        }
      }
      assert rotation == Steer(car.rotation, speed, keys.left, keys.right);
      var next := Ahead(car, heading, speed);
      var collided := Fenced(next, 50.0, WORLD_WIDTH, WORLD_HEIGHT);
      if !collided {
        collided := BuildingHit(CarRect(next));
      }
      if !collided {
        collided := OtherCarNear(next, car.id);
      }
      assert collided == CarCollides(next, car.id, cars, buildings);
      if collided {
        car := car.(speed := -speed * 0.5, rotation := rotation);
      } else {
        car := car.(x := next.x, y := next.y, speed := speed, rotation := rotation);
      }
    }

    /** One walking tick: the step along `heading` at walking or running speed, refused at the
        fence (the room's inside, the world's outdoors) and, outdoors, at any building. */
    method WalkStep(keys: Keys, heading: Vec) returns (p: Vec)
      ensures p == Walk(Vec(player.x, player.y), keys, heading, inside.Some?, canvasW, canvasH, buildings)
    {
      p := Vec(player.x, player.y);
      var dx := 0;
      var dy := 0;
      var speed := if keys.shift then 7.0 else 3.5;
      if keys.up {
        dy := dy - 1;
      }
      if keys.down {
        dy := dy + 1;
      }
      if keys.left {
        dx := dx - 1;
      }
      if keys.right {
        dx := dx + 1;
      }
      if dx != 0 || dy != 0 {
        var next := Vec(player.x + heading.x * speed, player.y + heading.y * speed);
        var canMove := true;
        if inside.Some? {
          if next.x < 20.0 || next.x > canvasW - 20.0 || next.y < 20.0 || next.y > canvasH - 20.0 {
            canMove := false;
          }
        } else {
          if next.x < 20.0 || next.x > WORLD_WIDTH - 20.0 || next.y < 20.0 || next.y > WORLD_HEIGHT - 20.0 {
            canMove := false;
          }
          var blocked := BuildingHit(PlayerRect(next));
          if blocked {
            canMove := false;
          }
        }
        if canMove {
          p := next;
        }
      }
    }

    /** The player part of `update`: drive the player's car and sit on it, or walk, turn to the
        mouse and attack while the button is down. */
    method MovePlayer(input: Input, rolls: nat -> LootRoll)
      requires 0 <= player.activeSlot < |player.inventory|
      modifies this, player
      ensures Snap() == Handlers.MovePlayer(old(Snap()), Scenery(), input, rolls)
    {
      ghost var w0 := Snap();
      if player.inCarId.Some? {
        var k := FindOwnCar();
        if k != -1 {
          var car := DriveCar(k, input.keys, input.carHeading);
          cars := cars[k := car];
          player.x, player.y, player.rotation := car.x, car.y, car.rotation;
          assert Snap() == w0.(cars := w0.cars[k := car], hero := w0.hero.(x := car.x, y := car.y, rotation := car.rotation));
        }
      } else {
        var p := WalkStep(input.keys, input.walkHeading);
        player.x, player.y, player.rotation := p.x, p.y, input.aim;
        ghost var walked := Snap();
        assert walked == w0.(hero := w0.hero.(x := p.x, y := p.y, rotation := input.aim));
        if input.mouseDown {
          Attack(input.now, input.aimDir, input.shotDir, rolls);
        }
      }
    }

    /** One frame of `update`: nothing unless playing with no shop and no card game open; then
        the player, the projectiles and the NPCs, in that order. */
    method Update(input: Input, rolls: nat -> LootRoll, choices: nat -> NpcChoice)
      requires Valid()
      modifies this, player
      ensures Snap() == Handlers.Update(old(Snap()), Scenery(), input, rolls, choices)
      ensures Valid()
    {
      ghost var w0 := Snap();
      UpdateKeepsOk(w0, Scenery(), input, rolls, choices);
      if gameState != Playing || shop != NoShop || pesten.active {
        return;
      }
      MovePlayer(input, rolls);
      MoveProjectiles(rolls);
      TickNpcs(choices);
    }

    /** The door loop of `handleInteraction`: the first building whose door is within 40. */
    method FindDoor(pos: Vec) returns (k: int)
      ensures -1 <= k < |buildings|
      ensures k != -1 ==> Within(pos, Door(buildings[k]), 40.0)
                          && forall j :: 0 <= j < k ==> !Within(pos, Door(buildings[j]), 40.0)
      ensures k == -1 ==> forall j :: 0 <= j < |buildings| ==> !Within(pos, Door(buildings[j]), 40.0)
    {
      var j := 0;
      while j < |buildings|
        invariant 0 <= j <= |buildings|
        invariant forall m :: 0 <= m < j ==> !Within(pos, Door(buildings[m]), 40.0)
      {
        var b := buildings[j];
        if Within(pos, Vec(b.x + b.doorOffset.x, b.y + b.doorOffset.y), 40.0) {
          return j;
        }
        j := j + 1;
      }
      return -1;
    }

    /** The decisions of `handleInteraction`, in its order: the card game, the interior (exit
        zone, barman, card player, seller), the doors, the dealer, the loot, the cars. */
    method ChooseAction() returns (a: Action)
      requires |cafeNpcs| >= 2 && |carDealerNpcs| >= 1
      ensures a == Dispatch(SceneOf(Snap(), Scenery()))
    {
      if pesten.active {
        return Busy;
      }
      if inside.Some? {
        a := ChooseIndoors();
      } else {
        a := ChooseOutdoors();
      }
    }

    /** The interior half of `ChooseAction`: the exit zone, then the barman and the card
        player of the café, then the seller of the car dealer. */
    method ChooseIndoors() returns (a: Action)
      requires |cafeNpcs| >= 2 && |carDealerNpcs| >= 1
      requires !pesten.active && inside.Some?
      ensures a == Dispatch(SceneOf(Snap(), Scenery()))
    {
      var pos := Vec(player.x, player.y);
      if player.y > canvasH - 60.0 {
        return LeaveInterior;
      }
      if inside == Some(InCafe) {
        if Within(pos, NpcPos(cafeNpcs[0]), 60.0) {
          return OpenBar;
        }
        if Within(pos, NpcPos(cafeNpcs[1]), 60.0) {
          return StartCards;
        }
      }
      if inside == Some(InCarDealer) && Within(pos, NpcPos(carDealerNpcs[0]), 60.0) {
        return OpenCarShop;
      }
      return StayInside;
    }

    /** The outdoor half of `ChooseAction`: the doors, the dealer, the loot, then the cars. */
    method ChooseOutdoors() returns (a: Action)
      requires |cafeNpcs| >= 2 && |carDealerNpcs| >= 1
      requires !pesten.active && inside.None?
      ensures a == Dispatch(SceneOf(Snap(), Scenery()))
    {
      ghost var s := SceneOf(Snap(), Scenery());
      var pos := Vec(player.x, player.y);
      var door := FindDoor(pos);
      if door != -1 {
        assert !NoDoor(s) && AtDoor(s, s.buildings[door]);
        return EnterBuilding(door);
      }
      assert NoDoor(s);
      if Within(pos, DEALER_POS, 50.0) {
        return OpenWeaponShop;
      }
      a := ChooseNearby();
    }

    /** The last checks outdoors, once no door and not the dealer is in reach: the loot, then
        the player's own car or a car to get into. */
    method ChooseNearby() returns (a: Action)
      requires |cafeNpcs| >= 2 && |carDealerNpcs| >= 1
      requires !pesten.active && inside.None?
      requires NoDoor(SceneOf(Snap(), Scenery())) && !Within(Vec(player.x, player.y), DEALER_POS, 50.0)
      ensures a == Dispatch(SceneOf(Snap(), Scenery()))
    {
      ghost var s := SceneOf(Snap(), Scenery());
      var pos := Vec(player.x, player.y);
      var l := FindIndex(loot, (x: Loot) => Within(pos, LootPos(x), 30.0));
      if l != -1 {
        assert !NoLoot(s) && AtLoot(s, s.loot[l]);
        return PickUp(l);
      }
      assert NoLoot(s);
      if player.inCarId.Some? {
        var k := FindOwnCar();
        if k != -1 {
          return ExitCar(k);
        }
        return NoAction;
      }
      var c := FindIndex(cars, (x: Car) => Within(pos, CarPos(x), 60.0));
      if c != -1 {
        assert AtCar(s, s.cars[c]);
        return EnterCar(c);
      }
      return NoAction;
    }

    /** A loot pickup: the item leaves the ground (`splice`) and money, health, a weapon or the
        misc sale lands in the player's holdings. */
    method PickUpLoot(l: nat)
      requires l < |loot| && 0 <= player.activeSlot < |player.inventory|
      modifies this`loot, player
      ensures loot == Remove(old(loot), l)
      ensures player.State() == WithHoldings(old(player.State()), Pickup(HoldingsOf(old(player.State())), old(loot)[l].kind))
    {
      var item := loot[l];
      loot := loot[..l] + loot[l + 1..];
      match item.kind
      case Money(v) =>
        player.cash := player.cash + v;
      case Health(v) =>
        player.health := Heal(player.health, v);
      case WeaponLoot(tag) =>
        var free := FreeSlot(player.inventory);
        var w := if tag == Pistol then PISTOL else BOTTLE;
        if free != -1 {
          player.inventory := player.inventory[free := Some(w)];
        } else {
          player.inventory := player.inventory[player.activeSlot := Some(w)];
        }
      case Misc(_) =>
        player.cash := player.cash + 5.0;
    }

    /** The effect of one chosen action, in place. */
    method Carry(a: Action, shuffled: seq<Pesten.Card>)
      requires ActionOk(Snap(), Scenery(), a) && Pesten.IsShuffle(shuffled)
      requires 0 <= player.activeSlot < |player.inventory|
      modifies this, player
      ensures Snap() == Perform(old(Snap()), Scenery(), shuffled, a)
    {
      if a.Busy? || a.StayInside? || a.LeaveInterior? || a.OpenBar? || a.OpenCarShop? {
        CarryIndoors(a, shuffled);
      } else {
        CarryOutdoors(a, shuffled);
      }
    }

    /** The actions inside apart from the card game: leaving, the bar, the car shop. */
    method CarryIndoors(a: Action, shuffled: seq<Pesten.Card>)
      requires ActionOk(Snap(), Scenery(), a) && Pesten.IsShuffle(shuffled)
      requires a.Busy? || a.StayInside? || a.LeaveInterior? || a.OpenBar? || a.OpenCarShop?
      requires 0 <= player.activeSlot < |player.inventory|
      modifies this, player
      ensures Snap() == Perform(old(Snap()), Scenery(), shuffled, a)
    {
      match a
      case Busy =>
      case StayInside =>
      case LeaveInterior =>
        Leave(shuffled);
      case OpenBar =>
        shop := BarShop;
      case OpenCarShop =>
        shop := CarShop;
    }

    /** The card game, and the actions outdoors: a door, the dealer, loot, a car, or nothing. */
    method CarryOutdoors(a: Action, shuffled: seq<Pesten.Card>)
      requires ActionOk(Snap(), Scenery(), a) && Pesten.IsShuffle(shuffled)
      requires a.StartCards? || a.EnterBuilding? || a.OpenWeaponShop? || a.PickUp? || a.ExitCar? || a.EnterCar? || a.NoAction?
      requires 0 <= player.activeSlot < |player.inventory|
      modifies this, player
      ensures Snap() == Perform(old(Snap()), Scenery(), shuffled, a)
    {
      match a
      case NoAction =>
      case StartCards =>
        ghost var w0 := Snap();
        Deal(shuffled);
        PerformDeal(w0, Scenery(), shuffled, Pesten.StartPesten(shuffled));
      case EnterBuilding(i) =>
        Enter(i, shuffled);
      case OpenWeaponShop =>
        shop := WeaponShop;
      case PickUp(l) =>
        ghost var w0 := Snap();
        PickUpLoot(l);
        assert Snap() == w0.(loot := Remove(w0.loot, l), hero := WithHoldings(w0.hero, Pickup(HoldingsOf(w0.hero), w0.loot[l].kind)));
      case ExitCar(c) =>
        LeaveCar(c, shuffled);
      case EnterCar(c) =>
        TakeCar(c, shuffled);
    }

    /** `startPesten`: the card game opens with the shuffled deck dealt. */
    method Deal(shuffled: seq<Pesten.Card>)
      requires Pesten.IsShuffle(shuffled)
      modifies this`pesten
      ensures Snap() == old(Snap()).(pesten := Pesten.StartPesten(shuffled))
    {
      pesten := Pesten.StartPesten(shuffled);
    }

    /** Out of the interior, below the door of the building entered (or a fallback spot). */
    method Leave(shuffled: seq<Pesten.Card>)
      requires inside.Some? && Pesten.IsShuffle(shuffled) && 0 <= player.activeSlot < |player.inventory|
      modifies this, player
      ensures Snap() == Perform(old(Snap()), Scenery(), shuffled, LeaveInterior)
    {
      ghost var w0 := Snap();
      var spot := ExitSpot(buildings, lastEntered, inside.value);
      inside := None;
      if spot.Some? {
        player.x, player.y := spot.value.x, spot.value.y;
        assert Snap() == w0.(inside := None, hero := w0.hero.(x := spot.value.x, y := spot.value.y));
      }
    }

    /** Through the door of building `i`: its interior, recorded as entered, the player at the
        room's spawn point. */
    method Enter(i: nat, shuffled: seq<Pesten.Card>)
      requires i < |buildings| && Pesten.IsShuffle(shuffled) && 0 <= player.activeSlot < |player.inventory|
      modifies this, player
      ensures Snap() == Perform(old(Snap()), Scenery(), shuffled, EnterBuilding(i))
    {
      ghost var w0 := Snap();
      var b := buildings[i];
      inside := Some(Interior(b));
      lastEntered := Some(b.id);
      player.x, player.y := canvasW / 2.0, canvasH - 100.0;
      assert Snap() == w0.(inside := Some(Interior(b)), lastEntered := Some(b.id),
                           hero := w0.hero.(x := canvasW / 2.0, y := canvasH - 100.0));
    }

    /** Out of car `c`: it loses its driver, the player stands 40 to its right, at rest. */
    method LeaveCar(c: nat, shuffled: seq<Pesten.Card>)
      requires c < |cars| && Pesten.IsShuffle(shuffled) && 0 <= player.activeSlot < |player.inventory|
      modifies this`cars, player
      ensures Snap() == Perform(old(Snap()), Scenery(), shuffled, ExitCar(c))
    {
      ghost var w0 := Snap();
      var car := cars[c];
      cars := cars[c := car.(driverId := None)];
      player.inCarId, player.x, player.y, player.speed := None, car.x + 40.0, car.y, 0.0;
      assert Snap() == w0.(cars := w0.cars[c := car.(driverId := None)],
                           hero := w0.hero.(inCarId := None, x := car.x + 40.0, y := car.y, speed := 0.0));
    }

    /** Into car `c`: the player drives it and sits where it is, facing its way. */
    method TakeCar(c: nat, shuffled: seq<Pesten.Card>)
      requires c < |cars| && Pesten.IsShuffle(shuffled) && 0 <= player.activeSlot < |player.inventory|
      modifies this`cars, player
      ensures Snap() == Perform(old(Snap()), Scenery(), shuffled, EnterCar(c))
    {
      ghost var w0 := Snap();
      var car := cars[c];
      cars := cars[c := car.(driverId := Some(PLAYER_ID))];
      player.inCarId, player.x, player.y, player.rotation := Some(car.id), car.x, car.y, car.rotation;
      assert Snap() == w0.(cars := w0.cars[c := car.(driverId := Some(PLAYER_ID))],
                           hero := w0.hero.(inCarId := Some(car.id), x := car.x, y := car.y, rotation := car.rotation));
    }

    /** `handleInteraction` (the E key): choose the action, then carry it out. */
    method HandleInteraction(shuffled: seq<Pesten.Card>)
      requires Valid() && Pesten.IsShuffle(shuffled)
      modifies this, player
      ensures Snap() == Interact(old(Snap()), Scenery(), shuffled)
      ensures Valid()
    {
      InteractKeepsOk(Snap(), Scenery(), shuffled);
      var a := ChooseAction();
      Carry(a, shuffled);
    }

    /** The ammo purchase: every ranged weapon in the inventory gains the rounds (`forEach`). */
    method AddAmmo(rounds: int)
      modifies player
      ensures player.State() == old(player.State()).(inventory := AmmoAdded(old(player.inventory), rounds))
    {
      ghost var inv0 := player.inventory;
      var j := 0;
      while j < |player.inventory|
        invariant 0 <= j <= |player.inventory| == |inv0|
        invariant forall m :: 0 <= m < j ==> player.inventory[m] == AmmoTo(inv0[m], rounds)
        invariant forall m :: j <= m < |inv0| ==> player.inventory[m] == inv0[m]
        invariant player.State() == old(player.State()).(inventory := player.inventory)
      {
        var o := player.inventory[j];
        if o.Some? && o.value.isRanged {
          player.inventory := player.inventory[j := Some(o.value.(ammo := o.value.ammo + rounds))];
        }
        j := j + 1;
      }
      assert player.inventory == AmmoAdded(inv0, rounds);
    }

    /** `buyItem` on an item of the open shop, at time `now`: pay, then the weapon goes to a
        slot, the ammo to every ranged weapon, the heal to health, or the car outside the dealer. */
    method BuyItem(item: ShopItem, now: nat)
      requires Valid() && item in Catalogue(shop)
      modifies this`cars, player
      ensures Snap() == Purchase(old(Snap()), item, now)
      ensures Valid()
    {
      ghost var w0 := Snap();
      PurchaseKeepsOk(w0, item, now);
      ghost var bought := w0.(hero := WithHoldings(w0.hero, Buy(HoldingsOf(w0.hero), item)));
      if player.cash >= item.price {
        Deliver(item, now);
        assert Snap() == (if item.kind.CarItem?
                          then bought.(cars := w0.cars + [BoughtCar(now, item.kind.brand, item.kind.isHybrid)])
                          else bought);
      } else {
        assert Snap() == w0;
      }
    }

    /** What an affordable purchase does: pay, then the weapon goes to a slot, the ammo to
        every ranged weapon, the heal to health, or the car outside the dealer. */
    method Deliver(item: ShopItem, now: nat)
      requires player.cash >= item.price && 0 <= player.activeSlot < |player.inventory|
      modifies this`cars, player
      ensures player.State() == WithHoldings(old(player.State()), Buy(HoldingsOf(old(player.State())), item))
      ensures cars == if item.kind.CarItem? then old(cars) + [BoughtCar(now, item.kind.brand, item.kind.isHybrid)]
                      else old(cars)
    {
      ghost var h0 := player.State();
      player.cash := player.cash - item.price;
      match item.kind
      case WeaponItem(w) =>
        var free := FreeSlot(player.inventory);
        if free != -1 {
          player.inventory := player.inventory[free := Some(w)];
        } else {
          player.inventory := player.inventory[player.activeSlot := Some(w)];
        }
        assert player.inventory == PlaceWeapon(h0.inventory, h0.activeSlot, w);
      case AmmoItem(n) =>
        AddAmmo(n);
      case HealItem(x) =>
        player.health := Heal(player.health, x);
      case CarItem(brand, _, hybrid) =>
        cars := cars + [BoughtCar(now, brand, hybrid)];
    }

    /** The wheel handler: while playing with no card game open, the next or previous slot,
        wrapping past 2 to 0 and below 0 to 2. */
    method WheelTurn(deltaY: real)
      requires Valid()
      modifies player
      ensures Snap() == Wheel(old(Snap()), deltaY)
      ensures Valid()
    {
      if gameState != Playing || pesten.active {
        return;
      }
      WheelBackAndForth(Snap(), deltaY);
      var dir := if deltaY > 0.0 then 1 else if deltaY < 0.0 then -1 else 0;
      var next := player.activeSlot + dir;
      if next > 2 {
        next := 0;
      }
      if next < 0 {
        next := 2;
      }
      player.activeSlot := next;
    }

    /** The revive loop of `resetGame` (`forEach` over the street NPCs). */
    method ReviveAll()
      modifies this`npcs
      ensures |npcs| == |old(npcs)| && forall m :: 0 <= m < |npcs| ==> npcs[m] == Revived(old(npcs)[m])
    {
      var j := 0;
      while j < |npcs|
        invariant 0 <= j <= |npcs| == |old(npcs)|
        invariant forall m :: 0 <= m < j ==> npcs[m] == Revived(old(npcs)[m])
        invariant forall m :: j <= m < |npcs| ==> npcs[m] == old(npcs)[m]
      {
        npcs := npcs[j := npcs[j].(state := Wandering, aggroTargetId := None, health := 50.0)];
        j := j + 1;
      }
    }

    /** `resetGame`: the player back at the cafe, healed and disarmed; every street NPC
        revived; outdoors, no shop or card game, playing. */
    method ResetGame()
      requires Valid()
      modifies this, player
      ensures Snap() == Reset(old(Snap()), Scenery())
      ensures Valid()
    {
      ghost var w0 := Snap();
      ghost var r := Reset(w0, Scenery());
      ResetKeepsOk(w0, Scenery());
      ResetShape(w0, Scenery());
      var spot := StartSpot(buildings);
      RespawnPlayer(spot);
      lastEntered := None;
      ReviveAll();
      assert npcs == r.npcs;
      ghost var s2 := Snap();
      assert s2 == w0.(hero := r.hero, lastEntered := None, npcs := r.npcs);
      ReopenWorld();
    }

    /** The player part of `resetGame`: full health, at `spot`, on foot, with fists only. */
    method RespawnPlayer(spot: Vec)
      modifies player
      ensures player.State() == old(player.State()).(health := 100.0, x := spot.x, y := spot.y, inCarId := None,
                                                     inventory := START_INVENTORY, activeSlot := 0)
    {
      player.health := 100.0;
      player.x, player.y := spot.x, spot.y;
      player.inCarId := None;
      player.inventory := START_INVENTORY;
      player.activeSlot := 0;
    }

    /** The screen part of `resetGame`: outdoors, no shop, the card game closed, playing. */
    method ReopenWorld()
      modifies this`inside, this`shop, this`pesten, this`gameState
      ensures Snap() == old(Snap()).(inside := None, shop := NoShop, pesten := old(pesten).(active := false),
                                     gameState := Playing)
    {
      inside := None;
      shop := NoShop;
      pesten := pesten.(active := false);
      gameState := Playing;
    }

    /** A click on hand card `i` (`playCard`); a play that empties the hand wins 20. */
    method ClickCard(i: nat)
      requires Valid() && Pesten.CanPlay(pesten, i)
      modifies this`pesten, player
      ensures Snap() == Handlers.ClickCard(old(Snap()), i)
      ensures Valid()
      ensures player.cash >= old(player.cash)
    {
      ClickCardKeepsOk(Snap(), i);
      var wins := Pesten.PlayerWins(pesten, i);
      pesten := Pesten.PlayCard(pesten, i);
      if wins {
        player.cash := player.cash + 20.0;
      }
    }

    /** The PAK button: `drawCard('player')`. */
    method ClickDraw()
      requires Valid()
      modifies this`pesten
      ensures Snap() == Handlers.ClickDraw(old(Snap()))
      ensures Valid()
    {
      ClickDrawKeepsOk(Snap());
      pesten := Pesten.DrawCard(pesten, Pesten.PlayerSide);
    }

    /** The timer that runs `npcTurnPesten`. */
    method NpcCardTurn()
      requires Valid() && (pesten.active ==> |pesten.discardPile| > 0)
      modifies this`pesten
      ensures Snap() == NpcTurnDue(old(Snap()))
      ensures Valid()
    {
      NpcTurnDueKeepsOk(Snap());
      pesten := Pesten.NpcTurn(pesten);
    }

    /** The STOP button, and the timer after a win: the card game closes. */
    method StopCards()
      requires Valid()
      modifies this`pesten
      ensures Snap() == CloseCards(old(Snap()))
      ensures Valid()
    {
      TimersKeepOk(Snap());
      pesten := pesten.(active := false);
    }

    /** The timer a kill sets: the mission is cleared. */
    method MissionTimeout()
      requires Valid()
      modifies this`mission
      ensures Snap() == ClearMission(old(Snap()))
      ensures Valid()
    {
      TimersKeepOk(Snap());
      mission := None;
    }

    /** The E key. */
    method KeyE(shuffled: seq<Pesten.Card>)
      requires Valid() && Pesten.IsShuffle(shuffled)
      modifies this, player
      ensures Snap() == PressE(old(Snap()), Scenery(), shuffled)
      ensures Valid()
    {
      KeysKeepOk(Snap(), Scenery(), shuffled);
      if pesten.active {
        return;
      }
      if gameState == Playing && shop == NoShop {
        HandleInteraction(shuffled);
      } else if shop != NoShop {
        shop := NoShop;
      }
    }

    /** The M key, with `m` the mission the service answers with. */
    method KeyM(m: Mission)
      requires Valid()
      modifies this`mission
      ensures Snap() == PressM(old(Snap()), m)
      ensures m.reward >= 0.0 ==> Valid()
    {
      if m.reward >= 0.0 {
        MenuKeysKeepOk(Snap(), m);
      }
      if pesten.active || gameState != Playing || mission.Some? || inside.Some? {
        return;
      }
      mission := Some(m);
    }

    /** The space bar. */
    method KeySpace()
      requires Valid()
      modifies this, player
      ensures Snap() == PressSpace(old(Snap()), Scenery())
      ensures Valid()
    {
      if pesten.active || gameState != Wasted {
        return;
      }
      ResetGame();
    }

    /** The START button of the menu. */
    method Start()
      requires Valid()
      modifies this`gameState
      ensures Snap() == PressStart(old(Snap()))
      ensures Valid()
    {
      StartKeepsOk(Snap());
      if gameState == Menu {
        gameState := Playing;
      }
    }
  }

  lemma ResetShape(w: World, st: Setting)
    ensures var r := Reset(w, st);
      r == w.(hero := r.hero, npcs := r.npcs, lastEntered := None, inside := None, shop := NoShop,
              pesten := w.pesten.(active := false), gameState := Playing)
  {
  }

  lemma PerformDeal(w: World, st: Setting, shuffled: seq<Pesten.Card>, dealt: Pesten.PestenState)
    requires Pesten.IsShuffle(shuffled) && 0 <= w.hero.activeSlot < |w.hero.inventory|
    requires dealt == Pesten.StartPesten(shuffled)
    ensures Perform(w, st, shuffled, StartCards) == w.(pesten := dealt)
  {
    var r := Perform(w, st, shuffled, StartCards);
    assert r.pesten == dealt;
    assert r == w.(pesten := r.pesten);
  }

  lemma PutBattleSame(w: World)
    ensures PutBattle(w, BattleOf(w)) == w
  {
    PlugSame(w, ActivePool(w.inside));
  }

  lemma PutBattleRead(w: World, b: Battle, st: Setting)
    ensures BattleOf(PutBattle(w, b)) == b && ArenaOf(PutBattle(w, b), st) == ArenaOf(w, st)
    ensures PutBattle(w, b).inside == w.inside && PutBattle(w, b).projectiles == w.projectiles
  {
  }

  lemma PutBattleTwice(w: World, b: Battle, b2: Battle)
    ensures PutBattle(PutBattle(w, b), b2) == PutBattle(w, b2)
  {
  }

  lemma PutBattleFight(w: World, f: Fight)
    ensures PutBattle(w, BattleOf(w).(fight := f)) == Plug(w, ActivePool(w.inside), f)
  {
  }

  lemma PutBattleVitals(w: World, v: Vitals)
    ensures PutBattle(w, BattleOf(w).(vitals := v)) == WithVitals(w, v)
  {
    PlugSame(w, ActivePool(w.inside));
  }

  lemma PlugBrawlSame(w: World)
    ensures PlugBrawl(w, BrawlOf(w)) == w
  {
    WithPoolSame(w, ActivePool(w.inside));
  }

  lemma PlugBrawlRead(w: World, b: Brawl)
    ensures Pool(PlugBrawl(w, b), ActivePool(w.inside)) == b.pool
    ensures PlugBrawl(w, b).inside == w.inside && HeroPos(PlugBrawl(w, b).hero) == HeroPos(w.hero)
    ensures PlugBrawl(w, b).projectiles == b.projectiles && VitalsOf(PlugBrawl(w, b)) == b.vitals
  {
  }

  lemma PlugBrawlTwice(w: World, b: Brawl, b2: Brawl)
    ensures BrawlOf(PlugBrawl(w, b)) == b
    ensures PlugBrawl(PlugBrawl(w, b), b2) == PlugBrawl(w, b2)
  {
  }

  lemma PlugBrawlPool(w: World, b: Brawl, s: seq<Npc>)
    ensures WithPool(PlugBrawl(w, b), ActivePool(w.inside), s) == PlugBrawl(w, b.(pool := s))
  {
  }

  lemma PlugBrawlHurt(w: World, b: Brawl, amount: real)
    ensures HurtPlayer(PlugBrawl(w, b), amount) == PlugBrawl(w, b.(vitals := Hurt(b.vitals, amount)))
  {
  }

  /** Whether one of the first `k` NPCs of the pool is hit, as the loop finds out. */
  predicate HitsBefore(pool: seq<Npc>, box: Box, k: nat)
    requires k <= |pool|
  {
    k > 0 && (HitsBefore(pool, box, k - 1) || Hits(box, pool[k - 1]))
  }

  lemma {:induction false} HitsBeforeAll(pool: seq<Npc>, box: Box, k: nat)
    requires k <= |pool|
    ensures HitsBefore(pool, box, k) <==> exists j :: 0 <= j < k && Hits(box, pool[j])
  {
    if k > 0 {
      HitsBeforeAll(pool, box, k - 1);
    }
  }

  lemma StrikeDone(w: World, id: PoolId, box: Box, damage: real, rolls: nat -> LootRoll)
    ensures var f0 := FightOf(w, id);
      Plug(w, id, StrikeUpTo(f0, box, damage, rolls, |f0.pool|)) == StrikeIn(w, id, box, damage, rolls)
  {
  }

  /** One turn of the strike loop: the NPC at `k` is the original one, and hitting it in the
      world that holds the first `k` turns gives the world that holds `k + 1`. */
  lemma StrikeNext(w: World, id: PoolId, box: Box, damage: real, rolls: nat -> LootRoll, k: nat)
    requires k < |Pool(w, id)|
    ensures var f0 := FightOf(w, id);
      var before := Plug(w, id, StrikeUpTo(f0, box, damage, rolls, k));
      && k < |Pool(before, id)| && Pool(before, id)[k] == f0.pool[k]
      && (Hits(box, f0.pool[k]) ==>
            Plug(before, id, HitNpc(FightOf(before, id), k, damage, rolls(k))) ==
            Plug(w, id, StrikeUpTo(f0, box, damage, rolls, k + 1)))
      && (!Hits(box, f0.pool[k]) ==> before == Plug(w, id, StrikeUpTo(f0, box, damage, rolls, k + 1)))
  {
    var f0 := FightOf(w, id);
    var s := StrikeUpTo(f0, box, damage, rolls, k);
    PlugTwice(w, id, s, HitNpc(s, k, damage, rolls(k)));
  }
}
