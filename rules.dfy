/** The engine's whole mutable state as one value, the invariant the engine keeps on it, and
    every operation of the game loop and of the input handlers as a function from state to
    state. The `Game` class (engine.dfy) performs the same operations in place, loop by loop
    as the engine does, and is proved to end in exactly these states. */
module Rules {
  import opened Types
  import opened Seqs
  import opened Geometry
  import Pesten
  import opened Inventory
  import opened Combat
  import opened Movement
  import opened Projectiles
  import opened Interaction

  /** `playerRef.current`: position, heading, car, health, cash and weapons. */
  datatype Hero = Hero(x: real, y: real, rotation: real, speed: real, inCarId: Option<string>,
                       health: real, cash: real, inventory: Slots, activeSlot: int, lastAttackTime: int)

  function HeroPos(h: Hero): Vec
  {
    Vec(h.x, h.y)
  }

  function HoldingsOf(h: Hero): Holdings
  {
    Holdings(h.cash, h.health, h.inventory, h.activeSlot)
  }

  function WithHoldings(h: Hero, k: Holdings): Hero
  {
    h.(cash := k.cash, health := k.health, inventory := k.inventory, activeSlot := k.activeSlot)
  }

  /** Everything the engine changes while it runs: the player, the three NPC pools (street,
      cafe, car dealer), cars, loot, projectiles, the screen, the interior and shop, the card
      game, the mission and the building last entered. */
  datatype World = World(hero: Hero, npcs: seq<Npc>, cafeNpcs: seq<Npc>, carDealerNpcs: seq<Npc>,
                         cars: seq<Car>, loot: seq<Loot>, projectiles: seq<Projectile>,
                         gameState: GameState, inside: Option<Location>, shop: Shop,
                         pesten: Pesten.PestenState, mission: Option<Mission>,
                         lastEntered: Option<string>)

  /** What stays fixed once the world is generated: the buildings and the canvas size. */
  datatype Setting = Setting(buildings: seq<Building>, canvasW: real, canvasH: real)

  datatype PoolId = StreetPool | CafePool | DealerPool

  function Pool(w: World, id: PoolId): seq<Npc>
  {
    match id
    case StreetPool => w.npcs
    case CafePool => w.cafeNpcs
    case DealerPool => w.carDealerNpcs
  }

  function WithPool(w: World, id: PoolId, s: seq<Npc>): (r: World)
    ensures Pool(r, id) == s
    ensures forall other :: other != id ==> Pool(r, other) == Pool(w, other)
    ensures r.(npcs := w.npcs, cafeNpcs := w.cafeNpcs, carDealerNpcs := w.carDealerNpcs) == w
  {
    match id
    case StreetPool => w.(npcs := s)
    case CafePool => w.(cafeNpcs := s)
    case DealerPool => w.(carDealerNpcs := s)
  }

  lemma WithPoolSame(w: World, id: PoolId)
    ensures WithPool(w, id, Pool(w, id)) == w
  {
  }

  /** The NPCs the game loop moves and its projectiles hit: the cafe's inside the cafe, the car
      seller's in any other interior (a house too), the street's outdoors. */
  function ActivePool(inside: Option<Location>): PoolId
  {
    match inside
    case None => StreetPool
    case Some(l) => if l == InCafe then CafePool else DealerPool
  }

  /** The NPCs a melee swing of the player reaches: the cafe's inside the cafe, nobody in other
      interiors, the street's outdoors. */
  function MeleePool(inside: Option<Location>): Option<PoolId>
  {
    match inside
    case None => Some(StreetPool)
    case Some(l) => if l == InCafe then Some(CafePool) else None
  }

  predicate ProjectileOk(p: Projectile)
  {
    p.damage >= 0.0 && p.distanceTraveled <= p.maxDistance
  }

  predicate CarOk(c: Car)
  {
    -TOP_SPEED <= c.speed <= TOP_SPEED
  }

  /** The invariant of the running engine: sound holdings, health gone only on the WASTED
      screen, well-formed NPCs and loot, the two cafe NPCs and the car seller present, live
      projectiles within range, cars within the speed bound, a card game either never dealt
      or holding all 52 cards, and a mission that pays a non-negative reward. */
  predicate WorldOk(w: World)
  {
    && HoldingsOk(HoldingsOf(w.hero))
    && (w.hero.health <= 0.0 ==> w.gameState == Wasted)
    && PoolOk(w.npcs) && PoolOk(w.cafeNpcs) && PoolOk(w.carDealerNpcs)
    && |w.cafeNpcs| == 2 && |w.carDealerNpcs| == 1
    && (forall i :: 0 <= i < |w.loot| ==> LootKindOk(w.loot[i].kind))
    && (forall i :: 0 <= i < |w.projectiles| ==> ProjectileOk(w.projectiles[i]))
    && (forall i :: 0 <= i < |w.cars| ==> CarOk(w.cars[i]))
    && Pesten.PestenOk(w.pesten)
    && (w.mission.Some? ==> w.mission.value.reward >= 0.0)
  }

  /** The part of the world that fighting and moving never touch: the interior, the shop, the
      card game and the building last entered. */
  predicate SameScenery(w: World, r: World)
  {
    r.inside == w.inside && r.shop == w.shop && r.pesten == w.pesten && r.lastEntered == w.lastEntered
  }

  lemma PoolOkOf(w: World, id: PoolId)
    requires WorldOk(w)
    ensures PoolOk(Pool(w, id))
  {
  }

  /** What a player's strike reads and writes: one NPC pool, the loot on the ground, the
      player's cash and the current mission. */
  datatype Fight = Fight(pool: seq<Npc>, loot: seq<Loot>, cash: real, mission: Option<Mission>)

  predicate FightOk(f: Fight)
  {
    && PoolOk(f.pool)
    && (forall i :: 0 <= i < |f.loot| ==> LootKindOk(f.loot[i].kind))
    && f.cash >= 0.0
    && (f.mission.Some? ==> f.mission.value.reward >= 0.0)
  }

  function FightOf(w: World, id: PoolId): Fight
  {
    Fight(Pool(w, id), w.loot, w.hero.cash, w.mission)
  }

  /** The world with the fight's pool, loot, cash and mission written back. */
  function Plug(w: World, id: PoolId, f: Fight): (r: World)
    ensures FightOf(r, id) == f
    ensures forall other :: other != id ==> Pool(r, other) == Pool(w, other)
  {
    WithPool(w, id, f.pool).(loot := f.loot, hero := w.hero.(cash := f.cash), mission := f.mission)
  }

  lemma PlugSame(w: World, id: PoolId)
    ensures Plug(w, id, FightOf(w, id)) == w
  {
    WithPoolSame(w, id);
  }

  lemma PlugTwice(w: World, id: PoolId, f: Fight, g: Fight)
    ensures Plug(Plug(w, id, f), id, g) == Plug(w, id, g)
  {
  }

  lemma FightOfOk(w: World, id: PoolId)
    requires WorldOk(w)
    ensures FightOk(FightOf(w, id))
  {
    PoolOkOf(w, id);
  }

  lemma PlugKeepsOk(w: World, id: PoolId, f: Fight)
    requires WorldOk(w) && FightOk(f) && |f.pool| == |Pool(w, id)|
    ensures WorldOk(Plug(w, id, f))
  {
    var r := Plug(w, id, f);
    match id
    case StreetPool =>
      assert r == w.(npcs := f.pool, loot := f.loot, hero := w.hero.(cash := f.cash), mission := f.mission);
    case CafePool =>
      assert r == w.(cafeNpcs := f.pool, loot := f.loot, hero := w.hero.(cash := f.cash), mission := f.mission);
    case DealerPool =>
      assert r == w.(carDealerNpcs := f.pool, loot := f.loot, hero := w.hero.(cash := f.cash), mission := f.mission);
  }

  /** `damageNPC(pool[i], amount)`: the hit itself and, when it kills, the loot drop (rolled
      with `roll`) and the kill-mission credit. */
  function HitNpc(f: Fight, i: nat, amount: real, roll: LootRoll): (r: Fight)
    requires i < |f.pool|
    ensures r.pool == f.pool[i := DamageNpc(f.pool[i], amount)]
    ensures f.pool[i].health - amount > 0.0 ==> r.loot == f.loot && r.cash == f.cash && r.mission == f.mission
    ensures f.pool[i].health - amount <= 0.0 ==>
      && r.loot == f.loot + [SpawnLoot(f.pool[i].x, f.pool[i].y, roll)]
      && r.cash == f.cash + KillReward(f.mission)
      && r.mission == AfterKill(f.mission)
  {
    var n := DamageNpc(f.pool[i], amount);
    if n.health <= 0.0 then
      Fight(f.pool[i := n], f.loot + [SpawnLoot(n.x, n.y, roll)], f.cash + KillReward(f.mission), AfterKill(f.mission))
    else f.(pool := f.pool[i := n])
  }

  lemma HitNpcKeepsOk(f: Fight, i: nat, amount: real, roll: LootRoll)
    requires i < |f.pool| && FightOk(f) && amount >= 0.0
    ensures FightOk(HitNpc(f, i, amount, roll))
  {
    assert NpcOk(f.pool[i]);
  }

  /** The pool once the NPCs before index `k` have met the box. */
  function SwingUpTo(pool: seq<Npc>, box: Box, damage: real, k: nat): (r: seq<Npc>)
    ensures |r| == |pool|
    ensures forall j :: 0 <= j < |pool| ==>
      r[j] == (if j < k && Hits(box, pool[j]) then DamageNpc(pool[j], damage) else pool[j])
  {
    seq(|pool|, j requires 0 <= j < |pool| =>
      if j < k && Hits(box, pool[j]) then DamageNpc(pool[j], damage) else pool[j])
  }

  /** The fight once a player's swing or bullet sub-step has gone through the first `k` NPCs
      of the pool, as the engine's `forEach` does it: `damageNPC` on each NPC the box reaches
      alive. */
  function StrikeUpTo(f: Fight, box: Box, damage: real, rolls: nat -> LootRoll, k: nat): (r: Fight)
    requires k <= |f.pool|
    ensures |r.pool| == |f.pool|
    ensures forall j :: k <= j < |f.pool| ==> r.pool[j] == f.pool[j]
    decreases k
  {
    if k == 0 then f
    else
      var before := StrikeUpTo(f, box, damage, rolls, k - 1);
      if Hits(box, f.pool[k - 1]) then HitNpc(before, k - 1, damage, rolls(k - 1)) else before
  }

  /** The closed form of a strike, part by part. The pool is the swing's. */
  lemma {:induction false} StrikePool(f: Fight, box: Box, damage: real, rolls: nat -> LootRoll, k: nat)
    requires k <= |f.pool|
    ensures StrikeUpTo(f, box, damage, rolls, k).pool == SwingUpTo(f.pool, box, damage, k)
  {
    if k > 0 {
      StrikePool(f, box, damage, rolls, k - 1);
      SwingUpToStep(f.pool, box, damage, k);
      var before := StrikeUpTo(f, box, damage, rolls, k - 1);
      assert before.pool[k - 1] == f.pool[k - 1];
    }
  }

  /** One more NPC meets the box: it takes the damage if the box reaches it alive. */
  lemma SwingUpToStep(pool: seq<Npc>, box: Box, damage: real, k: nat)
    requires 0 < k <= |pool|
    ensures var before := SwingUpTo(pool, box, damage, k - 1);
      SwingUpTo(pool, box, damage, k) ==
        if Hits(box, pool[k - 1]) then before[k - 1 := DamageNpc(pool[k - 1], damage)] else before
  {
  }

  /** The loot gains exactly the drops of the NPCs killed, in pool order. */
  lemma {:induction false} StrikeLoot(f: Fight, box: Box, damage: real, rolls: nat -> LootRoll, k: nat)
    requires k <= |f.pool|
    ensures StrikeUpTo(f, box, damage, rolls, k).loot == f.loot + Drops(f.pool, box, damage, rolls, k)
  {
    if k > 0 {
      StrikeLoot(f, box, damage, rolls, k - 1);
      var before := StrikeUpTo(f, box, damage, rolls, k - 1);
      var n := f.pool[k - 1];
      assert before.pool[k - 1] == n;
      var prev := Drops(f.pool, box, damage, rolls, k - 1);
      if Kills(box, n, damage) {
        assert Drops(f.pool, box, damage, rolls, k) == prev + [SpawnLoot(n.x, n.y, rolls(k - 1))];
        assert StrikeUpTo(f, box, damage, rolls, k).loot == before.loot + [SpawnLoot(n.x, n.y, rolls(k - 1))];
      } else {
        assert Drops(f.pool, box, damage, rolls, k) == prev;
        assert StrikeUpTo(f, box, damage, rolls, k).loot == before.loot;
      }
    }
  }

  /** Every kill pays the reward of the mission the strike started with, and a kill mission
      ends up completed once anybody died. */
  lemma {:induction false} StrikePays(f: Fight, box: Box, damage: real, rolls: nat -> LootRoll, k: nat)
    requires k <= |f.pool|
    ensures var r := StrikeUpTo(f, box, damage, rolls, k);
      var kills := |Drops(f.pool, box, damage, rolls, k)|;
      && r.cash == f.cash + Earned(f.mission, kills)
      && r.mission == (if kills > 0 then AfterKill(f.mission) else f.mission)
  {
    if k > 0 {
      StrikePays(f, box, damage, rolls, k - 1);
      var before := StrikeUpTo(f, box, damage, rolls, k - 1);
      var n := f.pool[k - 1];
      assert before.pool[k - 1] == n;
      var d := |Drops(f.pool, box, damage, rolls, k - 1)|;
      KillCreditRepeats(f.mission);
      if Kills(box, n, damage) {
        assert |Drops(f.pool, box, damage, rolls, k)| == d + 1;
        assert StrikeUpTo(f, box, damage, rolls, k) == HitNpc(before, k - 1, damage, rolls(k - 1));
        assert KillReward(before.mission) == KillReward(f.mission);
      } else {
        assert |Drops(f.pool, box, damage, rolls, k)| == d;
      }
    }
  }

  /** What `kills` deaths pay under the mission `m`: the kill reward each time. */
  function Earned(m: Option<Mission>, kills: nat): (r: real)
    ensures (m.Some? ==> m.value.reward >= 0.0) ==> r >= 0.0
    ensures kills == 0 ==> r == 0.0
  {
    if kills == 0 then 0.0 else Earned(m, kills - 1) + KillReward(m)
  }

  lemma {:induction false} EarnedIsProduct(m: Option<Mission>, kills: nat)
    ensures Earned(m, kills) == (kills as real) * KillReward(m)
  {
    if kills > 0 {
      EarnedIsProduct(m, kills - 1);
      assert ((kills - 1) as real) * KillReward(m) + KillReward(m) == (kills as real) * KillReward(m);
    }
  }

  /** A player's swing, or one sub-step of a player's bullet, against a whole pool, NPC by NPC:
      every live NPC the box overlaps takes the damage, each one it kills drops its loot in
      pool order and pays the kill reward. A box that reaches nobody changes nothing. */
  function Strike(f: Fight, box: Box, damage: real, rolls: nat -> LootRoll): (r: Fight)
    ensures r.pool == Swing(f.pool, box, damage)
    ensures var drops := Drops(f.pool, box, damage, rolls, |f.pool|);
      && r.loot == f.loot + drops
      && r.cash == f.cash + Earned(f.mission, |drops|)
      && r.mission == (if |drops| > 0 then AfterKill(f.mission) else f.mission)
    ensures (forall j :: 0 <= j < |f.pool| ==> !Hits(box, f.pool[j])) ==> r == f
  {
    StrikePool(f, box, damage, rolls, |f.pool|);
    StrikeLoot(f, box, damage, rolls, |f.pool|);
    StrikePays(f, box, damage, rolls, |f.pool|);
    DropsAtKills(f.pool, box, damage, rolls, |f.pool|);
    assert StrikeUpTo(f, box, damage, rolls, |f.pool|).pool == Swing(f.pool, box, damage);
    assert (forall j :: 0 <= j < |f.pool| ==> !Hits(box, f.pool[j])) ==> Swing(f.pool, box, damage) == f.pool;
    StrikeUpTo(f, box, damage, rolls, |f.pool|)
  }

  /** A swing that kills somebody drops at least one item. */
  lemma {:induction false} DropsAtSomeKill(pool: seq<Npc>, box: Box, damage: real, rolls: nat -> LootRoll, k: nat, j: nat)
    requires j < k <= |pool| && Kills(box, pool[j], damage)
    ensures |Drops(pool, box, damage, rolls, k)| > 0
  {
    if j < k - 1 {
      DropsAtSomeKill(pool, box, damage, rolls, k - 1, j);
    }
  }

  /** The swing as `update` runs it in the source. `update` is re-created only when the screen,
      the interior, the shop or the card game changes, so the `damageNPC` it calls reads the
      mission `seen` of the render that last re-created it. The kill credit goes by `seen`, and
      marking it completed reaches the current mission only when that is the same mission. */
  function StaleStrike(f: Fight, seen: Option<Mission>, box: Box, damage: real, rolls: nat -> LootRoll): (r: Fight)
    ensures var drops := Drops(f.pool, box, damage, rolls, |f.pool|);
      && r.pool == Swing(f.pool, box, damage) && r.loot == f.loot + drops
      && r.cash == f.cash + Earned(seen, |drops|)
    ensures seen == f.mission ==> r == Strike(f, box, damage, rolls)
  {
    var g := Strike(f.(mission := seen), box, damage, rolls);
    g.(mission := if seen == f.mission then g.mission else f.mission)
  }

  /** A kill mission started with M after `update` was last re-created pays nothing for a kill
      in the frame loop, where the intended swing pays its reward. */
  lemma StaleStrikeMissesNewMission(f: Fight, box: Box, damage: real, rolls: nat -> LootRoll, j: nat)
    requires j < |f.pool| && Kills(box, f.pool[j], damage)
    requires f.mission.Some? && f.mission.value.kind == Kill && f.mission.value.reward > 0.0
    ensures StaleStrike(f, None, box, damage, rolls).cash == f.cash
    ensures Strike(f, box, damage, rolls).cash > f.cash
  {
    var kills := |Drops(f.pool, box, damage, rolls, |f.pool|)|;
    DropsAtSomeKill(f.pool, box, damage, rolls, |f.pool|, j);
    EarnedIsProduct(None, kills);
    EarnedIsProduct(f.mission, kills);
  }

  /** A kill mission already cleared by its timer keeps paying in the frame loop, where the
      intended swing pays nothing. */
  lemma StaleStrikeKeepsPaying(f: Fight, m: Mission, box: Box, damage: real, rolls: nat -> LootRoll, j: nat)
    requires j < |f.pool| && Kills(box, f.pool[j], damage)
    requires f.mission.None? && m.kind == Kill && m.reward > 0.0
    ensures StaleStrike(f, Some(m), box, damage, rolls).cash > f.cash
    ensures Strike(f, box, damage, rolls).cash == f.cash
  {
    var kills := |Drops(f.pool, box, damage, rolls, |f.pool|)|;
    DropsAtSomeKill(f.pool, box, damage, rolls, |f.pool|, j);
    EarnedIsProduct(Some(m), kills);
    EarnedIsProduct(None, kills);
  }

  lemma StrikeKeepsOk(f: Fight, box: Box, damage: real, rolls: nat -> LootRoll)
    requires FightOk(f) && damage >= 0.0
    ensures FightOk(Strike(f, box, damage, rolls))
  {
    SwingEffect(f.pool, box, damage);
  }

  /** `StrikeKeepsOk` as an implication, for use inside function bodies. */
  lemma StrikeKeepsOkWhen(f: Fight, box: Box, damage: real, rolls: nat -> LootRoll)
    ensures FightOk(f) && damage >= 0.0 ==> FightOk(Strike(f, box, damage, rolls))
  {
    if FightOk(f) && damage >= 0.0 {
      StrikeKeepsOk(f, box, damage, rolls);
    }
  }

  /** A strike written back into the world. */
  function StrikeIn(w: World, id: PoolId, box: Box, damage: real, rolls: nat -> LootRoll): (r: World)
    ensures SameScenery(w, r) && r.gameState == w.gameState
  {
    Plug(w, id, Strike(FightOf(w, id), box, damage, rolls))
  }

  lemma StrikeInKeepsOk(w: World, id: PoolId, box: Box, damage: real, rolls: nat -> LootRoll)
    requires WorldOk(w) && damage >= 0.0
    ensures WorldOk(StrikeIn(w, id, box, damage, rolls))
  {
    FightOfOk(w, id);
    StrikeKeepsOk(FightOf(w, id), box, damage, rolls);
    PlugKeepsOk(w, id, Strike(FightOf(w, id), box, damage, rolls));
  }

  /** The player's health and the screen: what `damagePlayer` touches. */
  datatype Vitals = Vitals(health: real, gameState: GameState)

  predicate VitalsOk(v: Vitals)
  {
    v.health <= 100.0 && (v.health <= 0.0 ==> v.gameState == Wasted)
  }

  /** `damagePlayer`: health drops by the amount, and at zero or below the game is WASTED;
      otherwise the screen stays as it was. */
  function Hurt(v: Vitals, amount: real): (r: Vitals)
    ensures r.health == v.health - amount
    ensures r.health <= 0.0 ==> r.gameState == Wasted
    ensures r.health > 0.0 ==> r.gameState == v.gameState
    ensures VitalsOk(v) && amount >= 0.0 ==> VitalsOk(r) && r.health <= v.health
  {
    var health := v.health - amount;
    Vitals(health, if health <= 0.0 then Wasted else v.gameState)
  }

  function VitalsOf(w: World): Vitals
  {
    Vitals(w.hero.health, w.gameState)
  }

  function WithVitals(w: World, v: Vitals): World
  {
    w.(hero := w.hero.(health := v.health), gameState := v.gameState)
  }

  function HurtPlayer(w: World, amount: real): (r: World)
    ensures r.hero.health == w.hero.health - amount
    ensures r.hero.health <= 0.0 ==> r.gameState == Wasted
    ensures r.hero.health > 0.0 ==> r.gameState == w.gameState
    ensures r == w.(hero := w.hero.(health := r.hero.health), gameState := r.gameState)
  {
    WithVitals(w, Hurt(VitalsOf(w), amount))
  }

  lemma HurtPlayerKeepsOk(w: World, amount: real)
    requires WorldOk(w) && amount >= 0.0
    ensures WorldOk(HurtPlayer(w, amount))
  {
  }

  /** The player's attack (`attack(player, true)`). Within the weapon's cooldown nothing
      happens. A ranged weapon fires one projectile and spends one round; a melee swing hits
      the pool the player can reach: the cafe's NPCs inside the cafe, nobody in any other
      interior, the street's NPCs outdoors. */
  function PlayerAttack(w: World, now: int, aim: Vec, shotDir: Vec, rolls: nat -> LootRoll): (r: World)
    requires 0 <= w.hero.activeSlot < |w.hero.inventory|
    ensures var h := w.hero;
      var weapon := ActiveWeapon(h.inventory, h.activeSlot);
      && (now - h.lastAttackTime < weapon.cooldown ==> r == w)
      && (now - h.lastAttackTime >= weapon.cooldown && weapon.isRanged ==>
            r == w.(projectiles := w.projectiles + [Shot(HeroPos(h), aim, shotDir, weapon, PLAYER_ID)],
                    hero := h.(lastAttackTime := now, inventory := Fire(h.inventory, h.activeSlot))))
      && (now - h.lastAttackTime >= weapon.cooldown && !weapon.isRanged ==>
            var ready := w.(hero := h.(lastAttackTime := now));
            r == (match MeleePool(w.inside)
                  case None => ready
                  case Some(id) => StrikeIn(ready, id, HitBox(HeroPos(h), aim), weapon.damage, rolls)))
    ensures SameScenery(w, r) && r.gameState == w.gameState
  {
    var h := w.hero;
    var weapon := ActiveWeapon(h.inventory, h.activeSlot);
    if now - h.lastAttackTime < weapon.cooldown then w
    else
      var ready := w.(hero := h.(lastAttackTime := now));
      if weapon.isRanged then
        ready.(projectiles := w.projectiles + [Shot(HeroPos(h), aim, shotDir, weapon, PLAYER_ID)],
               hero := ready.hero.(inventory := Fire(h.inventory, h.activeSlot)))
      else
        match MeleePool(w.inside)
        case None => ready
        case Some(id) => StrikeIn(ready, id, HitBox(HeroPos(h), aim), weapon.damage, rolls)
  }

  /** What an attack leaves of the rest of the game: a ranged shot touches only the projectiles,
      the ammo and the attack time, a melee swing never fires or spends ammo, and inside a
      house or the car dealer's shop a swing reaches nobody. */
  lemma PlayerAttackEffects(w: World, now: int, aim: Vec, shotDir: Vec, rolls: nat -> LootRoll)
    requires 0 <= w.hero.activeSlot < |w.hero.inventory|
    ensures var r := PlayerAttack(w, now, aim, shotDir, rolls);
      var weapon := ActiveWeapon(w.hero.inventory, w.hero.activeSlot);
      && (weapon.isRanged ==>
            r.npcs == w.npcs && r.cafeNpcs == w.cafeNpcs && r.loot == w.loot && r.hero.cash == w.hero.cash)
      && (!weapon.isRanged ==> r.projectiles == w.projectiles && r.hero.inventory == w.hero.inventory)
      && (w.inside.Some? && w.inside != Some(InCafe) && !weapon.isRanged ==>
            r.npcs == w.npcs && r.cafeNpcs == w.cafeNpcs && r.carDealerNpcs == w.carDealerNpcs && r.loot == w.loot)
      && (w.inside == Some(InCafe) ==> r.npcs == w.npcs)
  {
  }

  lemma PlayerAttackKeepsOk(w: World, now: int, aim: Vec, shotDir: Vec, rolls: nat -> LootRoll)
    requires WorldOk(w)
    ensures WorldOk(PlayerAttack(w, now, aim, shotDir, rolls))
  {
    var h := w.hero;
    var weapon := ActiveWeapon(h.inventory, h.activeSlot);
    assert WeaponOk(weapon) by {
      StartInventoryOk();
    }
    if now - h.lastAttackTime >= weapon.cooldown {
      var ready := w.(hero := h.(lastAttackTime := now));
      assert WorldOk(ready);
      if !weapon.isRanged && MeleePool(w.inside).Some? {
        StrikeInKeepsOk(ready, MeleePool(w.inside).value, HitBox(HeroPos(h), aim), weapon.damage, rolls);
      }
    }
  }

  // ---------------------------------------------------------------------------------------
  // The NPC part of the game loop.

  /** What the NPC part of a tick reads and writes: the pool it runs, the projectiles, and the
      player's health and screen. */
  datatype Brawl = Brawl(pool: seq<Npc>, projectiles: seq<Projectile>, vitals: Vitals)

  predicate BrawlOk(b: Brawl)
  {
    PoolOk(b.pool) && (forall i :: 0 <= i < |b.projectiles| ==> ProjectileOk(b.projectiles[i])) && VitalsOk(b.vitals)
  }

  /** An NPC's attack (`attack(npc, false)`): a ranged NPC fires and never runs out; a melee
      NPC's swing hurts the player when its hit box overlaps the player's box. NPCs never hurt
      each other. */
  function NpcAttack(b: Brawl, n: Npc, aim: Vec, shotDir: Vec, player: Vec): (r: Brawl)
    ensures r.pool == b.pool
    ensures n.weapon.isRanged ==>
      r == b.(projectiles := b.projectiles + [Shot(NpcPos(n), aim, shotDir, n.weapon, n.id)])
    ensures !n.weapon.isRanged ==>
      (r.projectiles == b.projectiles &&
       r.vitals == (if IsColliding(HitBox(NpcPos(n), aim), PlayerBox(player))
                    then Hurt(b.vitals, n.weapon.damage) else b.vitals))
    ensures BrawlOk(b) && WeaponOk(n.weapon) ==> BrawlOk(r) && r.vitals.health <= b.vitals.health
  {
    if n.weapon.isRanged then b.(projectiles := b.projectiles + [Shot(NpcPos(n), aim, shotDir, n.weapon, n.id)])
    else if IsColliding(HitBox(NpcPos(n), aim), PlayerBox(player)) then b.(vitals := Hurt(b.vitals, n.weapon.damage))
    else b
  }

  /** The NPC at index `i` takes its turn: a dead one is skipped; otherwise it moves, and a
      fighting NPC that was within 300 of the player attacks on its 2% draw, facing the player. */
  function NpcStepAt(b: Brawl, player: Vec, buildings: seq<Building>, outdoors: bool, c: NpcChoice, i: nat): (r: Brawl)
    requires i < |b.pool|
    ensures r.pool == b.pool[i := NpcMove(b.pool[i], player, c, buildings, outdoors)]
    ensures !NpcAttacks(b.pool[i], player, c, outdoors) ==> r.projectiles == b.projectiles && r.vitals == b.vitals
  {
    var n := b.pool[i];
    if n.state == Dead then b
    else
      var m := NpcMove(n, player, c, buildings, outdoors);
      var moved := b.(pool := b.pool[i := m]);
      if NpcAttacks(n, player, c, outdoors) then NpcAttack(moved, m, c.facingDir, c.shotDir, player) else moved
  }

  lemma NpcStepKeepsOk(b: Brawl, player: Vec, buildings: seq<Building>, outdoors: bool, c: NpcChoice, i: nat)
    requires i < |b.pool| && BrawlOk(b)
    ensures var r := NpcStepAt(b, player, buildings, outdoors, c, i);
      BrawlOk(r) && r.vitals.health <= b.vitals.health && b.projectiles <= r.projectiles
  {
    var n := b.pool[i];
    assert NpcOk(n);
    var m := NpcMove(n, player, c, buildings, outdoors);
    assert m.(x := n.x, y := n.y, rotation := n.rotation) == n;
    assert NpcOk(m);
  }

  /** The first `k` NPCs of the pool have had their turn, in pool order. The tick keeps its
      invariant: the projectiles only grow (by the shots of ranged attackers), the player's
      health never rises, and the NPCs, the projectiles and the vitals stay well formed. */
  function TickUpTo(b: Brawl, player: Vec, buildings: seq<Building>, outdoors: bool, choices: nat -> NpcChoice, k: nat): (r: Brawl)
    requires k <= |b.pool|
    ensures |r.pool| == |b.pool|
    ensures forall j :: k <= j < |b.pool| ==> r.pool[j] == b.pool[j]
    ensures BrawlOk(b) ==> b.projectiles <= r.projectiles && BrawlOk(r) && r.vitals.health <= b.vitals.health
    decreases k
  {
    if k == 0 then b
    else
      var before := TickUpTo(b, player, buildings, outdoors, choices, k - 1);
      NpcStepKeepsTick(b, before, player, buildings, outdoors, choices(k - 1), k - 1);
      NpcStepAt(before, player, buildings, outdoors, choices(k - 1), k - 1)
  }

  /** In the tick's closed form every NPC has made exactly its `NpcMove`. */
  lemma {:induction false} TickPool(b: Brawl, player: Vec, buildings: seq<Building>, outdoors: bool, choices: nat -> NpcChoice, k: nat)
    requires k <= |b.pool|
    ensures var r := TickUpTo(b, player, buildings, outdoors, choices, k);
      forall j :: 0 <= j < k ==> r.pool[j] == NpcMove(b.pool[j], player, choices(j), buildings, outdoors)
  {
    if k > 0 {
      TickPool(b, player, buildings, outdoors, choices, k - 1);
      var before := TickUpTo(b, player, buildings, outdoors, choices, k - 1);
      TickPoolStep(b.pool, before.pool, NpcStepAt(before, player, buildings, outdoors, choices(k - 1), k - 1).pool,
        player, buildings, outdoors, choices, k);
    }
  }

  /** One step of `TickPool`: NPC `k - 1` makes its move, the earlier ones keep theirs. */
  lemma TickPoolStep(pool: seq<Npc>, before: seq<Npc>, after: seq<Npc>, player: Vec, buildings: seq<Building>, outdoors: bool, choices: nat -> NpcChoice, k: nat)
    requires 0 < k <= |pool| == |before| && before[k - 1] == pool[k - 1]
    requires forall j :: 0 <= j < k - 1 ==> before[j] == NpcMove(pool[j], player, choices(j), buildings, outdoors)
    requires after == before[k - 1 := NpcMove(before[k - 1], player, choices(k - 1), buildings, outdoors)]
    ensures forall j :: 0 <= j < k ==> after[j] == NpcMove(pool[j], player, choices(j), buildings, outdoors)
  {
  }

  /** One NPC's turn keeps the tick's invariant, measured from the brawl `b` the tick began with. */
  lemma NpcStepKeepsTick(b: Brawl, before: Brawl, player: Vec, buildings: seq<Building>, outdoors: bool, c: NpcChoice, i: nat)
    requires i < |before.pool|
    requires BrawlOk(b) ==>
      b.projectiles <= before.projectiles && BrawlOk(before) && before.vitals.health <= b.vitals.health
    ensures var r := NpcStepAt(before, player, buildings, outdoors, c, i);
      BrawlOk(b) ==> b.projectiles <= r.projectiles && BrawlOk(r) && r.vitals.health <= b.vitals.health
  {
    if BrawlOk(b) {
      NpcStepKeepsOk(before, player, buildings, outdoors, c, i);
    }
  }

  /** Indoors the NPC part of a tick changes nothing at all. */
  lemma {:induction false} TickIndoors(b: Brawl, player: Vec, buildings: seq<Building>, choices: nat -> NpcChoice, k: nat)
    requires k <= |b.pool|
    ensures TickUpTo(b, player, buildings, false, choices, k) == b
  {
    if k > 0 {
      TickIndoors(b, player, buildings, choices, k - 1);
      assert b.pool[k - 1 := b.pool[k - 1]] == b.pool;
    }
  }

  function BrawlOf(w: World): Brawl
  {
    Brawl(Pool(w, ActivePool(w.inside)), w.projectiles, VitalsOf(w))
  }

  function PlugBrawl(w: World, b: Brawl): World
  {
    WithVitals(WithPool(w, ActivePool(w.inside), b.pool).(projectiles := b.projectiles), b.vitals)
  }

  lemma BrawlOfOk(w: World)
    requires WorldOk(w)
    ensures BrawlOk(BrawlOf(w))
  {
    PoolOkOf(w, ActivePool(w.inside));
  }

  lemma PlugBrawlKeepsOk(w: World, b: Brawl)
    requires WorldOk(w) && BrawlOk(b) && |b.pool| == |Pool(w, ActivePool(w.inside))|
    ensures WorldOk(PlugBrawl(w, b))
  {
    var r := PlugBrawl(w, b);
    match ActivePool(w.inside)
    case StreetPool =>
      assert r.npcs == b.pool && r.cafeNpcs == w.cafeNpcs && r.carDealerNpcs == w.carDealerNpcs;
    case CafePool =>
      assert r.cafeNpcs == b.pool && r.npcs == w.npcs && r.carDealerNpcs == w.carDealerNpcs;
    case DealerPool =>
      assert r.carDealerNpcs == b.pool && r.npcs == w.npcs && r.cafeNpcs == w.cafeNpcs;
  }

  /** The NPC part of the game loop (`npcs.forEach`), on the pool the loop runs. */
  function Tick(w: World, st: Setting, choices: nat -> NpcChoice): (r: World)
    ensures SameScenery(w, r)
  {
    var b := BrawlOf(w);
    PlugBrawl(w, TickUpTo(b, HeroPos(w.hero), st.buildings, w.inside.None?, choices, |b.pool|))
  }

  /** After the NPC part every NPC of the pool has made its move, no other pool, no loot, no
      car, no cash and no weapon has changed, the player has not moved or healed, and indoors
      the world is exactly as it was. */
  lemma TickKeepsOk(w: World, st: Setting, choices: nat -> NpcChoice)
    requires WorldOk(w)
    ensures var r := Tick(w, st, choices);
      var id := ActivePool(w.inside);
      && WorldOk(r)
      && Pool(r, id) == PoolMoved(Pool(w, id), HeroPos(w.hero), choices, st.buildings, w.inside.None?)
      && (forall other :: other != id ==> Pool(r, other) == Pool(w, other))
      && r.loot == w.loot && r.cars == w.cars && r.inside == w.inside && r.mission == w.mission
      && HeroPos(r.hero) == HeroPos(w.hero) && r.hero.cash == w.hero.cash
      && r.hero.inventory == w.hero.inventory && r.hero.health <= w.hero.health
      && w.projectiles <= r.projectiles
      && (w.inside.Some? ==> r == w)
  {
    var b := BrawlOf(w);
    BrawlOfOk(w);
    var outdoors := w.inside.None?;
    TickPool(b, HeroPos(w.hero), st.buildings, outdoors, choices, |b.pool|);
    var t := TickUpTo(b, HeroPos(w.hero), st.buildings, outdoors, choices, |b.pool|);
    PlugBrawlKeepsOk(w, t);
    var id := ActivePool(w.inside);
    assert t.pool == PoolMoved(Pool(w, id), HeroPos(w.hero), choices, st.buildings, outdoors);
    if !outdoors {
      TickIndoors(b, HeroPos(w.hero), st.buildings, choices, |b.pool|);
      WithPoolSame(w, id);
    }
  }

  // ---------------------------------------------------------------------------------------
  // The projectile part of the game loop.

  /** What a projectile can change: the pool it flies through (with the loot and pay of its
      kills), and the player's health and screen. */
  datatype Battle = Battle(fight: Fight, vitals: Vitals)

  predicate BattleOk(b: Battle)
  {
    FightOk(b.fight) && VitalsOk(b.vitals)
  }

  /** What a projectile reads: whether it is outdoors, where the player is, the buildings. */
  datatype Arena = Arena(outdoors: bool, player: Vec, buildings: seq<Building>)

  /** One projectile in flight: the battle as it stands, the projectile, whether it has hit
      something, and how many sub-steps it has made. */
  datatype Flight = Flight(battle: Battle, shot: Projectile, hit: bool, steps: nat)

  predicate AnyHit(pool: seq<Npc>, box: Box)
  {
    exists j :: 0 <= j < |pool| && Hits(box, pool[j])
  }

  /** A shot's sub-step: the projectile advances a quarter of its speed; outdoors a building in
      its 5 by 5 square stops it; otherwise the player's shot damages every live NPC of the
      pool its 20 by 20 box overlaps (and stops if there was one), and anyone else's shot hurts
      the player and stops when its box overlaps the player. */
  function SubStepAt(b: Battle, a: Arena, rolls: nat -> LootRoll, p: Projectile): (f: Flight)
    ensures f.shot == SubStep(p) && f.steps == 1
    ensures a.outdoors && Blocked(ShotRect(SubStep(p)), a.buildings) ==> f.hit && f.battle == b
    ensures !f.hit ==> f.battle == b
    ensures p.ownerId != PLAYER_ID ==> f.battle.fight == b.fight
    ensures p.ownerId == PLAYER_ID ==> f.battle.vitals == b.vitals
    ensures |f.battle.fight.pool| == |b.fight.pool|
    ensures BattleOk(b) && p.damage >= 0.0 ==> BattleOk(f.battle) && f.battle.vitals.health <= b.vitals.health
  {
    var q := SubStep(p);
    if a.outdoors && Blocked(ShotRect(q), a.buildings) then Flight(b, q, true, 1)
    else if q.ownerId == PLAYER_ID then
      var box := ShotBox(q);
      StrikeKeepsOkWhen(b.fight, box, q.damage, rolls);
      Flight(b.(fight := Strike(b.fight, box, q.damage, rolls)), q, AnyHit(b.fight.pool, box), 1)
    else if IsColliding(ShotBox(q), PlayerBox(a.player)) then Flight(b.(vitals := Hurt(b.vitals, q.damage)), q, true, 1)
    else Flight(b, q, false, 1)
  }

  /** Up to `n` sub-steps of one projectile, stopping at the first hit. An NPC's shot leaves
      every NPC, the loot and the cash alone (NPCs never hurt each other), and the player's
      own shot never hurts the player. */
  function Fly(b: Battle, a: Arena, rolls: nat -> LootRoll, p: Projectile, n: nat): (f: Flight)
    ensures f.shot == Advanced(p, f.steps) && f.steps <= n
    ensures f.steps < n ==> f.hit
    ensures !f.hit ==> f.battle == b && f.steps == n
    ensures p.ownerId != PLAYER_ID ==> f.battle.fight == b.fight
    ensures p.ownerId == PLAYER_ID ==> f.battle.vitals == b.vitals
    ensures |f.battle.fight.pool| == |b.fight.pool|
    ensures BattleOk(b) && p.damage >= 0.0 ==> BattleOk(f.battle) && f.battle.vitals.health <= b.vitals.health
    decreases n
  {
    if n == 0 then Flight(b, p, false, 0)
    else
      var g := Fly(b, a, rolls, p, n - 1);
      if g.hit then g
      else
        var h := SubStepAt(g.battle, a, rolls, g.shot);
        Flight(h.battle, h.shot, h.hit, n)
  }

  /** A flight that has hit stays as it is however many sub-steps it is given. */
  lemma {:induction false} FlyStops(b: Battle, a: Arena, rolls: nat -> LootRoll, p: Projectile, n: nat, m: nat)
    requires n <= m && Fly(b, a, rolls, p, n).hit
    ensures Fly(b, a, rolls, p, m) == Fly(b, a, rolls, p, n)
    decreases m
  {
    if n < m {
      FlyStops(b, a, rolls, p, n, m - 1);
    }
  }

  /** The projectile loop's state: the battle and the projectile list. */
  datatype Volley = Volley(battle: Battle, shots: seq<Projectile>)

  predicate ShotsOk(ps: seq<Projectile>)
  {
    forall i :: 0 <= i < |ps| ==> ProjectileOk(ps[i])
  }

  /** Whether projectile `j` hits something this tick. */
  predicate ShotHits(v: Volley, a: Arena, rolls: nat -> LootRoll, j: nat)
    requires j < |v.shots|
  {
    Fly(v.battle, a, rolls, v.shots[j], SUB_STEPS).hit
  }

  /** Projectile `j`'s turn: it flies its four sub-steps and is removed when it hit something
      or has passed its range; otherwise it stays where it is in the list, moved on. */
  function StepShot(v: Volley, a: Arena, rolls: nat -> LootRoll, j: nat): (r: Volley)
    requires j < |v.shots|
    ensures r.shots == v.shots[..j] + Kept(v.shots[j], ShotHits(v, a, rolls, j)) + v.shots[j + 1..]
    ensures r.battle == Fly(v.battle, a, rolls, v.shots[j], SUB_STEPS).battle
  {
    var p := v.shots[j];
    var f := Fly(v.battle, a, rolls, p, SUB_STEPS);
    if f.hit || f.shot.distanceTraveled > f.shot.maxDistance then Volley(f.battle, Remove(v.shots, j))
    else Volley(f.battle, v.shots[j := f.shot])
  }

  lemma StepShotKeepsOk(v: Volley, a: Arena, rolls: nat -> LootRoll, j: nat)
    requires BattleOk(v.battle) && ShotsOk(v.shots) && j < |v.shots|
    ensures var r := StepShot(v, a, rolls, j);
      && BattleOk(r.battle) && ShotsOk(r.shots) && r.battle.vitals.health <= v.battle.vitals.health
      && |r.battle.fight.pool| == |v.battle.fight.pool|
  {
    var p := v.shots[j];
    assert ProjectileOk(p);
    var r := StepShot(v, a, rolls, j);
    var kept := Kept(p, ShotHits(v, a, rolls, j));
    assert |kept| == 1 ==> ProjectileOk(kept[0]);
    forall i | 0 <= i < |r.shots|
      ensures ProjectileOk(r.shots[i])
    {
      if i < j {
        assert r.shots[i] == v.shots[i];
      } else if i < j + |kept| {
        assert r.shots[i] == kept[0];
      } else {
        assert r.shots[i] == v.shots[i - |kept| + 1];
      }
    }
  }

  lemma StepShotKeepsOkWhen(v: Volley, a: Arena, rolls: nat -> LootRoll, j: nat)
    requires j < |v.shots|
    ensures var r := StepShot(v, a, rolls, j);
      && |r.battle.fight.pool| == |v.battle.fight.pool|
      && (BattleOk(v.battle) && ShotsOk(v.shots) ==>
            BattleOk(r.battle) && ShotsOk(r.shots) && r.battle.vitals.health <= v.battle.vitals.health)
  {
    if BattleOk(v.battle) && ShotsOk(v.shots) {
      StepShotKeepsOk(v, a, rolls, j);
    }
  }

  /** The projectile loop from the last projectile down to index `i`. */
  function ShotsFrom(v: Volley, a: Arena, rolls: nat -> LootRoll, i: nat): (r: Volley)
    requires i <= |v.shots|
    ensures i <= |r.shots| && r.shots[..i] == v.shots[..i]
    ensures |r.battle.fight.pool| == |v.battle.fight.pool|
    ensures BattleOk(v.battle) && ShotsOk(v.shots) ==>
      BattleOk(r.battle) && ShotsOk(r.shots) && r.battle.vitals.health <= v.battle.vitals.health
    decreases |v.shots| - i
  {
    if i == |v.shots| then v
    else
      var u := ShotsFrom(v, a, rolls, i + 1);
      var r := StepShot(u, a, rolls, i);
      SplicePrefix(u.shots, v.shots, i, r.shots, Kept(u.shots[i], ShotHits(u, a, rolls, i)));
      StepShotKeepsOkWhen(u, a, rolls, i);
      r
  }

  /** Splicing at `i` leaves the elements before `i` alone. */
  lemma SplicePrefix<T>(u: seq<T>, v: seq<T>, i: nat, r: seq<T>, mid: seq<T>)
    requires i < |u| && i < |v| && u[..i + 1] == v[..i + 1] && r == u[..i] + mid + u[i + 1..]
    ensures i <= |r| && r[..i] == v[..i]
  {
    assert u[..i] == u[..i + 1][..i];
    assert v[..i] == v[..i + 1][..i];
  }

  /** Which of the projectiles from index `i` on hit something, each judged in the battle the
      loop had made by the time it came to that projectile. */
  function HitsFrom(v: Volley, a: Arena, rolls: nat -> LootRoll, i: nat): (h: seq<bool>)
    requires i <= |v.shots|
    ensures |h| == |v.shots| - i
    decreases |v.shots| - i
  {
    if i == |v.shots| then []
    else [ShotHits(ShotsFrom(v, a, rolls, i + 1), a, rolls, i)] + HitsFrom(v, a, rolls, i + 1)
  }

  /** One step of `ShotsFromSurvivors`. */
  lemma SurvivorsStep(v: Volley, a: Arena, rolls: nat -> LootRoll, i: nat)
    requires i < |v.shots|
    requires ShotsFrom(v, a, rolls, i + 1).shots == v.shots[..i + 1] + Survivors(v.shots[i + 1..], HitsFrom(v, a, rolls, i + 1))
    ensures ShotsFrom(v, a, rolls, i).shots == v.shots[..i] + Survivors(v.shots[i..], HitsFrom(v, a, rolls, i))
  {
    var u := ShotsFrom(v, a, rolls, i + 1);
    var hits := HitsFrom(v, a, rolls, i);
    assert hits[1..] == HitsFrom(v, a, rolls, i + 1);
    SurvivorsSplice(v.shots, hits, u.shots, i);
  }

  /** The loop in closed form: the projectiles before `i` are untouched, and from `i` on
      exactly the survivors remain, in their original order, each moved its four sub-steps. */
  lemma {:induction false} ShotsFromSurvivors(v: Volley, a: Arena, rolls: nat -> LootRoll, i: nat)
    requires i <= |v.shots|
    ensures ShotsFrom(v, a, rolls, i).shots == v.shots[..i] + Survivors(v.shots[i..], HitsFrom(v, a, rolls, i))
    decreases |v.shots| - i
  {
    if i == |v.shots| {
      assert v.shots[..i] == v.shots;
    } else {
      ShotsFromSurvivors(v, a, rolls, i + 1);
      SurvivorsStep(v, a, rolls, i);
    }
  }

  /** An NPC can only be hurt by the player's projectiles: when no projectile is the player's,
      the loop leaves the pool, the loot, the cash and the mission alone. */
  lemma {:induction false} NpcShotsSpareNpcs(v: Volley, a: Arena, rolls: nat -> LootRoll, i: nat)
    requires i <= |v.shots|
    requires forall j :: 0 <= j < |v.shots| ==> v.shots[j].ownerId != PLAYER_ID
    ensures ShotsFrom(v, a, rolls, i).battle.fight == v.battle.fight
    decreases |v.shots| - i
  {
    if i < |v.shots| {
      NpcShotsSpareNpcs(v, a, rolls, i + 1);
      var u := ShotsFrom(v, a, rolls, i + 1);
      assert u.shots[i] == v.shots[i] by {
        assert u.shots[..i + 1][i] == v.shots[..i + 1][i];
      }
    }
  }

  function BattleOf(w: World): Battle
  {
    Battle(FightOf(w, ActivePool(w.inside)), VitalsOf(w))
  }

  function ArenaOf(w: World, st: Setting): Arena
  {
    Arena(w.inside.None?, HeroPos(w.hero), st.buildings)
  }

  /** The world with a battle written back: the pool the loop runs, the loot, the cash, the
      mission, the health and the screen. */
  function PutBattle(w: World, b: Battle): World
  {
    WithVitals(Plug(w, ActivePool(w.inside), b.fight), b.vitals)
  }

  /** The world with the projectile loop's state written back. */
  function PutVolley(w: World, v: Volley): World
  {
    PutBattle(w, v.battle).(projectiles := v.shots)
  }

  /** Writing a battle back and reading it again gives that battle, leaves what a projectile
      reads as it was, and a second write overrides the first. */
  lemma PutVolleyRead(w: World, v: Volley, st: Setting)
    ensures BattleOf(PutVolley(w, v)) == v.battle
    ensures ArenaOf(PutVolley(w, v), st) == ArenaOf(w, st)
    ensures PutVolley(w, Volley(BattleOf(w), w.projectiles)) == w
  {
    PlugSame(w, ActivePool(w.inside));
  }

  lemma PutVolleyTwice(w: World, v: Volley, b: Battle, shots: seq<Projectile>)
    ensures PutBattle(PutVolley(w, v), b) == PutVolley(w, v.(battle := b))
    ensures PutVolley(w, v).(projectiles := shots) == PutVolley(w, v.(shots := shots))
  {
  }

  /** The projectile part of the game loop on the world: every projectile, last first, in the
      pool the loop runs. */
  function Shoot(w: World, st: Setting, rolls: nat -> LootRoll): (r: World)
    ensures SameScenery(w, r)
  {
    PutVolley(w, ShotsFrom(Volley(BattleOf(w), w.projectiles), ArenaOf(w, st), rolls, 0))
  }

  /** After the projectile loop the world is well formed, no other pool, car or weapon has
      changed, the player has not moved or healed, and the interior is the same. */
  lemma ShootKeepsOk(w: World, st: Setting, rolls: nat -> LootRoll)
    requires WorldOk(w)
    ensures var r := Shoot(w, st, rolls);
      var id := ActivePool(w.inside);
      && WorldOk(r)
      && (forall other :: other != id ==> Pool(r, other) == Pool(w, other))
      && r.cars == w.cars && r.inside == w.inside && r.hero.inventory == w.hero.inventory
      && HeroPos(r.hero) == HeroPos(w.hero) && r.hero.health <= w.hero.health
  {
    var v := Volley(BattleOf(w), w.projectiles);
    FightOfOk(w, ActivePool(w.inside));
    assert ShotsOk(w.projectiles);
    var r := ShotsFrom(v, ArenaOf(w, st), rolls, 0);
    PutVolleyKeepsOk(w, r);
  }

  /** Writing back a well-formed volley keeps the world well formed and touches neither the
      other pools, the cars, the interior, the weapons nor the player's position. */
  lemma PutVolleyKeepsOk(w: World, v: Volley)
    requires WorldOk(w) && BattleOk(v.battle) && ShotsOk(v.shots)
    requires |v.battle.fight.pool| == |Pool(w, ActivePool(w.inside))|
    ensures var r := PutVolley(w, v);
      var id := ActivePool(w.inside);
      && WorldOk(r)
      && (forall other :: other != id ==> Pool(r, other) == Pool(w, other))
      && r.cars == w.cars && r.inside == w.inside && r.hero.inventory == w.hero.inventory
      && HeroPos(r.hero) == HeroPos(w.hero) && r.hero.health == v.battle.vitals.health
  {
    PlugKeepsOk(w, ActivePool(w.inside), v.battle.fight);
  }

  /** The projectiles left after the loop are exactly the survivors, in their order. */
  lemma ShootSurvivors(w: World, st: Setting, rolls: nat -> LootRoll)
    ensures Shoot(w, st, rolls).projectiles ==
      Survivors(w.projectiles, HitsFrom(Volley(BattleOf(w), w.projectiles), ArenaOf(w, st), rolls, 0))
  {
    ShotsFromSurvivors(Volley(BattleOf(w), w.projectiles), ArenaOf(w, st), rolls, 0);
    assert w.projectiles[0..] == w.projectiles;
  }
}
