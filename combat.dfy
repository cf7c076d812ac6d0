/** The rules of `attack`, `damageNPC`, `damagePlayer` and `spawnLoot`: what a hit does to an
    NPC, what an NPC drops, what a kill pays, which NPCs a swing reaches, and the projectile
    a ranged attack fires. The `Game` class (engine.dfy) applies them in place. */
module Combat {
  import opened Types
  import opened Geometry
  import opened Inventory

  function NpcPos(n: Npc): Vec
  {
    Vec(n.x, n.y)
  }

  function NpcBox(n: Npc): Box
  {
    Box(n.x, n.y, n.width, n.height)
  }

  /** The player's collision box: `PLAYER_SIZE` square around its position. */
  function PlayerBox(p: Vec): Box
  {
    Box(p.x, p.y, PLAYER_SIZE, PLAYER_SIZE)
  }

  /** An NPC is dead exactly when its health is gone, and carries a catalogue-like weapon. */
  predicate NpcOk(n: Npc)
  {
    (n.state == Dead <==> n.health <= 0.0) && WeaponOk(n.weapon)
  }

  predicate PoolOk(pool: seq<Npc>)
  {
    forall i :: 0 <= i < |pool| ==> NpcOk(pool[i])
  }

  /** `damageNPC` on the NPC record: health drops by exactly the amount; a survivor turns on
      the player, a victim is dead. Nothing else about the NPC changes. */
  function DamageNpc(n: Npc, amount: real): (r: Npc)
    ensures r.health == n.health - amount
    ensures r.health > 0.0 ==> r.state == Fighting && r.aggroTargetId == Some(PLAYER_ID)
    ensures r.health <= 0.0 ==> r.state == Dead && r.aggroTargetId == n.aggroTargetId
    ensures r.(health := n.health, state := n.state, aggroTargetId := n.aggroTargetId) == n
    ensures WeaponOk(n.weapon) ==> NpcOk(r)
  {
    var h := n.health - amount;
    if h > 0.0 then n.(health := h, state := Fighting, aggroTargetId := Some(PLAYER_ID))
    else n.(health := h, state := Dead)
  }

  /** Decimal digits of a natural number, as a template literal prints it. */
  function Digits(n: nat): (s: string)
    ensures |s| > 0
    ensures forall i :: 0 <= i < |s| ==> '0' <= s[i] <= '9'
    decreases n
  {
    var d := [['0', '1', '2', '3', '4', '5', '6', '7', '8', '9'][n % 10]];
    if n < 10 then d else Digits(n / 10) + d
  }

  /** The number a string of decimal digits denotes, most significant digit first. */
  function DecimalValue(s: string): nat
    requires forall i :: 0 <= i < |s| ==> '0' <= s[i] <= '9'
    decreases |s|
  {
    if |s| == 0 then 0
    else DecimalValue(s[..|s| - 1]) * 10 + ((s[|s| - 1] as int) - ('0' as int))
  }

  /** `Digits` is the numeral of `n`: it reads back as `n`, and it has no leading zero. */
  lemma {:induction false} DigitsValue(n: nat)
    ensures DecimalValue(Digits(n)) == n
    ensures Digits(n)[0] == '0' ==> n == 0
    decreases n
  {
    var d := [['0', '1', '2', '3', '4', '5', '6', '7', '8', '9'][n % 10]];
    assert (d[0] as int) - ('0' as int) == n % 10;
    if n >= 10 {
      DigitsValue(n / 10);
      var s := Digits(n);
      assert s == Digits(n / 10) + d;
      assert s[..|s| - 1] == Digits(n / 10);
    }
  }

  /** `spawnLoot` with its two random draws (see `SpawnLootTable`). */
  function SpawnLoot(x: real, y: real, roll: LootRoll): (l: Loot)
    ensures l.x == x && l.y == y
    ensures LootKindOk(l.kind)
  {
    if roll.kind > 0.8 then
      if roll.detail > 0.5 then Loot(x, y, WeaponLoot(Pistol), "Pistool")
      else Loot(x, y, WeaponLoot(Bottle), "Fles")
    else if roll.kind > 0.6 then
      var i := (roll.detail * (|FUN_LOOT_NAMES| as real)).Floor;
      Loot(x, y, Misc(15.0), FUN_LOOT_NAMES[i])
    else if roll.kind > 0.4 then
      Loot(x, y, Health(25.0), "Kebab")
    else
      var v := (roll.detail * 40.0).Floor + 10;
      Loot(x, y, Money(v as real), "€" + Digits(v))
  }

  /** The drop table: a weapon above 0.8 (a pistol on a second draw above 0.5, else a bottle),
      a named misc item worth 15 above 0.6, a kebab healing 25 above 0.4, and otherwise a whole
      amount of money from 10 to 49, named after the amount. */
  lemma SpawnLootTable(x: real, y: real, roll: LootRoll)
    ensures var l := SpawnLoot(x, y, roll);
      && (roll.kind > 0.8 ==>
            (roll.detail > 0.5 ==> l.kind == WeaponLoot(Pistol) && l.name == "Pistool") &&
            (roll.detail <= 0.5 ==> l.kind == WeaponLoot(Bottle) && l.name == "Fles"))
      && (0.6 < roll.kind <= 0.8 ==> l.kind == Misc(15.0) && l.name in FUN_LOOT_NAMES)
      && (0.4 < roll.kind <= 0.6 ==> l.kind == Health(25.0) && l.name == "Kebab")
      && (roll.kind <= 0.4 ==>
            && l.kind.Money? && 10.0 <= l.kind.amount <= 49.0 && l.kind.amount == l.kind.amount.Floor as real
            && l.name == "€" + Digits(l.kind.amount.Floor as nat))
  {
  }

  /** What one NPC death pays: the reward of a current kill mission, else nothing. */
  function KillReward(m: Option<Mission>): (r: real)
    ensures m.Some? && m.value.kind == Kill ==> r == m.value.reward
    ensures !(m.Some? && m.value.kind == Kill) ==> r == 0.0
  {
    if m.Some? && m.value.kind == Kill then m.value.reward else 0.0
  }

  /** The mission after an NPC death: a kill mission is marked completed. */
  function AfterKill(m: Option<Mission>): (r: Option<Mission>)
    ensures m.None? ==> r.None?
    ensures m.Some? && m.value.kind == Kill ==> r == Some(m.value.(completed := true))
    ensures m.Some? && m.value.kind != Kill ==> r == m
  {
    if m.Some? && m.value.kind == Kill then Some(m.value.(completed := true)) else m
  }

  /** Kill credit looks at neither the mission's target nor its completion: every further death
      while the kill mission is current pays the full reward again. */
  lemma KillCreditRepeats(m: Option<Mission>)
    ensures AfterKill(AfterKill(m)) == AfterKill(m)
    ensures KillReward(AfterKill(m)) == KillReward(m)
    ensures m.Some? && m.value.kind == Kill ==>
      KillReward(m) + KillReward(AfterKill(m)) == 2.0 * m.value.reward
  {
  }

  /** The 30 by 30 box 20 units in front of the attacker, along its heading `aim`. */
  function HitBox(origin: Vec, aim: Vec): Box
  {
    Box(origin.x + aim.x * 20.0, origin.y + aim.y * 20.0, 30.0, 30.0)
  }

  /** A hit test the engine applies to an NPC: it must be alive and overlap the box. */
  predicate Hits(box: Box, n: Npc)
  {
    n.state != Dead && IsColliding(box, NpcBox(n))
  }

  /** A swing (or a bullet sub-step), NPC by NPC: `DamageNpc` on every live NPC the box
      overlaps. */
  function Swing(pool: seq<Npc>, box: Box, damage: real): (r: seq<Npc>)
    ensures |r| == |pool|
    ensures forall i :: 0 <= i < |pool| && !Hits(box, pool[i]) ==> r[i] == pool[i]
    ensures forall i :: 0 <= i < |pool| && Hits(box, pool[i]) ==> r[i] == DamageNpc(pool[i], damage)
  {
    seq(|pool|, i requires 0 <= i < |pool| => if Hits(box, pool[i]) then DamageNpc(pool[i], damage) else pool[i])
  }

  /** A swing leaves dead NPCs as they are, never raises health, keeps every NPC well formed,
      and hurts some NPC exactly when the box overlaps a live one. */
  lemma SwingEffect(pool: seq<Npc>, box: Box, damage: real)
    requires PoolOk(pool) && damage >= 0.0
    ensures var r := Swing(pool, box, damage);
      && PoolOk(r)
      && (forall i :: 0 <= i < |pool| && pool[i].state == Dead ==> r[i] == pool[i])
      && (forall i :: 0 <= i < |pool| ==> r[i].health <= pool[i].health)
      && (r == pool <== forall i :: 0 <= i < |pool| ==> !Hits(box, pool[i]))
  {
    var r := Swing(pool, box, damage);
    forall i | 0 <= i < |pool|
      ensures NpcOk(r[i])
    {
      assert NpcOk(pool[i]);
    }
  }

  /** The NPC at `i` dies of this hit. */
  predicate Kills(box: Box, n: Npc, damage: real)
  {
    Hits(box, n) && n.health - damage <= 0.0
  }

  /** The loot the first `k` NPCs of a swing drop, in pool order: one item at each NPC the
      swing kills, rolled with that NPC's draw. */
  function Drops(pool: seq<Npc>, box: Box, damage: real, rolls: nat -> LootRoll, k: nat): (r: seq<Loot>)
    requires k <= |pool|
    ensures |r| <= k
    ensures forall j :: 0 <= j < |r| ==> LootKindOk(r[j].kind)
  {
    if k == 0 then []
    else
      var n := pool[k - 1];
      Drops(pool, box, damage, rolls, k - 1) +
      (if Kills(box, n, damage) then [SpawnLoot(n.x, n.y, rolls(k - 1))] else [])
  }

  /** Every dropped item lies where an NPC that this swing killed stood, and a swing that kills
      nobody drops nothing. */
  lemma {:induction false} DropsAtKills(pool: seq<Npc>, box: Box, damage: real, rolls: nat -> LootRoll, k: nat)
    requires k <= |pool|
    ensures var r := Drops(pool, box, damage, rolls, k);
      && (forall j :: 0 <= j < |r| ==>
            exists i :: 0 <= i < k && Kills(box, pool[i], damage) && r[j] == SpawnLoot(pool[i].x, pool[i].y, rolls(i)))
      && ((forall i :: 0 <= i < k ==> !Kills(box, pool[i], damage)) ==> r == [])
  {
    if k > 0 {
      DropsAtKills(pool, box, damage, rolls, k - 1);
      var prev := Drops(pool, box, damage, rolls, k - 1);
      var r := Drops(pool, box, damage, rolls, k);
      forall j | 0 <= j < |r|
        ensures exists i :: 0 <= i < k && Kills(box, pool[i], damage) && r[j] == SpawnLoot(pool[i].x, pool[i].y, rolls(i))
      {
        if j < |prev| {
          assert r[j] == prev[j];
        } else {
          assert r[j] == SpawnLoot(pool[k - 1].x, pool[k - 1].y, rolls(k - 1));
        }
      }
    }
  }

  /** Projectile speed: 35 for bullets (pistol, AK-47), 15 for anything else ranged. */
  function ShotSpeed(w: Weapon): real
  {
    if w.kind == Pistol || w.kind == Ak47 then 35.0 else 15.0
  }

  /** The projectile a ranged attack fires: it starts 20 units ahead along `aim`, flies along
      `dir` (the aim with its random spread), carries the weapon's damage and range, and has
      travelled nothing. */
  function Shot(origin: Vec, aim: Vec, dir: Vec, w: Weapon, owner: string): (p: Projectile)
    ensures p.x == origin.x + aim.x * 20.0 && p.y == origin.y + aim.y * 20.0 && p.dir == dir
    ensures p.damage == w.damage && p.maxDistance == w.range && p.distanceTraveled == 0.0
    ensures p.ownerId == owner
    ensures WeaponOk(w) ==> p.distanceTraveled <= p.maxDistance
    ensures p.speed == (if w.kind == Pistol || w.kind == Ak47 then 35.0 else 15.0)
  {
    Projectile(origin.x + aim.x * 20.0, origin.y + aim.y * 20.0, dir, ShotSpeed(w), w.damage, owner, 0.0, w.range)
  }
}
