/** The movement rules of the game loop: car throttle, friction and steering, fences and
    building collision, walking, and the per-tick behaviour of fighting and wandering NPCs.

    Headings are given as the unit vector (cos, sin) of the angle the engine would pass to
    `Math.cos`/`Math.sin`; the caller supplies them. Every candidate position is either taken
    whole or refused whole. */
module Movement {
  import opened Types
  import opened Geometry
  import opened Combat

  /** The arrow/WASD and shift keys held during a tick. */
  datatype Keys = Keys(up: bool, down: bool, left: bool, right: bool, shift: bool)

  function CarPos(c: Car): Vec
  {
    Vec(c.x, c.y)
  }

  /** Bound on any car's speed: the fixed point of (s + 0.2) * 0.98. */
  const TOP_SPEED: real := 9.8

  /** Throttle then friction: +0.2 forward, -0.2 back, then times 0.98. */
  function Throttle(speed: real, up: bool, down: bool): (r: real)
    ensures -TOP_SPEED <= speed <= TOP_SPEED ==> -TOP_SPEED <= r <= TOP_SPEED
    ensures up == down ==> r == speed * 0.98
    ensures up && !down && speed < TOP_SPEED ==> speed < r
    ensures down && !up && -TOP_SPEED < speed ==> r < speed
  {
    var pushed := speed + (if up then 0.2 else 0.0);
    var braked := pushed - (if down then 0.2 else 0.0);
    braked * 0.98
  }

  /** A collision reverses the car at half its speed. */
  function Bounce(speed: real): (r: real)
    ensures speed > 0.0 ==> r < 0.0
    ensures speed < 0.0 ==> r > 0.0
    ensures -TOP_SPEED <= speed <= TOP_SPEED ==> -TOP_SPEED / 2.0 <= r <= TOP_SPEED / 2.0
  {
    -speed * 0.5
  }

  /** Steering turns 0.04 per held key only while the car moves faster than 0.1; in reverse
      the turn is mirrored, and holding both keys cancels out. */
  function Steer(rotation: real, speed: real, left: bool, right: bool): (r: real)
    ensures -0.1 <= speed <= 0.1 ==> r == rotation
    ensures left == right ==> r == rotation
    ensures speed > 0.1 && left && !right ==> r == rotation - 0.04
    ensures speed > 0.1 && right && !left ==> r == rotation + 0.04
    ensures speed < -0.1 && left && !right ==> r == rotation + 0.04
    ensures speed < -0.1 && right && !left ==> r == rotation - 0.04
  {
    if -0.1 <= speed <= 0.1 then rotation
    else
      var dir := if speed > 0.0 then 1.0 else -1.0;
      var turned := if left then rotation - 0.04 * dir else rotation;
      if right then turned + 0.04 * dir else turned
  }

  /** The car's footprint for building tests: long side along x, as the engine builds it. */
  function CarRect(p: Vec): Rect
  {
    Rect(p.x - CAR_HEIGHT / 2.0, p.y - CAR_WIDTH / 2.0, CAR_HEIGHT, CAR_WIDTH)
  }

  function BuildingRect(b: Building): Rect
  {
    Rect(b.x, b.y, b.width, b.height)
  }

  /** The rectangle overlaps some building. */
  predicate Blocked(r: Rect, buildings: seq<Building>)
  {
    exists i :: 0 <= i < |buildings| && RectIntersect(r, BuildingRect(buildings[i]))
  }

  /** Outside the fence that keeps a point `margin` away from the edges of a `w` by `h` area. */
  predicate Fenced(p: Vec, margin: real, w: real, h: real)
  {
    p.x < margin || p.x > w - margin || p.y < margin || p.y > h - margin
  }

  /** Another car (a different id) is closer than `CAR_HEIGHT / 1.5`. */
  predicate NearCar(cars: seq<Car>, p: Vec, id: string)
  {
    exists i :: 0 <= i < |cars| && cars[i].id != id && Within(p, CarPos(cars[i]), CAR_HEIGHT / 1.5)
  }

  /** The car collision test of the engine: fence at 50, then buildings, then other cars. */
  predicate CarCollides(p: Vec, id: string, cars: seq<Car>, buildings: seq<Building>)
  {
    Fenced(p, 50.0, WORLD_WIDTH, WORLD_HEIGHT) || Blocked(CarRect(p), buildings) || NearCar(cars, p, id)
  }

  /** The candidate position of a car moving `speed` along `heading`. */
  function Ahead(c: Car, heading: Vec, speed: real): Vec
  {
    Vec(c.x + heading.x * speed, c.y + heading.y * speed)
  }

  /** One driven tick for the car: throttle, steer, then either advance or (on a collision)
      stay in place and bounce. `heading` is the unit vector of the steered rotation. */
  function Drive(c: Car, keys: Keys, heading: Vec, cars: seq<Car>, buildings: seq<Building>): (r: Car)
    ensures var s := Throttle(c.speed, keys.up, keys.down);
      && r.rotation == Steer(c.rotation, s, keys.left, keys.right)
      && (CarCollides(Ahead(c, heading, s), c.id, cars, buildings) ==>
            CarPos(r) == CarPos(c) && r.speed == -0.5 * s)
      && (!CarCollides(Ahead(c, heading, s), c.id, cars, buildings) ==>
            CarPos(r) == Ahead(c, heading, s) && r.speed == s)
      && r.(x := c.x, y := c.y, speed := c.speed, rotation := c.rotation) == c
    ensures -TOP_SPEED <= c.speed <= TOP_SPEED ==> -TOP_SPEED <= r.speed <= TOP_SPEED
    ensures CarPos(r) != CarPos(c) ==> !Fenced(CarPos(r), 50.0, WORLD_WIDTH, WORLD_HEIGHT)
  {
    var s := Throttle(c.speed, keys.up, keys.down);
    var rot := Steer(c.rotation, s, keys.left, keys.right);
    var next := Ahead(c, heading, s);
    if CarCollides(next, c.id, cars, buildings) then c.(speed := Bounce(s), rotation := rot)
    else c.(x := next.x, y := next.y, speed := s, rotation := rot)
  }

  /** Cars start and are bought at rest, and no tick takes one past `TOP_SPEED`, so a car's
      `maxSpeed` (11, 12 or 14) is never reached: the engine never reads it. */
  lemma SpeedStaysBelowMax(c: Car, keys: Keys, heading: Vec, cars: seq<Car>, buildings: seq<Building>)
    requires -TOP_SPEED <= c.speed <= TOP_SPEED && c.maxSpeed >= 11.0
    ensures var r := Drive(c, keys, heading, cars, buildings);
      -r.maxSpeed < r.speed < r.maxSpeed
  {
  }

  /** -1, 0 or 1 from a pair of opposite keys. */
  function Axis(negative: bool, positive: bool): int
  {
    (if positive then 1 else 0) - (if negative then 1 else 0)
  }

  /** Running (shift) is twice the walking speed. */
  function WalkSpeed(keys: Keys): real
  {
    if keys.shift then 7.0 else 3.5
  }

  /** Walking needs a direction: the keys must not cancel out on both axes. */
  predicate Walks(keys: Keys)
  {
    Axis(keys.up, keys.down) != 0 || Axis(keys.left, keys.right) != 0
  }

  /** The player's footprint for building tests. */
  function PlayerRect(p: Vec): Rect
  {
    Rect(p.x - 10.0, p.y - 10.0, 20.0, 20.0)
  }

  /** A walk step is refused at the fence 20 away from the edges of the room or the world, and
      outdoors also when the player's footprint would overlap a building. */
  predicate WalkBlocked(p: Vec, inside: bool, canvasW: real, canvasH: real, buildings: seq<Building>)
  {
    if inside then Fenced(p, 20.0, canvasW, canvasH)
    else Fenced(p, 20.0, WORLD_WIDTH, WORLD_HEIGHT) || Blocked(PlayerRect(p), buildings)
  }

  /** Where a walking player ends up: the whole step along `heading` (the unit vector of the
      key direction) at walking or running speed, or nowhere. */
  function Walk(p: Vec, keys: Keys, heading: Vec, inside: bool, canvasW: real, canvasH: real,
                buildings: seq<Building>): (r: Vec)
    ensures !Walks(keys) ==> r == p
    ensures Walks(keys) ==>
      var next := Vec(p.x + heading.x * WalkSpeed(keys), p.y + heading.y * WalkSpeed(keys));
      r == (if WalkBlocked(next, inside, canvasW, canvasH, buildings) then p else next)
    ensures r != p ==> !WalkBlocked(r, inside, canvasW, canvasH, buildings)
  {
    if !Walks(keys) then p
    else
      var next := Vec(p.x + heading.x * WalkSpeed(keys), p.y + heading.y * WalkSpeed(keys));
      if WalkBlocked(next, inside, canvasW, canvasH, buildings) then p else next
  }

  /** The random draws and angles one NPC's tick needs: an optional new wandering rotation
      (the 1% draw), the unit heading of the rotation it then walks along, the facing angle
      toward the player with its unit vector, the 2% attack draw and the shot's spread heading. */
  datatype NpcChoice = NpcChoice(redirect: Option<real>, heading: Vec, facing: real, facingDir: Vec,
                                 attackRoll: Unit, shotDir: Vec)

  function NpcRect(p: Vec): Rect
  {
    Rect(p.x - 10.0, p.y - 10.0, 20.0, 20.0)
  }

  function Step(n: Npc, heading: Vec, length: real): Vec
  {
    Vec(n.x + heading.x * length, n.y + heading.y * length)
  }

  /** A fighting NPC turns to the supplied angle and, farther than 150 from the player, steps 2
      along the supplied heading unless a building is in the way. In the game the angle is
      `atan2` of the offset to the player and the heading its cosine and sine; `Toward` states
      that heading without trigonometry and `ChaseApproaches` what the step then achieves. */
  function Chase(n: Npc, player: Vec, c: NpcChoice, buildings: seq<Building>): (r: Npc)
    ensures r.rotation == c.facing
    ensures !Beyond(NpcPos(n), player, 150.0) ==> NpcPos(r) == NpcPos(n)
    ensures NpcPos(r) == NpcPos(n) || NpcPos(r) == Step(n, c.facingDir, 2.0)
    ensures NpcPos(r) != NpcPos(n) ==> !Blocked(NpcRect(NpcPos(r)), buildings)
    ensures r.(x := n.x, y := n.y, rotation := n.rotation) == n
  {
    var faced := n.(rotation := c.facing);
    if Beyond(NpcPos(n), player, 150.0) then
      var next := Step(n, c.facingDir, 2.0);
      if Blocked(NpcRect(next), buildings) then faced else faced.(x := next.x, y := next.y)
    else faced
  }

  /** `dir` is the unit vector pointing from `from` to `to`: parallel to the offset and on its
      side, which is what the cosine and sine of `atan2` of that offset give. */
  predicate Toward(from: Vec, to: Vec, dir: Vec)
  {
    && dir.x * dir.x + dir.y * dir.y == 1.0
    && dir.x * (to.y - from.y) == dir.y * (to.x - from.x)
    && dir.x * (to.x - from.x) + dir.y * (to.y - from.y) > 0.0
  }

  /** Along a heading toward `to`, the squared distance is the square of the projection. */
  lemma TowardLength(from: Vec, to: Vec, dir: Vec)
    requires Toward(from, to, dir)
    ensures var k := dir.x * (to.x - from.x) + dir.y * (to.y - from.y);
      k * k == DistSq(from, to)
  {
    var dx, dy := to.x - from.x, to.y - from.y;
    var k := dir.x * dx + dir.y * dy;
    var cross := dir.x * dy - dir.y * dx;
    assert k * k + cross * cross == (dir.x * dir.x + dir.y * dir.y) * (dx * dx + dy * dy);
  }

  /** A step of `len` along a heading toward `to` leaves the squared distance as the square of
      the projection less `len`. */
  lemma StepToward(from: Vec, to: Vec, dir: Vec, len: real)
    requires dir.x * dir.x + dir.y * dir.y == 1.0
    ensures var k := dir.x * (to.x - from.x) + dir.y * (to.y - from.y);
      DistSq(Vec(from.x + dir.x * len, from.y + dir.y * len), to) == (k - len) * (k - len)
        + (DistSq(from, to) - k * k)
  {
  }

  /** A positive number whose square exceeds `b * b` exceeds `b`. */
  lemma PositiveRoot(k: real, b: real)
    requires k > 0.0 && b >= 0.0 && k * k > b * b
    ensures k > b
  {
    assert (k - b) * (k + b) == k * k - b * b;
  }

  /** When the heading really points at the player, a chasing NPC that moves comes exactly 2
      closer: its distance was `k` and is now `k - 2`, with `k` beyond 150. A chase never
      takes it farther away. */
  lemma ChaseApproaches(n: Npc, player: Vec, c: NpcChoice, buildings: seq<Building>)
    requires Toward(NpcPos(n), player, c.facingDir)
    ensures var r := Chase(n, player, c, buildings);
      var k := c.facingDir.x * (player.x - n.x) + c.facingDir.y * (player.y - n.y);
      && DistSq(NpcPos(r), player) <= DistSq(NpcPos(n), player)
      && (NpcPos(r) != NpcPos(n) ==>
            && k > 150.0
            && DistSq(NpcPos(n), player) == k * k
            && DistSq(NpcPos(r), player) == (k - 2.0) * (k - 2.0))
  {
    var r := Chase(n, player, c, buildings);
    var k := c.facingDir.x * (player.x - n.x) + c.facingDir.y * (player.y - n.y);
    TowardLength(NpcPos(n), player, c.facingDir);
    if NpcPos(r) != NpcPos(n) {
      StepToward(NpcPos(n), player, c.facingDir, 2.0);
      assert Beyond(NpcPos(n), player, 150.0);
      assert DistSq(NpcPos(n), player) == k * k;
      assert k * k > 150.0 * 150.0;
      PositiveRoot(k, 150.0);
    }
  }

  /** A wandering NPC may pick a new rotation, then steps 0.5 ahead. Past the world's edge it
      turns by pi and then by a further pi/2; into a building it turns by pi/2; in both cases
      it stays where it is. */
  function Wander(n: Npc, c: NpcChoice, buildings: seq<Building>): (r: Npc)
    ensures var rot := if c.redirect.Some? then c.redirect.value else n.rotation;
      var next := Step(n, c.heading, 0.5);
      && (Fenced(next, 0.0, WORLD_WIDTH, WORLD_HEIGHT) ==> NpcPos(r) == NpcPos(n) && r.rotation == rot + PI + PI / 2.0)
      && (!Fenced(next, 0.0, WORLD_WIDTH, WORLD_HEIGHT) && Blocked(NpcRect(next), buildings) ==>
            NpcPos(r) == NpcPos(n) && r.rotation == rot + PI / 2.0)
      && (!Fenced(next, 0.0, WORLD_WIDTH, WORLD_HEIGHT) && !Blocked(NpcRect(next), buildings) ==>
            NpcPos(r) == next && r.rotation == rot)
    ensures r.(x := n.x, y := n.y, rotation := n.rotation) == n
  {
    var rot := if c.redirect.Some? then c.redirect.value else n.rotation;
    var next := Step(n, c.heading, 0.5);
    if Fenced(next, 0.0, WORLD_WIDTH, WORLD_HEIGHT) then n.(rotation := rot + PI + PI / 2.0)
    else if Blocked(NpcRect(next), buildings) then n.(rotation := rot + PI / 2.0)
    else n.(x := next.x, y := next.y, rotation := rot)
  }

  /** One NPC's movement in the tick: dead NPCs are skipped, and fighting and wandering only
      happen outdoors; everyone else stands still. */
  function NpcMove(n: Npc, player: Vec, c: NpcChoice, buildings: seq<Building>, outdoors: bool): (r: Npc)
    ensures n.state == Dead || !outdoors || (n.state != Fighting && n.state != Wandering) ==> r == n
    ensures n.state == Fighting && outdoors ==> r == Chase(n, player, c, buildings)
    ensures n.state == Wandering && outdoors ==> r == Wander(n, c, buildings)
    ensures r.(x := n.x, y := n.y, rotation := n.rotation) == n
    ensures NpcPos(r) != NpcPos(n) ==> !Blocked(NpcRect(NpcPos(r)), buildings)
  {
    if n.state == Fighting && outdoors then Chase(n, player, c, buildings)
    else if n.state == Wandering && outdoors then Wander(n, c, buildings)
    else n
  }

  /** The whole pool after the movement part of the tick. */
  function PoolMoved(pool: seq<Npc>, player: Vec, choices: nat -> NpcChoice, buildings: seq<Building>,
                     outdoors: bool): (r: seq<Npc>)
    ensures |r| == |pool|
    ensures forall i :: 0 <= i < |pool| ==> r[i] == NpcMove(pool[i], player, choices(i), buildings, outdoors)
  {
    seq(|pool|, i requires 0 <= i < |pool| => NpcMove(pool[i], player, choices(i), buildings, outdoors))
  }

  /** The tick neither heals, hurts nor changes the state of any NPC. */
  lemma PoolMovedKeepsOk(pool: seq<Npc>, player: Vec, choices: nat -> NpcChoice, buildings: seq<Building>,
                         outdoors: bool)
    requires PoolOk(pool)
    ensures var r := PoolMoved(pool, player, choices, buildings, outdoors);
      && PoolOk(r)
      && (forall i :: 0 <= i < |pool| ==> r[i].health == pool[i].health && r[i].state == pool[i].state)
      && (!outdoors ==> r == pool)
  {
    var r := PoolMoved(pool, player, choices, buildings, outdoors);
    forall i | 0 <= i < |pool|
      ensures NpcOk(r[i])
    {
      assert NpcOk(pool[i]);
      assert r[i].(x := pool[i].x, y := pool[i].y, rotation := pool[i].rotation) == pool[i];
    }
  }

  /** The fighting NPC attacks this tick: outdoors, it was closer than 300 before moving and
      the 2% draw came up. */
  predicate NpcAttacks(n: Npc, player: Vec, c: NpcChoice, outdoors: bool)
  {
    n.state == Fighting && outdoors && Within(NpcPos(n), player, 300.0) && c.attackRoll < 0.02
  }
}
