/** Projectile bookkeeping of the game loop: four sub-steps per tick of a quarter of the
    speed each, the hit shapes, and which projectiles the tick keeps. */
module Projectiles {
  import opened Types
  import opened Geometry

  const SUB_STEPS: nat := 4

  /** One sub-step: a quarter of the speed along the heading, added to the distance too. */
  function SubStep(p: Projectile): (q: Projectile)
    ensures q.distanceTraveled == p.distanceTraveled + p.speed / 4.0
    ensures q.x == p.x + p.dir.x * (p.speed / 4.0) && q.y == p.y + p.dir.y * (p.speed / 4.0)
    ensures q.(x := p.x, y := p.y, distanceTraveled := p.distanceTraveled) == p
  {
    var step := p.speed / (SUB_STEPS as real);
    p.(x := p.x + p.dir.x * step, y := p.y + p.dir.y * step, distanceTraveled := p.distanceTraveled + step)
  }

  /** The projectile after `s` sub-steps. */
  function Advanced(p: Projectile, s: nat): (q: Projectile)
    ensures q.(x := p.x, y := p.y, distanceTraveled := p.distanceTraveled) == p
  {
    if s == 0 then p else SubStep(Advanced(p, s - 1))
  }

  /** After `s` sub-steps the projectile has moved and travelled exactly `s` quarters of its
      speed. */
  lemma AdvancedExact(p: Projectile, s: nat)
    ensures var q := Advanced(p, s);
      && q.distanceTraveled == p.distanceTraveled + (s as real) * (p.speed / 4.0)
      && q.x == p.x + (s as real) * (p.dir.x * (p.speed / 4.0))
      && q.y == p.y + (s as real) * (p.dir.y * (p.speed / 4.0))
  {
    AdvancedDistance(p, s);
    AdvancedX(p, s);
    AdvancedY(p, s);
  }

  lemma {:induction false} AdvancedDistance(p: Projectile, s: nat)
    ensures Advanced(p, s).distanceTraveled == p.distanceTraveled + (s as real) * (p.speed / 4.0)
  {
    if s > 0 {
      AdvancedDistance(p, s - 1);
      var prev := Advanced(p, s - 1);
      assert prev.speed == p.speed;
      assert (s as real) == ((s - 1) as real) + 1.0;
      OneMore((s - 1) as real, p.speed / 4.0);
    }
  }

  lemma {:induction false} AdvancedX(p: Projectile, s: nat)
    ensures Advanced(p, s).x == p.x + (s as real) * (p.dir.x * (p.speed / 4.0))
  {
    if s > 0 {
      AdvancedX(p, s - 1);
      var prev := Advanced(p, s - 1);
      assert prev.speed == p.speed && prev.dir == p.dir;
      assert (s as real) == ((s - 1) as real) + 1.0;
      OneMore((s - 1) as real, p.dir.x * (p.speed / 4.0));
    }
  }

  lemma {:induction false} AdvancedY(p: Projectile, s: nat)
    ensures Advanced(p, s).y == p.y + (s as real) * (p.dir.y * (p.speed / 4.0))
  {
    if s > 0 {
      AdvancedY(p, s - 1);
      var prev := Advanced(p, s - 1);
      assert prev.speed == p.speed && prev.dir == p.dir;
      assert (s as real) == ((s - 1) as real) + 1.0;
      OneMore((s - 1) as real, p.dir.y * (p.speed / 4.0));
    }
  }

  lemma OneMore(n: real, b: real)
    ensures n * b + b == (n + 1.0) * b
  {
  }

  /** Sub-steps compose: `t` more after `s` are `s + t` from the start. */
  lemma {:induction false} AdvancedCompose(p: Projectile, s: nat, t: nat)
    ensures Advanced(Advanced(p, s), t) == Advanced(p, s + t)
  {
    if t > 0 {
      AdvancedCompose(p, s, t - 1);
    }
  }

  /** A full tick without a hit moves the projectile by its whole speed, and `t` such ticks add
      `t` times the speed to the distance travelled. */
  lemma FullTicks(p: Projectile, t: nat)
    ensures Advanced(p, SUB_STEPS).distanceTraveled == p.distanceTraveled + p.speed
    ensures Advanced(p, SUB_STEPS).x == p.x + p.dir.x * p.speed
    ensures Advanced(p, SUB_STEPS * t).distanceTraveled == p.distanceTraveled + (t as real) * p.speed
  {
    AdvancedExact(p, SUB_STEPS);
    AdvancedExact(p, SUB_STEPS * t);
    assert ((SUB_STEPS * t) as real) * (p.speed / 4.0) == (t as real) * p.speed;
  }

  /** The 5 by 5 square tested against buildings (from the projectile's point, not centred). */
  function ShotRect(p: Projectile): Rect
  {
    Rect(p.x, p.y, 5.0, 5.0)
  }

  /** The 20 by 20 box tested against NPCs and the player. */
  function ShotBox(p: Projectile): Box
  {
    Box(p.x, p.y, 20.0, 20.0)
  }

  /** What the tick keeps of one projectile: a projectile that hit nothing did all four
      sub-steps, and it stays only while it has not passed its range. */
  function Kept(p: Projectile, hit: bool): (r: seq<Projectile>)
    ensures |r| <= 1
    ensures |r| == 1 <==> !hit && Advanced(p, SUB_STEPS).distanceTraveled <= p.maxDistance
    ensures |r| == 1 ==> r[0] == Advanced(p, SUB_STEPS)
  {
    var q := Advanced(p, SUB_STEPS);
    if !hit && q.distanceTraveled <= q.maxDistance then [q] else []
  }

  /** The projectiles that survive a tick, in their original order; `hits[i]` says whether
      projectile `i` hit something during its sub-steps. */
  function Survivors(ps: seq<Projectile>, hits: seq<bool>): (r: seq<Projectile>)
    requires |ps| == |hits|
    ensures |r| <= |ps|
  {
    if |ps| == 0 then [] else Kept(ps[0], hits[0]) + Survivors(ps[1..], hits[1..])
  }

  /** Every survivor is within its range and is some projectile that hit nothing, moved on its
      four sub-steps; when none hits anything and none passes its range, all survive. */
  lemma {:induction false} SurvivorsSound(ps: seq<Projectile>, hits: seq<bool>)
    requires |ps| == |hits|
    ensures var r := Survivors(ps, hits);
      && (forall j :: 0 <= j < |r| ==> r[j].distanceTraveled <= r[j].maxDistance)
      && (forall j :: 0 <= j < |r| ==> exists i :: 0 <= i < |ps| && !hits[i] && r[j] == Advanced(ps[i], SUB_STEPS))
      && ((forall i :: 0 <= i < |ps| ==> !hits[i] && Advanced(ps[i], SUB_STEPS).distanceTraveled <= ps[i].maxDistance)
          ==> |r| == |ps|)
  {
    if |ps| > 0 {
      SurvivorsSound(ps[1..], hits[1..]);
      var rest := Survivors(ps[1..], hits[1..]);
      var kept := Kept(ps[0], hits[0]);
      var r := Survivors(ps, hits);
      assert r == kept + rest;
      forall j | 0 <= j < |r|
        ensures r[j].distanceTraveled <= r[j].maxDistance
        ensures exists i :: 0 <= i < |ps| && !hits[i] && r[j] == Advanced(ps[i], SUB_STEPS)
      {
        if j < |kept| {
          assert r[j] == kept[0];
        } else {
          var j' := j - |kept|;
          assert r[j] == rest[j'];
          var i' :| 0 <= i' < |ps[1..]| && !hits[1..][i'] && rest[j'] == Advanced(ps[1..][i'], SUB_STEPS);
          assert ps[i' + 1] == ps[1..][i'];
        }
      }
      if forall i :: 0 <= i < |ps| ==> !hits[i] && Advanced(ps[i], SUB_STEPS).distanceTraveled <= ps[i].maxDistance {
        forall i | 0 <= i < |ps[1..]|
          ensures !hits[1..][i] && Advanced(ps[1..][i], SUB_STEPS).distanceTraveled <= ps[1..][i].maxDistance
        {
          assert ps[1..][i] == ps[i + 1];
        }
      }
    }
  }

  /** Replacing projectile `i` of a list whose tail from `i + 1` has already been reduced to
      its survivors by what it keeps extends the survivors to the tail from `i`. */
  lemma SurvivorsSplice(ps: seq<Projectile>, hits: seq<bool>, u: seq<Projectile>, i: nat)
    requires i < |ps| && |hits| == |ps| - i
    requires u == ps[..i + 1] + Survivors(ps[i + 1..], hits[1..])
    ensures u[..i] + Kept(u[i], hits[0]) + u[i + 1..] == ps[..i] + Survivors(ps[i..], hits)
  {
    SurvivorsUnfold(ps, hits, i);
    SpliceAt(ps, i, Survivors(ps[i + 1..], hits[1..]), u, Kept(ps[i], hits[0]));
  }

  /** The survivors of the tail from `i`: what projectile `i` keeps, then the survivors after it. */
  lemma SurvivorsUnfold(ps: seq<Projectile>, hits: seq<bool>, i: nat)
    requires i < |ps| && |hits| == |ps| - i
    ensures Survivors(ps[i..], hits) == Kept(ps[i], hits[0]) + Survivors(ps[i + 1..], hits[1..])
  {
    assert ps[i..][0] == ps[i] && ps[i..][1..] == ps[i + 1..];
  }

  /** Element `i` of the list `ps[..i + 1] + tail` is `ps[i]`, and putting `mid` in its place
      gives `ps[..i] + (mid + tail)`. */
  lemma SpliceAt<T>(ps: seq<T>, i: nat, tail: seq<T>, u: seq<T>, mid: seq<T>)
    requires i < |ps| && u == ps[..i + 1] + tail
    ensures u[i] == ps[i] && u[..i] + mid + u[i + 1..] == ps[..i] + (mid + tail)
  {
    var head := ps[..i + 1];
    assert u[..i] == head[..i] == ps[..i];
    assert u[i + 1..] == tail;
  }

  /** A projectile flying straight at positive speed without hitting anything is gone after
      at most `maxDistance / speed + 1` ticks. */
  lemma RangeEndsFlight(p: Projectile, t: nat)
    requires p.speed > 0.0 && p.distanceTraveled >= 0.0
    requires (t as real) * p.speed > p.maxDistance
    ensures Kept(Advanced(p, SUB_STEPS * t), false) == []
  {
    FullTicks(p, t);
    var q := Advanced(p, SUB_STEPS * t);
    FullTicks(q, 1);
    assert q.speed == p.speed && q.maxDistance == p.maxDistance;
  }
}
