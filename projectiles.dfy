/**
 * The linear projectile behaviour (assets/behaviors/prj.py, `fun1`) and the projectile object that
 * runs it (assets/classes/entities.py, `Projectile.run`). A projectile is registered in `EControl`
 * beside the mobs, so its scan of `EControl.Entities` meets itself and skips itself by id.
 */
module Projectiles {
  import opened Common
  import opened World
  import Stats

  /** What the scan reads of an entity: its id, its `type` and its position. */
  datatype Body = Body(id: int, kind: string, posx: int, posy: int)

  /** The registry as the scan sees it, entity by entity in list order. */
  function View(es: seq<Entity>): (v: seq<Body>)
    reads es
    ensures |v| == |es|
    ensures forall i :: 0 <= i < |es| ==> v[i] == Body(es[i].id, es[i].kind, es[i].posx, es[i].posy)
  {
    if |es| == 0 then []
    else View(es[..|es| - 1]) + [Body(es[|es| - 1].id, es[|es| - 1].kind, es[|es| - 1].posx, es[|es| - 1].posy)]
  }

  /** `abs(a - b)`. */
  function Distance(a: int, b: int): (d: nat)
    ensures d == a - b || d == b - a
  {
    if a >= b then a - b else b - a
  }

  /** The overlap test of the scan: both coordinate distances below the projectile's size. */
  predicate Touches(b: Body, x: int, y: int, sizex: int, sizey: int) {
    Distance(x, b.posx) < sizex && Distance(y, b.posy) < sizey
  }

  /** The scan passes over the projectile's own id and every id it has already hit. */
  predicate Skipped(b: Body, me: int, hit: seq<int>) {
    b.id == me || b.id in hit
  }

  /** An entity the scan stops at. */
  predicate Contact(b: Body, me: int, hit: seq<int>, x: int, y: int, sizex: int, sizey: int) {
    !Skipped(b, me, hit) && Touches(b, x, y, sizex, sizey)
  }

  /**
   * `r` is where a scan of `v` stops for a projectile with id `me` at `(x, y)`: an entity in
   * contact with no contact before it, or `None` when no entity is in contact.
   */
  predicate StopsAt(v: seq<Body>, me: int, hit: seq<int>, x: int, y: int, sizex: int, sizey: int, r: Option<nat>) {
    (r.Some? ==> r.value < |v| && Contact(v[r.value], me, hit, x, y, sizex, sizey) &&
                 forall j :: 0 <= j < r.value ==> !Contact(v[j], me, hit, x, y, sizex, sizey)) &&
    (r.None? ==> forall j :: 0 <= j < |v| ==> !Contact(v[j], me, hit, x, y, sizex, sizey))
  }

  /** The index the scan stops at, computed front to back. */
  function FirstContact(v: seq<Body>, me: int, hit: seq<int>, x: int, y: int, sizex: int, sizey: int): (r: Option<nat>)
    ensures StopsAt(v, me, hit, x, y, sizex, sizey, r)
  {
    if |v| == 0 then None
    else if Contact(v[0], me, hit, x, y, sizex, sizey) then Some(0)
    else match FirstContact(v[1..], me, hit, x, y, sizex, sizey)
      case None => None
      case Some(k) => Some(k + 1)
  }

  /** Where a scan stops is determined: `FirstContact` is the only answer `StopsAt` admits. */
  lemma {:induction false} StopsAtUnique(v: seq<Body>, me: int, hit: seq<int>, x: int, y: int, sizex: int, sizey: int, r: Option<nat>)
    ensures StopsAt(v, me, hit, x, y, sizex, sizey, r) <==> r == FirstContact(v, me, hit, x, y, sizex, sizey)
  {
    if |v| > 0 && !Contact(v[0], me, hit, x, y, sizex, sizey) {
      var r' := match r case None => None case Some(k) => if k == 0 then None else Some(k - 1);
      StopsAtUnique(v[1..], me, hit, x, y, sizex, sizey, r');
    }
  }


  /** Every mob of the registry has stats with an `hp`, as the hit reads and writes `other.stats.hp`. */
  predicate MobsHaveHp(es: seq<Entity>)
    reads es, set k | 0 <= k < |es| && es[k].stats != null :: es[k].stats
  {
    forall k :: 0 <= k < |es| && es[k].kind == "mob" ==> es[k].stats != null && "hp" in es[k].stats.values
  }

  /** The stat tables of the registry's entities. */
  function StatsOf(es: seq<Entity>): set<Stats.Status>
  {
    set k | 0 <= k < |es| && es[k].stats != null :: es[k].stats
  }

  /**
   * The scan loop of `fun1` over the registry as seen from a projectile with id `me` at `(x, y)`:
   * the index it stops at, by the same `continue` and `break` tests, or `None`.
   */
  method Scan(v: seq<Body>, me: int, hit: seq<int>, x: int, y: int, sizex: int, sizey: int) returns (r: Option<nat>)
    ensures StopsAt(v, me, hit, x, y, sizex, sizey, r)
  {
    var i := 0;
    while i < |v|
      invariant 0 <= i <= |v|
      invariant forall j :: 0 <= j < i ==> !Contact(v[j], me, hit, x, y, sizex, sizey)
    {
      var other := v[i];
      if other.id == me || other.id in hit {
        i := i + 1;
        continue;
      }
      if Distance(x, other.posx) < sizex && Distance(y, other.posy) < sizey {
        return Some(i);
      }
      i := i + 1;
    }
    return None;
  }

  /** The names `projectiles_behaviors` holds. */
  const BehaviorNames: set<string> := {"teste"}

  /** A projectile: its body in `EControl`, the flight parameters, and the ids it has hit. */
  class Projectile {
    const body: Entity
    const speed: int
    const damage: real
    var penetration: int
    var time: int
    const dirx: int
    const diry: int
    const behavior: Option<string>
    var alreadyHit: seq<int>

    /**
     * `Projectile(...)` with the stored flight parameters; the behaviour is the registry's entry for
     * the stored name, or none. The hit list starts empty, as `fun1` creates it on first use.
     */
    constructor (body: Entity, speed: int, damage: real, penetration: int, time: int,
                 behaviorName: string, dirx: int, diry: int)
      ensures this.body == body && this.speed == speed && this.damage == damage
      ensures this.penetration == penetration && this.time == time
      ensures this.dirx == dirx && this.diry == diry && alreadyHit == []
      ensures behavior == if behaviorName in BehaviorNames then Some(behaviorName) else None
    {
      this.body := body;
      this.speed := speed;
      this.damage := damage;
      this.penetration := penetration;
      this.time := time;
      this.dirx := dirx;
      this.diry := diry;
      behavior := if behaviorName in BehaviorNames then Some(behaviorName) else None;
      alreadyHit := [];
    }

    /**
     * `fun1(entity, map, dirx, diry, EControl)`. While `time > 0` the projectile moves by
     * `dir * speed`, `time` drops by one, and the scan runs from the new position. The first entity
     * it stops at ends the scan whatever its type; only a mob is hit: its hp drops by `damage`
     * directly, penetration drops by one, its id joins the hit list, and the projectile is killed
     * when penetration is then at most 0. At `time <= 0` the projectile is killed and nothing moves.
     * The ghost `c` names where the scan stopped; `StopsAtUnique` shows it is `FirstContact`.
     */
    method Fun1(w: World) returns (ghost c: Option<nat>)
      requires w.Valid() && MobsHaveHp(w.entities)
      modifies this, body`posx, body`posy, StatsOf(w.entities)
      modifies w, w.entities`id, w.projectiles`id, w.players`id, w.breakables`id, w.items`id
      ensures w.Valid()
      ensures forall s :: s in old(StatsOf(w.entities)) ==> s.values.Keys == old(s.values.Keys)
      ensures old(time) <= 0 ==>
        body.posx == old(body.posx) && body.posy == old(body.posy) && time == old(time) &&
        penetration == old(penetration) && alreadyHit == old(alreadyHit) &&
        w.Snapshot() == old(w.Snapshot()).Without(KillTarget(body.kind), old(body.id))
      ensures old(time) > 0 ==>
        body.posx == old(body.posx) + dirx * speed && body.posy == old(body.posy) + diry * speed &&
        time == old(time) - 1
      ensures old(time) > 0 ==>
        StopsAt(old(View(w.entities)), old(body.id), old(alreadyHit),
                old(body.posx) + dirx * speed, old(body.posy) + diry * speed, body.sizex, body.sizey, c)
      ensures old(time) > 0 && c.Some? && old(w.entities[c.value].kind) == "mob" ==>
        var target := old(w.entities[c.value]);
        target.stats != null &&
        target.stats.values == old(target.stats.values)["hp" := old(target.stats.values["hp"]) - damage] &&
        penetration == old(penetration) - 1 && alreadyHit == old(alreadyHit) + [old(target.id)] &&
        w.Snapshot() == (if penetration <= 0 then old(w.Snapshot()).Without(KillTarget(body.kind), old(body.id))
                         else old(w.Snapshot()))
      ensures old(time) > 0 && !(c.Some? && old(w.entities[c.value].kind) == "mob") ==>
        penetration == old(penetration) && alreadyHit == old(alreadyHit) && w.Snapshot() == old(w.Snapshot())
      ensures old(time) <= 0 ==> c == None
      ensures forall s :: s in old(StatsOf(w.entities)) ==>
        !(c.Some? && old(w.entities[c.value].kind) == "mob" && s == old(w.entities[c.value].stats)) ==> s.values == old(s.values)
    {
      c := None;
      if time > 0 {
        c := Fly(w);
      } else {
        body.Kill(w);
      }
    }

    /**
     * The `time > 0` branch of `fun1`: the move, the countdown, the scan and at most one hit;
     * `c` is the index the scan stopped at.
     */
    method Fly(w: World) returns (c: Option<nat>)
      requires w.Valid() && MobsHaveHp(w.entities)
      modifies this, body`posx, body`posy, StatsOf(w.entities)
      modifies w, w.entities`id, w.projectiles`id, w.players`id, w.breakables`id, w.items`id
      ensures w.Valid()
      ensures forall s :: s in old(StatsOf(w.entities)) ==> s.values.Keys == old(s.values.Keys)
      ensures body.posx == old(body.posx) + dirx * speed && body.posy == old(body.posy) + diry * speed
      ensures time == old(time) - 1
      ensures StopsAt(old(View(w.entities)), old(body.id), old(alreadyHit),
                      old(body.posx) + dirx * speed, old(body.posy) + diry * speed, body.sizex, body.sizey, c)
      ensures c.Some? && old(w.entities[c.value].kind) == "mob" ==>
        var target := old(w.entities[c.value]);
        target.stats != null &&
        target.stats.values == old(target.stats.values)["hp" := old(target.stats.values["hp"]) - damage] &&
        penetration == old(penetration) - 1 && alreadyHit == old(alreadyHit) + [old(target.id)] &&
        w.Snapshot() == (if penetration <= 0 then old(w.Snapshot()).Without(KillTarget(body.kind), old(body.id))
                         else old(w.Snapshot()))
      ensures !(c.Some? && old(w.entities[c.value].kind) == "mob") ==>
        penetration == old(penetration) && alreadyHit == old(alreadyHit) && w.Snapshot() == old(w.Snapshot())
      ensures forall s :: s in old(StatsOf(w.entities)) ==>
        !(c.Some? && old(w.entities[c.value].kind) == "mob" && s == old(w.entities[c.value].stats)) ==> s.values == old(s.values)
    {
      var v := View(w.entities);
      c := Scan(v, body.id, alreadyHit, body.posx + dirx * speed, body.posy + diry * speed, body.sizex, body.sizey);
      Move(w, c);
    }

    /** The move and countdown of `fun1`, then the strike at the entity the scan stopped at. */
    method Move(w: World, c: Option<nat>)
      requires w.Valid() && MobsHaveHp(w.entities)
      requires c.Some? ==> c.value < |w.entities|
      modifies this`time, this`penetration, this`alreadyHit, body`posx, body`posy, StatsOf(w.entities)
      modifies w, w.entities`id, w.projectiles`id, w.players`id, w.breakables`id, w.items`id
      ensures w.Valid()
      ensures forall s :: s in old(StatsOf(w.entities)) ==> s.values.Keys == old(s.values.Keys)
      ensures body.posx == old(body.posx) + dirx * speed && body.posy == old(body.posy) + diry * speed
      ensures time == old(time) - 1
      ensures c.Some? && old(w.entities[c.value].kind) == "mob" ==>
        var target := old(w.entities[c.value]);
        target.stats != null &&
        target.stats.values == old(target.stats.values)["hp" := old(target.stats.values["hp"]) - damage] &&
        penetration == old(penetration) - 1 && alreadyHit == old(alreadyHit) + [old(target.id)] &&
        w.Snapshot() == (if penetration <= 0 then old(w.Snapshot()).Without(KillTarget(body.kind), old(body.id))
                         else old(w.Snapshot()))
      ensures !(c.Some? && old(w.entities[c.value].kind) == "mob") ==>
        penetration == old(penetration) && alreadyHit == old(alreadyHit) && w.Snapshot() == old(w.Snapshot())
      ensures forall s :: s in old(StatsOf(w.entities)) ==>
        !(c.Some? && old(w.entities[c.value].kind) == "mob" && s == old(w.entities[c.value].stats)) ==> s.values == old(s.values)
    {
      Advance(w);
      Hit(w, c);
    }

    /** The end of the scan: a strike at the entity it stopped at, if it stopped at one. */
    method Hit(w: World, c: Option<nat>)
      requires w.Valid() && MobsHaveHp(w.entities)
      requires c.Some? ==> c.value < |w.entities|
      modifies this`penetration, this`alreadyHit, StatsOf(w.entities)
      modifies w, w.entities`id, w.projectiles`id, w.players`id, w.breakables`id, w.items`id
      ensures w.Valid()
      ensures forall s :: s in old(StatsOf(w.entities)) ==> s.values.Keys == old(s.values.Keys)
      ensures c.Some? && old(w.entities[c.value].kind) == "mob" ==>
        var target := old(w.entities[c.value]);
        target.stats != null &&
        target.stats.values == old(target.stats.values)["hp" := old(target.stats.values["hp"]) - damage] &&
        penetration == old(penetration) - 1 && alreadyHit == old(alreadyHit) + [old(target.id)] &&
        w.Snapshot() == (if penetration <= 0 then old(w.Snapshot()).Without(KillTarget(body.kind), old(body.id))
                         else old(w.Snapshot()))
      ensures !(c.Some? && old(w.entities[c.value].kind) == "mob") ==>
        penetration == old(penetration) && alreadyHit == old(alreadyHit) && w.Snapshot() == old(w.Snapshot())
      ensures forall s :: s in old(StatsOf(w.entities)) ==>
        !(c.Some? && old(w.entities[c.value].kind) == "mob" && s == old(w.entities[c.value].stats)) ==> s.values == old(s.values)
    {
      if c.Some? {
        ghost var stats0 := StatsOf(w.entities);
        assert w.entities[c.value].stats != null ==> w.entities[c.value].stats in stats0;
        Strike(w, c.value);
      }
    }

    /** The flight step of `fun1`: the body moves by `dir * speed` and `time` drops by one. */
    method Advance(w: World)
      requires w.Valid()
      modifies this`time, body`posx, body`posy
      ensures w.Valid()
      ensures body.posx == old(body.posx) + dirx * speed && body.posy == old(body.posy) + diry * speed
      ensures time == old(time) - 1
    {
      body.posx := body.posx + dirx * speed;
      body.posy := body.posy + diry * speed;
      time := time - 1;
    }

    /**
     * The body of the scan at the entity it stopped at: a mob loses `damage` hp, the projectile one
     * penetration, the mob's id is recorded, and at penetration 0 or less the projectile is killed.
     * Any other entity only ends the scan.
     */
    method Strike(w: World, k: nat)
      requires w.Valid() && k < |w.entities|
      requires w.entities[k].kind == "mob" ==> w.entities[k].stats != null && "hp" in w.entities[k].stats.values
      modifies this`penetration, this`alreadyHit, w.entities[k].stats
      modifies w, w.entities`id, w.projectiles`id, w.players`id, w.breakables`id, w.items`id
      ensures w.Valid()
      ensures forall s :: s in old(StatsOf(w.entities)) ==> s.values.Keys == old(s.values.Keys)
      ensures var target := old(w.entities[k]);
        if target.kind == "mob" then
          target.stats != null &&
          target.stats.values == old(target.stats.values)["hp" := old(target.stats.values["hp"]) - damage] &&
          penetration == old(penetration) - 1 && alreadyHit == old(alreadyHit) + [old(target.id)] &&
          w.Snapshot() == (if penetration <= 0 then old(w.Snapshot()).Without(KillTarget(body.kind), old(body.id))
                           else old(w.Snapshot()))
        else
          penetration == old(penetration) && alreadyHit == old(alreadyHit) && w.Snapshot() == old(w.Snapshot())
      ensures forall s :: s in old(StatsOf(w.entities)) ==>
        !(old(w.entities[k].kind) == "mob" && s == old(w.entities[k].stats)) ==> s.values == old(s.values)
    {
      var other := w.entities[k];
      if other.kind == "mob" {
        other.stats.values := other.stats.values["hp" := other.stats.values["hp"] - damage];
        penetration := penetration - 1;
        alreadyHit := alreadyHit + [other.id];
        if penetration <= 0 {
          body.Kill(w);
        }
      }
    }

    /**
     * `run(map)`: calls the behaviour when there is one, and otherwise does nothing. With a
     * behaviour, the new state is the one `fun1` leaves: the expiry, or the move, the scan that
     * stops at the ghost `c`, and the strike on a mob found there.
     */
    method Run(w: World) returns (ghost c: Option<nat>)
      requires w.Valid() && MobsHaveHp(w.entities)
      modifies this, body`posx, body`posy, StatsOf(w.entities)
      modifies w, w.entities`id, w.projectiles`id, w.players`id, w.breakables`id, w.items`id
      ensures w.Valid()
      ensures forall s :: s in old(StatsOf(w.entities)) ==> s.values.Keys == old(s.values.Keys)
      ensures behavior.None? ==>
        body.posx == old(body.posx) && body.posy == old(body.posy) && time == old(time) &&
        penetration == old(penetration) && alreadyHit == old(alreadyHit) && w.Snapshot() == old(w.Snapshot())
      ensures behavior.Some? && old(time) <= 0 ==>
        body.posx == old(body.posx) && body.posy == old(body.posy) && time == old(time) &&
        penetration == old(penetration) && alreadyHit == old(alreadyHit) &&
        w.Snapshot() == old(w.Snapshot()).Without(KillTarget(body.kind), old(body.id))
      ensures behavior.Some? && old(time) > 0 ==>
        body.posx == old(body.posx) + dirx * speed && body.posy == old(body.posy) + diry * speed &&
        time == old(time) - 1
      ensures behavior.Some? && old(time) > 0 ==>
        StopsAt(old(View(w.entities)), old(body.id), old(alreadyHit),
                old(body.posx) + dirx * speed, old(body.posy) + diry * speed, body.sizex, body.sizey, c)
      ensures behavior.Some? && old(time) > 0 && c.Some? && old(w.entities[c.value].kind) == "mob" ==>
        var target := old(w.entities[c.value]);
        target.stats != null &&
        target.stats.values == old(target.stats.values)["hp" := old(target.stats.values["hp"]) - damage] &&
        penetration == old(penetration) - 1 && alreadyHit == old(alreadyHit) + [old(target.id)] &&
        w.Snapshot() == (if penetration <= 0 then old(w.Snapshot()).Without(KillTarget(body.kind), old(body.id))
                         else old(w.Snapshot()))
      ensures behavior.Some? && old(time) > 0 && !(c.Some? && old(w.entities[c.value].kind) == "mob") ==>
        penetration == old(penetration) && alreadyHit == old(alreadyHit) && w.Snapshot() == old(w.Snapshot())
      ensures behavior.None? || old(time) <= 0 ==> c == None
      ensures forall s :: s in old(StatsOf(w.entities)) ==>
        !(c.Some? && old(w.entities[c.value].kind) == "mob" && s == old(w.entities[c.value].stats)) ==> s.values == old(s.values)
    {
      c := None;
      if behavior.Some? {
        c := Fun1(w);
      }
    }
  }

  /**
   * Moving the projectile itself does not change where the scan stops: two views that differ only
   * at entries carrying the projectile's own id give the same first contact.
   */
  lemma {:induction false} ScanMovedSelf(v: seq<Body>, u: seq<Body>, me: int, hit: seq<int>, x: int, y: int, sizex: int, sizey: int)
    requires |v| == |u|
    requires forall i :: 0 <= i < |v| ==> v[i] == u[i] || (v[i].id == me && u[i].id == me)
    ensures FirstContact(v, me, hit, x, y, sizex, sizey) == FirstContact(u, me, hit, x, y, sizex, sizey)
  {
    if |v| > 0 {
      ScanMovedSelf(v[1..], u[1..], me, hit, x, y, sizex, sizey);
    }
  }
}
