/**
 * The per-tick callbacks the behaviour trees name: the wander action and the facing-to-animation
 * action (assets/behaviors/actions.py), and the two-second timer and always-true conditions
 * (assets/behaviors/conditions.py), with the name registries that map the stored names to them.
 */
module Behaviors {
  import opened Common
  import opened World

  /** The four legs `random.choice` picks from: 32 pixels right, left, down and up. */
  const Directions: seq<(int, int)> := [(32, 0), (-32, 0), (0, 32), (0, -32)]

  /** The unit step toward a non-zero offset. */
  function Sign(v: int): (s: int)
    ensures v > 0 ==> s == 1
    ensures v <= 0 ==> s == -1
  {
    if v > 0 then 1 else -1
  }

  /** The offset after one wander call: one pixel off the x offset while it lasts, else one off the y offset. */
  function StepOffset(o: (int, int)): (int, int) {
    if o.0 != 0 then (o.0 - Sign(o.0), o.1)
    else if o.1 != 0 then (o.0, o.1 - Sign(o.1))
    else o
  }

  /** The offset after `n` wander calls. */
  function Steps(o: (int, int), n: nat): (int, int)
    decreases n
  {
    if n == 0 then o else Steps(StepOffset(o), n - 1)
  }

  /** On one axis, each call takes one pixel off the offset until it is spent. */
  lemma {:induction false} StepsAlongAxis(o: (int, int), n: nat)
    requires o.0 == 0 || o.1 == 0
    requires n <= (if o.0 != 0 then (if o.0 > 0 then o.0 else -o.0) else (if o.1 > 0 then o.1 else -o.1))
    ensures o.0 != 0 ==> Steps(o, n) == (o.0 - n * Sign(o.0), 0)
    ensures o.0 == 0 ==> Steps(o, n) == (0, o.1 - n * Sign(o.1))
    decreases n
  {
    if n > 0 {
      var o' := StepOffset(o);
      if o.0 != 0 {
        if n > 1 {
          assert o'.0 == o.0 - Sign(o.0) && Sign(o'.0) == Sign(o.0);
          StepsAlongAxis(o', n - 1);
        }
      } else if o.1 != 0 {
        if n > 1 {
          assert o'.1 == o.1 - Sign(o.1) && Sign(o'.1) == Sign(o.1);
          StepsAlongAxis(o', n - 1);
        }
      }
    }
  }

  /** A leg lasts exactly 32 calls: the offset is not spent after fewer, and is spent after 32. */
  lemma LegLasts32(i: nat, k: nat)
    requires i < |Directions|
    ensures k < 32 ==> Steps(Directions[i], k) != (0, 0)
    ensures Steps(Directions[i], 32) == (0, 0)
  {
    if k < 32 {
      StepsAlongAxis(Directions[i], k);
    }
    StepsAlongAxis(Directions[i], 32);
  }

  /** The wander action's per-entity offsets, keyed by object identity as `_move_states` is. */
  class Wander {
    var moveStates: map<Entity, (int, int)>

    /** No entity has an offset yet. */
    constructor ()
      ensures moveStates == map[]
    {
      moveStates := map[];
    }

    /** The offset a call works from: the stored one, or the picked leg when there is none or it is spent. */
    function Current(e: Entity, pick: nat): (o: (int, int))
      reads this
      requires pick < |Directions|
      ensures o != (0, 0)
    {
      if e in moveStates && moveStates[e] != (0, 0) then moveStates[e] else Directions[pick]
    }

    /**
     * `a1fun(entity, map)`: an entity at hp 0 or less is killed, and the call goes on regardless. The
     * working offset (`Current`, with `pick` standing for `random.choice`) loses one pixel on x, or
     * else on y, whether or not `move` lets the one-pixel step through; the facing follows the step.
     * The step is the whole one-pixel step or none; when no kill came first, which one is decided by
     * `move`'s test on the world as it was.
     */
    method A1Fun(e: Entity, w: World, col: TileLookup, pick: nat)
      requires w.Valid() && e.stats != null && "hp" in e.stats.values && pick < |Directions|
      modifies this, e`posx, e`posy, e`facing
      modifies w, w.entities`id, w.projectiles`id, w.players`id, w.breakables`id, w.items`id
      ensures w.Valid()
      ensures w.Snapshot() == if old(e.stats.values["hp"]) <= 0.0
        then old(w.Snapshot()).Without(KillTarget(e.kind), old(e.id)) else old(w.Snapshot())
      ensures moveStates == old(moveStates)[e := StepOffset(old(Current(e, pick)))]
      ensures e.facing == Facing(old(Current(e, pick)))
      ensures var s := UnitStep(old(Current(e, pick)));
        (e.posx, e.posy) == (old(e.posx), old(e.posy)) || (e.posx, e.posy) == (old(e.posx) + s.0, old(e.posy) + s.1)
      ensures old(e.stats.values["hp"]) > 0.0 ==>
        var s := UnitStep(old(Current(e, pick)));
        (e.posx, e.posy) == if FootBlocked(col, old(e.posx) + s.0, old(e.posy) + s.1, e.sizex, e.sizey) ||
                               old(e.BreakableInTheWay(w, e.posx + s.0, e.posy + s.1))
                            then (old(e.posx), old(e.posy)) else (old(e.posx) + s.0, old(e.posy) + s.1)
    {
      var o := Current(e, pick);
      if e.stats.values["hp"] <= 0.0 {
        KillThenWalk(e, w, col, o);
      } else {
        Walk(e, w, col, o);
      }
    }

    /** The kill branch of `a1fun`: the entity leaves its registry, then takes its step regardless. */
    method KillThenWalk(e: Entity, w: World, col: TileLookup, o: (int, int))
      requires w.Valid() && o != (0, 0)
      modifies this, e`posx, e`posy, e`facing
      modifies w, w.entities`id, w.projectiles`id, w.players`id, w.breakables`id, w.items`id
      ensures w.Valid()
      ensures w.Snapshot() == old(w.Snapshot()).Without(KillTarget(e.kind), old(e.id))
      ensures moveStates == old(moveStates)[e := StepOffset(o)]
      ensures e.facing == Facing(o)
      ensures var s := UnitStep(o);
        (e.posx, e.posy) == (old(e.posx), old(e.posy)) || (e.posx, e.posy) == (old(e.posx) + s.0, old(e.posy) + s.1)
    {
      e.Kill(w);
      Walk(e, w, col, o);
    }

    /**
     * The movement part of `a1fun`, after the hp check: one pixel along the working offset. The
     * stored offset (a list mutated in place) is written back once, after the move.
     */
    method Walk(e: Entity, w: World, col: TileLookup, o: (int, int))
      requires w.Valid() && o != (0, 0)
      modifies this, e`posx, e`posy, e`facing
      ensures w.Valid()
      ensures moveStates == old(moveStates)[e := StepOffset(o)]
      ensures e.facing == Facing(o)
      ensures var s := UnitStep(o);
        (e.posx, e.posy) == if FootBlocked(col, old(e.posx) + s.0, old(e.posy) + s.1, e.sizex, e.sizey) ||
                               old(e.BreakableInTheWay(w, e.posx + s.0, e.posy + s.1))
                            then (old(e.posx), old(e.posy)) else (old(e.posx) + s.0, old(e.posy) + s.1)
    {
      if o.0 != 0 {
        var stepX := if o.0 > 0 then 1 else -1;
        e.facing := if stepX > 0 then "right" else "left";
        e.Move(w, stepX, 0, col);
        moveStates := moveStates[e := (o.0 - stepX, o.1)];
      } else {
        var stepY := if o.1 > 0 then 1 else -1;
        e.facing := if stepY > 0 then "down" else "up";
        e.Move(w, 0, stepY, col);
        moveStates := moveStates[e := (o.0, o.1 - stepY)];
      }
    }
  }

  /** The one-pixel step a wander call takes for a working offset: along x while it lasts, else along y. */
  function UnitStep(o: (int, int)): (s: (int, int))
    ensures o.0 != 0 ==> s == (Sign(o.0), 0)
    ensures o.0 == 0 ==> s == (0, Sign(o.1))
  {
    if o.0 != 0 then (Sign(o.0), 0) else (0, Sign(o.1))
  }

  /** The facing a wander call leaves for a working offset. */
  function Facing(o: (int, int)): string {
    if o.0 != 0 then (if o.0 > 0 then "right" else "left") else (if o.1 > 0 then "down" else "up")
  }

  /** `animBombastic(entity, map)`: animation row 1 facing left, 0 facing right, unchanged for any other facing. */
  method AnimBombastic(e: Entity)
    modifies e`anim
    ensures old(e.facing) == "left" ==> e.anim == 1
    ensures old(e.facing) == "right" ==> e.anim == 0
    ensures old(e.facing) != "left" && old(e.facing) != "right" ==> e.anim == old(e.anim)
  {
    if e.facing == "left" {
      e.anim := 1;
    } else if e.facing == "right" {
      e.anim := 0;
    }
  }

  /** The names the `actions` registry holds. */
  const ActionNames: set<string> := {"andar", "animBombastic"}

  /** Looking a name up in `actions` and calling what it finds; `found` is false for a name it lacks. */
  method RunAction(name: string, wander: Wander, e: Entity, w: World, col: TileLookup, pick: nat) returns (found: bool)
    requires w.Valid() && e.stats != null && "hp" in e.stats.values && pick < |Directions|
    modifies wander, e`posx, e`posy, e`facing, e`anim
    modifies w, w.entities`id, w.projectiles`id, w.players`id, w.breakables`id, w.items`id
    ensures w.Valid()
    ensures found <==> name in ActionNames
    ensures !found ==> w.Snapshot() == old(w.Snapshot()) && wander.moveStates == old(wander.moveStates)
  {
    if name == "andar" {
      wander.A1Fun(e, w, col, pick);
      return true;
    } else if name == "animBombastic" {
      AnimBombastic(e);
      return true;
    }
    return false;
  }

  /** The stamp an entity id's timer counts from: the recorded one, or 0 for an id never seen. */
  function Stamp(lastTime: map<int, real>, id: int): (t: real)
    ensures id !in lastTime ==> t == 0.0
    ensures id in lastTime ==> t == lastTime[id]
  {
    if id in lastTime then lastTime[id] else 0.0
  }

  /** The two-second timer for an id fires at `now` when at least 2 s have passed since its stamp. */
  predicate Fires(lastTime: map<int, real>, id: int, now: real) {
    now - Stamp(lastTime, id) >= 2.0
  }

  /**
   * Monostable: after the timer fired at `now1` and took that stamp, it fires again at `now2`
   * exactly when `now2` is at least 2 s later; every other id's timer is unaffected.
   */
  lemma Monostable(lastTime: map<int, real>, id: int, now1: real, now2: real, other: int)
    requires Fires(lastTime, id, now1)
    requires other != id
    ensures Fires(lastTime[id := now1], id, now2) <==> now2 - now1 >= 2.0
    ensures Fires(lastTime[id := now1], other, now2) == Fires(lastTime, other, now2)
  {
  }

  /** The condition state: `_last_time_timer_2s_map`, the last firing time per entity id. */
  class Timers {
    var lastTime: map<int, real>

    /** No timer has fired yet. */
    constructor ()
      ensures lastTime == map[]
    {
      lastTime := map[];
    }

    /**
     * `timer_2s(entity, map)` at clock reading `now`: false for no entity; otherwise it fires when
     * `Fires` holds and only then records `now` as the id's stamp. The stamp is keyed by the entity's
     * current id, so after renumbering an entity inherits the stamp of whoever held its id before.
     */
    method Timer2s(e: Entity?, now: real) returns (r: bool)
      modifies this
      ensures e == null ==> !r && lastTime == old(lastTime)
      ensures e != null ==> (r <==> Fires(old(lastTime), e.id, now))
      ensures e != null ==> lastTime == if r then old(lastTime)[e.id := now] else old(lastTime)
    {
      if e == null {
        return false;
      }
      var last := if e.id in lastTime then lastTime[e.id] else 0.0;
      if now - last >= 2.0 {
        lastTime := lastTime[e.id := now];
        return true;
      }
      return false;
    }
  }

  /** `default(entity, map)`: always true. */
  function Default(e: Entity?): (r: bool)
    ensures r
  {
    true
  }

  /** The names the `conditions` registry holds. */
  const ConditionNames: set<string> := {"timer-andar", "sem-condicao"}

  /** Looking a name up in `conditions` and calling what it finds; `found` is false for a name it lacks. */
  method RunCondition(name: string, timers: Timers, e: Entity?, now: real) returns (found: bool, r: bool)
    modifies timers
    ensures found <==> name in ConditionNames
    ensures name == "sem-condicao" ==> r
    ensures name == "timer-andar" ==> (r <==> e != null && Fires(old(timers.lastTime), e.id, now))
    ensures name != "timer-andar" ==> timers.lastTime == old(timers.lastTime)
  {
    if name == "timer-andar" {
      r := timers.Timer2s(e, now);
      return true, r;
    } else if name == "sem-condicao" {
      return true, Default(e);
    }
    return false, false;
  }
}
