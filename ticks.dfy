/**
 * The per-frame run of the mob registry (core/entity.py, `EControl.run`): a `for` loop over
 * `enumerate(EControl.Entities)` that calls each entity's `run`. A mob runs `Entity.run`; a
 * projectile, which `Weapon.atack` registers in the same list, runs `Projectile.run`. Either may
 * call `kill`, which removes from the very list being iterated, and Python's index then moves on
 * past the entity that slid into the freed place.
 */
module Ticks {
  import opened Common
  import opened World
  import opened Projectiles
  import Stats

  /** Every registry of `h` holds only entities the same registry of `g` held, and is no longer. */
  predicate Within(h: Registries, g: Registries) {
    (forall r :: |h.Get(r)| <= |g.Get(r)|) &&
    (forall r, x :: x in h.Get(r) ==> x in g.Get(r))
  }

  /** Up to two `rem`s of the id `k + 1` leave every registry within what it was, and the list of `EControl` as `PassRemoves` says. */
  lemma Removals(g: Registries, h: Registries, r: Registry, k: nat)
    requires h == g || h == g.Without(r, k + 1) || h == g.Without(r, k + 1).Without(r, k + 1)
    ensures Within(h, g) && PassRemoves(g.entities, h.entities, k)
  {
    WithoutShrinks(g, r, k + 1);
    WithoutShrinks(g.Without(r, k + 1), r, k + 1);
    assert g.Get(EControl) == g.entities;
  }

  /** A registry state within `g0` is framed by `g0`'s members and stat tables, and its mobs have an `hp`. */
  lemma TurnFrame(h: Registries, g0: Registries)
    requires Within(h, g0) && Runnable(g0.entities)
    ensures Members(h) <= Members(g0) && StatsOf(h.entities) <= StatsOf(g0.entities)
    ensures MobsHaveHp(h.entities)
  {
    WithinParts(h, g0);
    StatsOfWithin(h.entities, g0.entities);
    assert forall j :: 0 <= j < |h.entities| ==> h.entities[j] in g0.entities;
  }

  /** The entities of all registries of `g`, as a frame. */
  function Members(g: Registries): set<Entity> {
    (set x | x in g.entities) + (set x | x in g.projectiles) + (set x | x in g.players) +
    (set x | x in g.breakables) + (set x | x in g.items)
  }

  /** A `rem` leaves every registry within what it was. */
  lemma WithoutShrinks(g: Registries, r: Registry, id: int)
    ensures Within(g.Without(r, id), g)
  {
    RemoveIdSubset(g.Get(r), id);
  }

  /** `Within`, registry by registry. */
  lemma WithinParts(h: Registries, g: Registries)
    requires Within(h, g)
    ensures forall x :: x in h.entities ==> x in g.entities
    ensures forall x :: x in h.projectiles ==> x in g.projectiles
    ensures forall x :: x in h.players ==> x in g.players
    ensures forall x :: x in h.breakables ==> x in g.breakables
    ensures forall x :: x in h.items ==> x in g.items
  {
    assert h.Get(EControl) == h.entities && g.Get(EControl) == g.entities;
    assert h.Get(PrjControl) == h.projectiles && g.Get(PrjControl) == g.projectiles;
    assert h.Get(PControl) == h.players && g.Get(PControl) == g.players;
    assert h.Get(BrControl) == h.breakables && g.Get(BrControl) == g.breakables;
    assert h.Get(ItControl) == h.items && g.Get(ItControl) == g.items;
  }

  /** The stat tables of a part of a registry are among those of the registry. */
  lemma StatsOfWithin(a: seq<Entity>, b: seq<Entity>)
    requires forall x :: x in a ==> x in b
    ensures StatsOf(a) <= StatsOf(b)
  {
    forall s | s in StatsOf(a)
      ensures s in StatsOf(b)
    {
      var k :| 0 <= k < |a| && a[k].stats != null && a[k].stats == s;
      assert a[k] in a;
      var j :| 0 <= j < |b| && b[j] == a[k];
    }
  }

  /**
   * One pass of the loop, at index `k` of the list `before`: the entity it ran removed nothing,
   * itself (it holds the id `k + 1`), or itself and then, killed a second time under the same id,
   * the entity that took that id.
   */
  predicate PassRemoves(before: seq<Entity>, after: seq<Entity>, k: nat) {
    after == before || after == RemoveId(before, k + 1) || after == RemoveId(RemoveId(before, k + 1), k + 1)
  }

  /**
   * The record of a run of the loop: `lists[k]` is the list when pass `k` starts, pass `k` runs
   * its entry at index `k`, and what the pass removes is described by `PassRemoves`.
   */
  predicate Passes(lists: seq<seq<Entity>>, visited: seq<Entity>) {
    |lists| == |visited| + 1 &&
    forall k :: 0 <= k < |visited| ==>
      k < |lists[k]| && visited[k] == lists[k][k] && PassRemoves(lists[k], lists[k + 1], k)
  }

  /** The registry's entities with stats have an `hp` and a `maxHp`, and its mobs have stats. */
  predicate Runnable(es: seq<Entity>)
    reads set x | x in es && x.stats != null :: x.stats
  {
    forall x :: x in es ==>
      (x.kind == "mob" ==> x.stats != null) &&
      (x.stats != null ==> "hp" in x.stats.values && "maxHp" in x.stats.values)
  }

  /**
   * What a mob's pass reads and writes of the entity it runs: its id, position, dash flag, damage
   * timer and blink count, its stat values and active effects (empty without stats), and all five
   * registries.
   */
  datatype MobLook = MobLook(id: int, posx: int, posy: int, dashing: bool, timer: real, blink: int,
                             values: map<string, real>, effects: seq<Stats.Effect>, regs: Registries)

  /** The look of `e` with the registries `g`. */
  function MobLookOf(e: Entity, g: Registries): MobLook
    reads e, e.stats
  {
    MobLook(e.id, e.posx, e.posy, e.dashing, e.damageEffectTimer, e.damageBlinkCount,
            if e.stats == null then map[] else e.stats.values,
            if e.stats == null then [] else e.stats.activeEffects, g)
  }

  /**
   * `Entity.run` took `e` from `a` to `b`: without stats only the damage timer decays; with stats
   * the abyss and trap hazards of the foot row, unless dashing, take their hp, restart the damage
   * effect, send the entity back to its start on abyss, and `kill` it from its type's registry
   * when its hp reaches 0.
   */
  ghost predicate MobRan(e: Entity, a: MobLook, b: MobLook, col: TileLookup, trapDamage: real) {
    b.id == a.id && b.dashing == a.dashing &&
    if e.stats == null then
      b.posx == a.posx && b.posy == a.posy && b.timer == Decay(a.timer) && b.blink == a.blink &&
      b.regs == a.regs
    else
      "hp" in a.values && "maxHp" in a.values &&
      var abyss := FootAll(col, a.posx, a.posy, e.sizex, e.sizey, 2) && !a.dashing;
      var trap := FootAll(col, a.posx, a.posy, e.sizex, e.sizey, 3) && !a.dashing;
      var hp1 := if abyss then a.values["hp"] - AbyssDamage(a.values["maxHp"]) as real else a.values["hp"];
      var hp2 := if trap then hp1 - trapDamage else hp1;
      var afterAbyss := if abyss && hp1 <= 0.0 then a.regs.Without(KillTarget(e.kind), a.id) else a.regs;
      b.values == a.values["hp" := hp2] && b.effects == a.effects &&
      (if abyss then b.posx == e.prevPosx && b.posy == e.prevPosy else b.posx == a.posx && b.posy == a.posy) &&
      b.timer == (if abyss || trap then e.damageEffectDuration else Decay(a.timer)) &&
      b.blink == (if abyss || trap then 0 else a.blink) &&
      b.regs == if trap && hp2 <= 0.0 then afterAbyss.Without(KillTarget(e.kind), a.id) else afterAbyss
  }

  /**
   * What a projectile's pass reads and writes: its body's id and position, its time, penetration
   * and hit list, the registry as its scan sees it, and all five registries.
   */
  datatype ShotLook = ShotLook(id: int, posx: int, posy: int, time: int, penetration: int,
                               hit: seq<int>, view: seq<Body>, regs: Registries)

  /** The look of `p` with the scan's view `v` and the registries `g`. */
  function ShotLookOf(p: Projectile, v: seq<Body>, g: Registries): ShotLook
    reads p, p.body
  {
    ShotLook(p.body.id, p.body.posx, p.body.posy, p.time, p.penetration, p.alreadyHit, v, g)
  }

  /**
   * `Projectile.run` took `p` from `a` to `b`, its scan stopping at `c`: without a behaviour
   * nothing changes; at time 0 or less the body is killed in place; otherwise it moves by
   * `dir * speed`, counts down, and a mob at the scan's stop goes from the stat values `t0` to `t1`
   * with `damage` less hp, while the projectile loses a penetration, records the mob, and is killed
   * at penetration 0 or less.
   */
  ghost predicate ShotRan(p: Projectile, a: ShotLook, b: ShotLook, c: Option<nat>,
                          t0: map<string, real>, t1: map<string, real>) {
    var killed := a.regs.Without(KillTarget(p.body.kind), a.id);
    if p.behavior.None? then
      b.posx == a.posx && b.posy == a.posy && b.time == a.time && b.penetration == a.penetration &&
      b.hit == a.hit && b.regs == a.regs && c == None
    else if a.time <= 0 then
      b.posx == a.posx && b.posy == a.posy && b.time == a.time && b.penetration == a.penetration &&
      b.hit == a.hit && b.regs == killed && c == None
    else
      b.posx == a.posx + p.dirx * p.speed && b.posy == a.posy + p.diry * p.speed && b.time == a.time - 1 &&
      StopsAt(a.view, a.id, a.hit, b.posx, b.posy, p.body.sizex, p.body.sizey, c) &&
      if c.Some? && a.view[c.value].kind == "mob" then
        "hp" in t0 && t1 == t0["hp" := t0["hp"] - p.damage] &&
        b.penetration == a.penetration - 1 && b.hit == a.hit + [a.view[c.value].id] &&
        b.regs == (if b.penetration <= 0 then killed else a.regs)
      else
        b.penetration == a.penetration && b.hit == a.hit && b.regs == a.regs
  }

  /** A projectile's pass removes nothing or its own body, and its scan stops inside the view. */
  lemma ShotRemoves(p: Projectile, a: ShotLook, b: ShotLook, c: Option<nat>, t0: map<string, real>, t1: map<string, real>)
    requires ShotRan(p, a, b, c, t0, t1)
    ensures b.regs == a.regs || b.regs == a.regs.Without(KillTarget(p.body.kind), a.id)
    ensures c.Some? ==> c.value < |a.view|
  {
  }

  /** The record of one pass: `Entity.run` on a mob, or `Projectile.run` on the projectile `shot`. */
  datatype Pass =
    | MobPass(before: MobLook, after: MobLook)
    | ShotPass(shot: Projectile, sbefore: ShotLook, safter: ShotLook, stop: Option<nat>,
               t0: map<string, real>, t1: map<string, real>)
  {
    /** The registries when the pass starts. */
    function RegsBefore(): Registries {
      if MobPass? then before.regs else sbefore.regs
    }

    /** The registries when the pass ends. */
    function RegsAfter(): Registries {
      if MobPass? then after.regs else safter.regs
    }

    /** The id of the entity run, when the pass starts. */
    function IdBefore(): int {
      if MobPass? then before.id else sbefore.id
    }
  }

  /**
   * The pass `r` ran the entity `x` as `EControl.run` dispatches it: through `Projectile.run` when
   * `x` is the body of one of `shots`, and through `Entity.run` otherwise.
   */
  ghost predicate Ran(x: Entity, r: Pass, shots: seq<Projectile>, col: TileLookup, trapDamage: real) {
    match r
    case MobPass(a, b) => (forall p :: p in shots ==> p.body != x) && MobRan(x, a, b, col, trapDamage)
    case ShotPass(p, a, b, c, t0, t1) => p in shots && p.body == x && ShotRan(p, a, b, c, t0, t1)
  }

  /** `Entity.run` on `e`, with the looks of `e` before and after it. */
  method StepMob(w: World, e: Entity, col: TileLookup, trapDamage: real) returns (ghost a: MobLook, ghost b: MobLook)
    requires w.Valid() && (e.stats != null ==> "hp" in e.stats.values && "maxHp" in e.stats.values)
    modifies e`damageEffectTimer, e`damageBlinkCount, e`posx, e`posy, e.stats
    modifies w, w.entities`id, w.projectiles`id, w.players`id, w.breakables`id, w.items`id
    ensures w.Valid() && e.id == old(e.id)
    ensures e.stats != null ==> e.stats.values.Keys == old(e.stats.values.Keys)
    ensures var g, r := old(w.Snapshot()), KillTarget(e.kind);
      w.Snapshot() == g || w.Snapshot() == g.Without(r, e.id) || w.Snapshot() == g.Without(r, e.id).Without(r, e.id)
    ensures a == old(MobLookOf(e, w.Snapshot())) && b == MobLookOf(e, w.Snapshot())
    ensures MobRan(e, a, b, col, trapDamage)
  {
    a := MobLookOf(e, w.Snapshot());
    e.Run(w, col, trapDamage);
    b := MobLookOf(e, w.Snapshot());
  }

  /** `Projectile.run` on `p`, with the looks of `p` before and after it and the struck mob's stat values. */
  method StepShot(w: World, p: Projectile)
      returns (ghost a: ShotLook, ghost b: ShotLook, ghost c: Option<nat>,
               ghost t0: map<string, real>, ghost t1: map<string, real>)
    requires w.Valid() && MobsHaveHp(w.entities)
    modifies p, p.body`posx, p.body`posy, StatsOf(w.entities)
    modifies w, w.entities`id, w.projectiles`id, w.players`id, w.breakables`id, w.items`id
    ensures w.Valid()
    ensures forall s :: s in old(StatsOf(w.entities)) ==> s.values.Keys == old(s.values.Keys)
    ensures a == old(ShotLookOf(p, View(w.entities), w.Snapshot()))
    ensures b == ShotLookOf(p, a.view, w.Snapshot())
    ensures ShotRan(p, a, b, c, t0, t1)
    ensures c.Some? && old(w.entities[c.value].kind) == "mob" ==>
      old(w.entities[c.value].stats) != null &&
      t0 == old(w.entities[c.value].stats.values) && t1 == old(w.entities[c.value].stats).values
  {
    a := ShotLookOf(p, View(w.entities), w.Snapshot());
    ghost var e0 := w.entities;
    c := p.Run(w);
    b := ShotLookOf(p, a.view, w.Snapshot());
    t0, t1 := map[], map[];
    if c.Some? && e0[c.value].kind == "mob" {
      t0, t1 := old(e0[c.value].stats.values), e0[c.value].stats.values;
    }
  }

  /** `StepMob` seen from the loop: the registries around the pass, what it can remove, and `MobRan`. */
  method MobTurn(w: World, e: Entity, col: TileLookup, trapDamage: real, ghost es: seq<Entity>)
      returns (ghost a: MobLook, ghost b: MobLook)
    requires w.Valid() && e in es && Runnable(es)
    modifies e`damageEffectTimer, e`damageBlinkCount, e`posx, e`posy, e.stats
    modifies w, w.entities`id, w.projectiles`id, w.players`id, w.breakables`id, w.items`id
    ensures w.Valid()
    ensures e.stats != null ==> e.stats.values.Keys == old(e.stats.values.Keys)
    ensures var g, r := old(w.Snapshot()), KillTarget(e.kind);
      w.Snapshot() == g || w.Snapshot() == g.Without(r, old(e.id)) ||
      w.Snapshot() == g.Without(r, old(e.id)).Without(r, old(e.id))
    ensures a.regs == old(w.Snapshot()) && b.regs == w.Snapshot() && a.id == old(e.id)
    ensures MobRan(e, a, b, col, trapDamage)
    ensures Runnable(es)
  {
    a, b := StepMob(w, e, col, trapDamage);
    forall x | x in es && x.stats != null
      ensures "hp" in x.stats.values && "maxHp" in x.stats.values
    {
      if x.stats == e.stats {
        assert x.stats.values.Keys == old(x.stats.values.Keys);
      }
    }
  }

  /** `StepShot` seen from the loop: the registries around the pass, the projectile's id, and `ShotRan`. */
  method ShotTurn(w: World, p: Projectile, ghost es: seq<Entity>)
      returns (ghost a: ShotLook, ghost b: ShotLook, ghost c: Option<nat>,
               ghost t0: map<string, real>, ghost t1: map<string, real>)
    requires w.Valid() && MobsHaveHp(w.entities) && Runnable(es)
    modifies p, p.body`posx, p.body`posy, StatsOf(w.entities)
    modifies w, w.entities`id, w.projectiles`id, w.players`id, w.breakables`id, w.items`id
    ensures w.Valid()
    ensures forall s :: s in old(StatsOf(w.entities)) ==> s.values.Keys == old(s.values.Keys)
    ensures a.regs == old(w.Snapshot()) && b.regs == w.Snapshot() && a.id == old(p.body.id)
    ensures ShotRan(p, a, b, c, t0, t1)
    ensures Runnable(es)
  {
    ghost var st := StatsOf(w.entities);
    a, b, c, t0, t1 := StepShot(w, p);
    forall x | x in es && x.stats != null
      ensures "hp" in x.stats.values && "maxHp" in x.stats.values
    {
      if x.stats in st {
        assert x.stats.values.Keys == old(x.stats.values.Keys);
      }
    }
  }

  /** A mob's turn of the loop: `Entity.run` on the entity at index `k`. */
  method RunMob(w: World, e: Entity, col: TileLookup, trapDamage: real, ghost k: nat, ghost g0: Registries)
      returns (ghost a: MobLook, ghost b: MobLook)
    requires w.Valid() && k < |w.entities| && w.entities[k] == e && Within(w.Snapshot(), g0)
    requires Runnable(g0.entities)
    modifies w, Members(g0), StatsOf(g0.entities)
    ensures w.Valid() && Within(w.Snapshot(), old(w.Snapshot()))
    ensures PassRemoves(old(w.entities), w.entities, k)
    ensures Runnable(g0.entities)
    ensures a.regs == old(w.Snapshot()) && b.regs == w.Snapshot()
    ensures a.id == k + 1 && MobRan(e, a, b, col, trapDamage)
  {
    ghost var g := w.Snapshot();
    assert g.Get(EControl) == w.entities && Dense(g.Get(EControl));
    assert e.id == k + 1;
    TurnFrame(g, g0);
    assert e.stats != null ==> e.stats in StatsOf(w.entities);
    a, b := MobTurn(w, e, col, trapDamage, g0.entities);
    Removals(g, w.Snapshot(), KillTarget(e.kind), k);
  }

  /** A projectile's turn of the loop: `Projectile.run` for the projectile whose body is at index `k`. */
  method RunShot(w: World, p: Projectile, ghost k: nat, ghost g0: Registries)
      returns (ghost a: ShotLook, ghost b: ShotLook, ghost c: Option<nat>,
               ghost t0: map<string, real>, ghost t1: map<string, real>)
    requires w.Valid() && k < |w.entities| && w.entities[k] == p.body && Within(w.Snapshot(), g0)
    requires Runnable(g0.entities)
    modifies w, Members(g0), StatsOf(g0.entities), p
    ensures w.Valid() && Within(w.Snapshot(), old(w.Snapshot()))
    ensures PassRemoves(old(w.entities), w.entities, k)
    ensures Runnable(g0.entities)
    ensures a.regs == old(w.Snapshot()) && b.regs == w.Snapshot()
    ensures a.id == k + 1 && ShotRan(p, a, b, c, t0, t1)
  {
    ghost var g := w.Snapshot();
    assert g.Get(EControl) == w.entities && Dense(g.Get(EControl));
    assert p.body.id == k + 1;
    TurnFrame(g, g0);
    a, b, c, t0, t1 := ShotTurn(w, p, g0.entities);
    ShotRemoves(p, a, b, c, t0, t1);
    Removals(g, w.Snapshot(), KillTarget(p.body.kind), k);
  }

  /**
   * One turn of the loop at index `k`: `Projectile.run` when the entity there is the body of one of
   * `shots`, `Entity.run` otherwise, and the record `r` of what the turn did.
   */
  method RunPass(w: World, e: Entity, shots: seq<Projectile>, col: TileLookup, trapDamage: real,
                 ghost k: nat, ghost g0: Registries) returns (ghost r: Pass)
    requires w.Valid() && k < |w.entities| && w.entities[k] == e && Within(w.Snapshot(), g0)
    requires Runnable(g0.entities)
    modifies w, Members(g0), StatsOf(g0.entities), set p | p in shots
    ensures w.Valid() && Within(w.Snapshot(), old(w.Snapshot()))
    ensures PassRemoves(old(w.entities), w.entities, k)
    ensures Runnable(g0.entities)
    ensures Ran(e, r, shots, col, trapDamage) && r.IdBefore() == k + 1
    ensures r.RegsBefore() == old(w.Snapshot()) && r.RegsAfter() == w.Snapshot()
  {
    if p :| p in shots && p.body == e {
      ghost var a, b, c, t0, t1 := RunShot(w, p, k, g0);
      r := ShotPass(p, a, b, c, t0, t1);
    } else {
      ghost var a, b := RunMob(w, e, col, trapDamage, k, g0);
      r := MobPass(a, b);
    }
  }

  /**
   * The passes of a run of the loop, one per visited entity: pass `k` ran `visited[k]` as `Ran`
   * says, that entity held the id `k + 1` when the pass started, and the registry list went from
   * `lists[k]` to `lists[k + 1]`.
   */
  ghost predicate Recorded(visited: seq<Entity>, lists: seq<seq<Entity>>, passes: seq<Pass>,
                           shots: seq<Projectile>, col: TileLookup, trapDamage: real) {
    |passes| == |visited| && |lists| == |visited| + 1 &&
    forall k :: 0 <= k < |visited| ==>
      Ran(visited[k], passes[k], shots, col, trapDamage) && passes[k].IdBefore() == k + 1 &&
      passes[k].RegsBefore().entities == lists[k] && passes[k].RegsAfter().entities == lists[k + 1]
  }

  /** The passes follow one another from the registries `g0` to the registries `g`. */
  ghost predicate Chained(passes: seq<Pass>, g0: Registries, g: Registries) {
    (|passes| == 0 ==> g == g0) &&
    (|passes| > 0 ==> passes[0].RegsBefore() == g0 && passes[|passes| - 1].RegsAfter() == g) &&
    forall k :: 0 < k < |passes| ==> passes[k].RegsBefore() == passes[k - 1].RegsAfter()
  }

  /** A finished pass extends the record of passes. */
  lemma RecordExtend(visited: seq<Entity>, lists: seq<seq<Entity>>, passes: seq<Pass>,
                     shots: seq<Projectile>, col: TileLookup, trapDamage: real,
                     x: Entity, r: Pass, g0: Registries, g: Registries, g': Registries)
    requires Recorded(visited, lists, passes, shots, col, trapDamage) && Chained(passes, g0, g)
    requires Ran(x, r, shots, col, trapDamage) && r.IdBefore() == |visited| + 1
    requires r.RegsBefore() == g && r.RegsAfter() == g' && g.entities == lists[|visited|]
    ensures Recorded(visited + [x], lists + [g'.entities], passes + [r], shots, col, trapDamage)
    ensures Chained(passes + [r], g0, g')
  {
    var v2, l2, p2 := visited + [x], lists + [g'.entities], passes + [r];
    forall k | 0 <= k < |v2|
      ensures Ran(v2[k], p2[k], shots, col, trapDamage) && p2[k].IdBefore() == k + 1 &&
        p2[k].RegsBefore().entities == l2[k] && p2[k].RegsAfter().entities == l2[k + 1]
    {
      if k < |visited| {
        assert v2[k] == visited[k] && p2[k] == passes[k] && l2[k] == lists[k] && l2[k + 1] == lists[k + 1];
      }
    }
  }

  /**
   * The state of the loop after the passes `visited`: the record `lists`/`passes` starts at the
   * list `e0` and registries `g0`, reaches the registries `g`, and every list in it is free of
   * repeats.
   */
  ghost predicate Trace(visited: seq<Entity>, lists: seq<seq<Entity>>, passes: seq<Pass>, e0: seq<Entity>,
                        g0: Registries, g: Registries, shots: seq<Projectile>, col: TileLookup, trapDamage: real) {
    Passes(lists, visited) && lists[0] == e0 && lists[|visited|] == g.entities &&
    (forall k :: 0 <= k < |lists| ==> Distinct(lists[k])) &&
    Recorded(visited, lists, passes, shots, col, trapDamage) && Chained(passes, g0, g)
  }

  /** The pass `r` on the entity `x` at the next index, from `g` to `g'`, extends the trace. */
  lemma TraceExtend(visited: seq<Entity>, lists: seq<seq<Entity>>, passes: seq<Pass>, e0: seq<Entity>,
                    g0: Registries, g: Registries, g': Registries, shots: seq<Projectile>,
                    col: TileLookup, trapDamage: real, x: Entity, r: Pass)
    requires Trace(visited, lists, passes, e0, g0, g, shots, col, trapDamage)
    requires |visited| < |g.entities| && g.entities[|visited|] == x
    requires Ran(x, r, shots, col, trapDamage) && r.IdBefore() == |visited| + 1
    requires r.RegsBefore() == g && r.RegsAfter() == g'
    requires PassRemoves(g.entities, g'.entities, |visited|) && Distinct(g'.entities)
    ensures Trace(visited + [x], lists + [g'.entities], passes + [r], e0, g0, g', shots, col, trapDamage)
  {
    PassesExtend(lists, visited, g'.entities);
    RecordExtend(visited, lists, passes, shots, col, trapDamage, x, r, g0, g, g');
    var l2 := lists + [g'.entities];
    forall k | 0 <= k < |l2|
      ensures Distinct(l2[k])
    {
      if k < |lists| {
        assert l2[k] == lists[k];
      }
    }
  }

  /**
   * `EControl.run(map)`: pass `i` runs the entity at index `i` of the list as it then stands, the
   * body of one of `shots` through that projectile's `run` and any other entity through
   * `Entity.run`; the loop ends once the index reaches the list's current length. The ghost
   * `lists` and `visited` record the passes, and `passes` what each did (`Recorded`), from the
   * registries at the start to those at the end (`Chained`); `NextIsSkipped` shows what a removal
   * costs.
   */
  method RunEntities(w: World, shots: seq<Projectile>, col: TileLookup, trapDamage: real)
      returns (ghost visited: seq<Entity>, ghost lists: seq<seq<Entity>>, ghost passes: seq<Pass>)
    requires w.Valid() && Runnable(w.entities)
    requires forall p, q :: p in shots && q in shots && p.body == q.body ==> p == q
    modifies w, Members(w.Snapshot()), StatsOf(w.entities), set p | p in shots
    ensures w.Valid() && Within(w.Snapshot(), old(w.Snapshot()))
    ensures Passes(lists, visited) && lists[0] == old(w.entities) && lists[|visited|] == w.entities
    ensures forall k :: 0 <= k < |lists| ==> Distinct(lists[k])
    ensures |w.entities| <= |visited|
    ensures Recorded(visited, lists, passes, shots, col, trapDamage)
    ensures Chained(passes, old(w.Snapshot()), w.Snapshot())
  {
    ghost var g0 := w.Snapshot();
    ghost var e0 := w.entities;
    assert Distinct(g0.Get(EControl));
    visited, lists, passes := [], [w.entities], [];
    var i := 0;
    while i < |w.entities|
      invariant w.Valid() && Within(w.Snapshot(), g0) && Runnable(e0)
      invariant |visited| == i && Trace(visited, lists, passes, e0, g0, w.Snapshot(), shots, col, trapDamage)
      decreases |w.entities| - i
    {
      var e := w.entities[i];
      ghost var g := w.Snapshot();
      ghost var r := RunPass(w, e, shots, col, trapDamage, i, g0);
      assert Distinct(w.Snapshot().Get(EControl));
      TraceExtend(visited, lists, passes, e0, g0, g, w.Snapshot(), shots, col, trapDamage, e, r);
      visited, lists, passes := visited + [e], lists + [w.entities], passes + [r];
      i := i + 1;
    }
  }

  /** A finished pass extends the record. */
  lemma PassesExtend(lists: seq<seq<Entity>>, visited: seq<Entity>, after: seq<Entity>)
    requires Passes(lists, visited)
    requires |visited| < |lists[|visited|]| && PassRemoves(lists[|visited|], after, |visited|)
    ensures Passes(lists + [after], visited + [lists[|visited|][|visited|]])
  {
    var l2, v2 := lists + [after], visited + [lists[|visited|][|visited|]];
    forall k | 0 <= k < |v2|
      ensures k < |l2[k]| && v2[k] == l2[k][k] && PassRemoves(l2[k], l2[k + 1], k)
    {
      if k < |visited| {
        assert l2[k] == lists[k] && l2[k + 1] == lists[k + 1];
      }
    }
  }

  /** With no removal at all, every entity of the list runs once, in order. */
  lemma {:induction false} NoRemovalRunsAll(lists: seq<seq<Entity>>, visited: seq<Entity>)
    requires Passes(lists, visited)
    requires forall k :: 0 <= k < |visited| ==> lists[k + 1] == lists[k]
    requires |lists[|visited|]| <= |visited|
    ensures visited == lists[0]
  {
    SameLists(lists, visited, |visited|);
    if |visited| > 0 {
      SameLists(lists, visited, |visited| - 1);
      assert |visited| - 1 < |lists[0]|;
    }
    forall k | 0 <= k < |visited|
      ensures visited[k] == lists[0][k]
    {
      SameLists(lists, visited, k);
    }
  }

  /** Helper of `NoRemovalRunsAll`: with no removal, every list of the record is the first one. */
  lemma {:induction false} SameLists(lists: seq<seq<Entity>>, visited: seq<Entity>, k: nat)
    requires Passes(lists, visited) && k <= |visited|
    requires forall j :: 0 <= j < |visited| ==> lists[j + 1] == lists[j]
    ensures lists[k] == lists[0]
    decreases k
  {
    if k > 0 {
      SameLists(lists, visited, k - 1);
    }
  }

  /**
   * The loop skips the entity right behind one that removed itself: when pass `k` takes its own
   * entity out of the list, the entity that followed it runs in no pass from `k` on.
   */
  lemma {:induction false} NextIsSkipped(lists: seq<seq<Entity>>, visited: seq<Entity>, k: nat)
    requires Passes(lists, visited) && k < |visited|
    requires k + 1 < |lists[k]| && Distinct(lists[k])
    requires lists[k + 1] == RemoveId(lists[k], k + 1)
    ensures forall j :: k <= j < |visited| ==> visited[j] != lists[k][k + 1]
  {
    var x := lists[k][k + 1];
    var s := lists[k + 1];
    forall t | 0 <= t < |s| && s[t] == x
      ensures t <= k
    {
      if t >= k {
        assert lists[k][t + 1] == x;
      }
    }
    assert Behind(s, x, k);
    forall j | k < j < |visited|
      ensures visited[j] != x
    {
      StaysBehind(lists, visited, k, x, j);
    }
  }

  /** Every occurrence of `x` in `s` is at an index of at most `k`. */
  predicate Behind(s: seq<Entity>, x: Entity, k: nat) {
    forall t :: 0 <= t < |s| && s[t] == x ==> t <= k
  }

  /** Helper of `NextIsSkipped`: removals at indices past `k` never move an entry to an index past `k`. */
  lemma {:induction false} StaysBehind(lists: seq<seq<Entity>>, visited: seq<Entity>, k: nat, x: Entity, j: nat)
    requires Passes(lists, visited) && k < j <= |visited|
    requires Behind(lists[k + 1], x, k)
    ensures Behind(lists[j], x, k)
    decreases j
  {
    if j > k + 1 {
      StaysBehind(lists, visited, k, x, j - 1);
      var s := lists[j - 1];
      RemoveIdShape(s, j);
      RemoveIdShape(RemoveId(s, j), j);
      assert PassRemoves(s, lists[j], j - 1);
      forall t | 0 <= t < |lists[j]| && lists[j][t] == x
        ensures t <= k
      {
        if lists[j] == s {
        } else if lists[j] == RemoveId(s, j) {
          if t < j - 1 { assert s[t] == x; }
        } else {
          var u := RemoveId(s, j);
          if t < j - 1 { assert u[t] == x; assert s[t] == x; }
        }
      }
    }
  }
}
