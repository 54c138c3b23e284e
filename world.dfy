/**
 * The client simulation's entities and their registries (core/entity.py): an entity moves by
 * whole steps that the tile map's foot row and the breakables can veto, takes hazard damage from
 * abyss and trap tiles, and on death leaves the registry its type names. The five class-level
 * registries of the source are the five sequences of one `World`, whose ids are always 1..n.
 */
module World {
  import opened Common
  import Stats

  /** The five registries: `EControl.Entities`, `PrjControl.Projectiles`, `PControl.Players`, `BrControl.Breakables`, `ItControl.items`. */
  datatype Registry = EControl | PrjControl | PControl | BrControl | ItControl

  /** The contents of all five registries at one moment. */
  datatype Registries = Registries(
    entities: seq<Entity>, projectiles: seq<Entity>, players: seq<Entity>,
    breakables: seq<Entity>, items: seq<Entity>)
  {
    /** The sequence of one registry. */
    function Get(r: Registry): seq<Entity> {
      match r
      case EControl => entities
      case PrjControl => projectiles
      case PControl => players
      case BrControl => breakables
      case ItControl => items
    }

    /** The same registries with `s` as the sequence of `r`. */
    function Put(r: Registry, s: seq<Entity>): (t: Registries)
      ensures t.Get(r) == s
      ensures forall r' :: r' != r ==> t.Get(r') == Get(r')
    {
      match r
      case EControl => this.(entities := s)
      case PrjControl => this.(projectiles := s)
      case PControl => this.(players := s)
      case BrControl => this.(breakables := s)
      case ItControl => this.(items := s)
    }

    /** `rem(id)` on registry `r`, with ids 1..n: the `id`-th entity leaves, the others keep their order. */
    function Without(r: Registry, id: int): (t: Registries)
      ensures t.Get(r) == RemoveId(Get(r), id)
      ensures forall r' :: r' != r ==> t.Get(r') == Get(r')
    {
      Put(r, RemoveId(Get(r), id))
    }

    /** Every registered entity, registry after registry. */
    function All(): seq<Entity> {
      entities + projectiles + players + breakables + items
    }
  }

  /** The sequence without its `id`-th element (1-based); an id outside 1..n leaves it unchanged. */
  function RemoveId<T>(s: seq<T>, id: int): seq<T>
  {
    if 1 <= id <= |s| then s[..id - 1] + s[id..] else s
  }

  /** Removing by id shortens the sequence by one exactly when the id is in 1..n, and keeps the order of the rest. */
  lemma RemoveIdShape<T>(s: seq<T>, id: int)
    ensures 1 <= id <= |s| ==> (|RemoveId(s, id)| == |s| - 1 &&
      (forall j :: 0 <= j < id - 1 ==> RemoveId(s, id)[j] == s[j]) &&
      (forall j :: id - 1 <= j < |s| - 1 ==> RemoveId(s, id)[j] == s[j + 1]))
    ensures !(1 <= id <= |s|) ==> RemoveId(s, id) == s
  {
  }

  /** Removing an element leaves only elements of the sequence. */
  lemma RemoveIdSubset<T>(s: seq<T>, id: int)
    ensures forall x :: x in RemoveId(s, id) ==> x in s
  {
  }

  /** After a removal every registry holds only entities it held before. */
  lemma WithoutWithin(g: Registries, r: Registry, id: int)
    ensures var h := g.Without(r, id);
      (forall k :: 0 <= k < |h.entities| ==> h.entities[k] in g.entities) &&
      (forall k :: 0 <= k < |h.projectiles| ==> h.projectiles[k] in g.projectiles) &&
      (forall k :: 0 <= k < |h.players| ==> h.players[k] in g.players) &&
      (forall k :: 0 <= k < |h.breakables| ==> h.breakables[k] in g.breakables) &&
      (forall k :: 0 <= k < |h.items| ==> h.items[k] in g.items)
  {
    RemoveIdSubset(g.Get(r), id);
  }

  /** In a sequence without repeats, removing the `id`-th element removes exactly that element. */
  lemma RemoveIdMembers<T>(s: seq<T>, id: int, x: T)
    requires forall i, j :: 0 <= i < j < |s| ==> s[i] != s[j]
    requires 1 <= id <= |s|
    ensures x in RemoveId(s, id) <==> x in s && x != s[id - 1]
  {
    if x in s && x != s[id - 1] {
      var k :| 0 <= k < |s| && s[k] == x;
      if k < id - 1 { assert RemoveId(s, id)[k] == x; } else { assert RemoveId(s, id)[k - 1] == x; }
    }
    if x in RemoveId(s, id) {
      var k :| 0 <= k < |RemoveId(s, id)| && RemoveId(s, id)[k] == x;
      if k < id - 1 { assert s[k] == x; } else { assert s[k + 1] == x; }
    }
  }

  /** The registry `kill` removes an entity from, chosen by its `type`. */
  function KillTarget(kind: string): (r: Registry)
    ensures kind == "player" <==> r == PControl
    ensures kind == "breakable" <==> r == BrControl
    ensures kind != "player" && kind != "breakable" <==> r == EControl
  {
    if kind == "player" then PControl else if kind == "breakable" then BrControl else EControl
  }

  /** An axis-aligned box in pixels. */
  datatype Box = Box(left: int, top: int, width: int, height: int)

  /** The strict overlap test `move` uses against breakables: touching edges do not overlap. */
  predicate Overlaps(a: Box, b: Box) {
    a.left + a.width > b.left && a.left < b.left + b.width &&
    a.top + a.height > b.top && a.top < b.top + b.height
  }

  /** The tile map as `move` and `run` see it: `check_col(x, y, layer)`, a collision class or `None`. */
  type TileLookup = (int, int, int) -> Option<int>

  /** Layer 0 or layer 1 gives the pixel collision class `c`. */
  predicate PixelIs(col: TileLookup, x: int, y: int, c: int) {
    col(x, y, 0) == Some(c) || col(x, y, 1) == Some(c)
  }

  /** The `dx`-th pixel of the foot row (the last row, `sizey - 1`) of a box at `(left, top)` has class `c` on some layer. */
  predicate FootPixelIs(col: TileLookup, left: int, top: int, sizey: int, dx: int, c: int) {
    PixelIs(col, left + dx, top + sizey - 1, c)
  }

  /** Some foot-row pixel reads collision class 1 on layer 0 or 1: `move` refuses the step. */
  predicate FootBlocked(col: TileLookup, left: int, top: int, sizex: int, sizey: int) {
    exists dx :: 0 <= dx < sizex && FootPixelIs(col, left, top, sizey, dx, 1)
  }

  /** Every foot-row pixel reads class `c` on some layer (2 is abyss, 3 is trap); with no columns this holds vacuously. */
  predicate FootAll(col: TileLookup, left: int, top: int, sizex: int, sizey: int, c: int) {
    forall dx :: 0 <= dx < sizex ==> FootPixelIs(col, left, top, sizey, dx, c)
  }

  /** A damage-effect timer one frame later: 1/60 s less, and never below 0. */
  function Decay(timer: real): (t: real)
    ensures timer > 0.0 ==> 0.0 <= t < timer
    ensures timer <= 0.0 ==> t == timer
  {
    if timer > 0.0 then (if timer - 1.0 / 60.0 <= 0.0 then 0.0 else timer - 1.0 / 60.0) else timer
  }

  /** Python's `int(v)`: truncation toward zero. */
  function Truncate(v: real): (n: int)
    ensures v >= 0.0 ==> n as real <= v < (n + 1) as real
    ensures v < 0.0 ==> (n - 1) as real < v <= n as real
  {
    if v >= 0.0 then v.Floor else -((-v).Floor)
  }

  /** The abyss penalty `int(maxHp * 0.1)`, raised to 1 when smaller. */
  function AbyssDamage(maxHp: real): (d: int)
    ensures d >= 1
    ensures maxHp >= 10.0 ==> d as real <= maxHp / 10.0 < (d + 1) as real
    ensures maxHp < 20.0 ==> d == 1
  {
    var d := Truncate(maxHp * 0.1);
    if d < 1 then 1 else d
  }

  /** A game object: position and size in pixels, its `type` tag, a `Status` when it has stats, and the damage-effect state. */
  class Entity {
    var id: int
    var posx: int
    var posy: int
    const sizex: int
    const sizey: int
    const kind: string
    var facing: string
    var anim: int
    const stats: Stats.Status?
    var dashing: bool
    var damageEffectTimer: real
    const damageEffectDuration: real
    var damageBlinkCount: int
    const prevPosx: int
    const prevPosy: int

    /** `Entity(id, x, y, sizex, sizey, texture, type)`: the abyss return point is the starting position, facing left, no damage effect. */
    constructor (id: int, x: int, y: int, sizex: int, sizey: int, kind: string, stats: Stats.Status?)
      ensures this.id == id && posx == x && posy == y && this.sizex == sizex && this.sizey == sizey
      ensures this.kind == kind && this.stats == stats && !dashing
      ensures facing == "left" && anim == 0
      ensures damageEffectTimer == 0.0 && damageEffectDuration == 0.8 && damageBlinkCount == 0
      ensures prevPosx == x && prevPosy == y
    {
      this.id := id;
      posx, posy := x, y;
      this.sizex, this.sizey := sizex, sizey;
      this.kind := kind;
      this.stats := stats;
      dashing := false;
      facing := "left";
      anim := 0;
      damageEffectTimer := 0.0;
      damageEffectDuration := 0.8;
      damageBlinkCount := 0;
      prevPosx, prevPosy := x, y;
    }

    /** The entity's box. */
    function Bounds(): Box
      reads this`posx, this`posy
    {
      Box(posx, posy, sizex, sizey)
    }

    /** `collision(x, y)`: the pixel lies in the half-open box `[posx, posx + sizex) x [posy, posy + sizey)`. */
    function Collision(x: int, y: int): (c: bool)
      reads this
      ensures c <==> Overlaps(Box(x, y, 1, 1), Bounds())
    {
      posx <= x < posx + sizex && posy <= y < posy + sizey
    }

    /** Some breakable other than this entity strictly overlaps the box at `(left, top)` of this entity's size. */
    ghost predicate BreakableInTheWay(w: World, left: int, top: int)
      reads w, w.breakables`posx, w.breakables`posy
    {
      exists k :: 0 <= k < |w.breakables| && w.breakables[k] != this &&
        Overlaps(Box(left, top, sizex, sizey), w.breakables[k].Bounds())
    }

    /**
     * `move(x, y, map)`: all or nothing. The step is refused when a pixel of the translated foot row
     * reads class 1 on layer 0 or 1 (only the foot row is sampled), or when the translated box
     * strictly overlaps a breakable other than this one; otherwise the whole step is taken.
     */
    method Move(w: World, x: int, y: int, col: TileLookup)
      requires w.Valid()
      modifies this`posx, this`posy
      ensures w.Valid()
      ensures var blocked := FootBlocked(col, old(posx) + x, old(posy) + y, sizex, sizey) ||
                             old(BreakableInTheWay(w, posx + x, posy + y));
        if blocked then posx == old(posx) && posy == old(posy)
        else posx == old(posx) + x && posy == old(posy) + y
    {
      var canMove := true;
      var newLeft := posx + x;
      var newTop := posy + y;
      var dy := sizey - 1;
      var dx := 0;
      while dx < sizex
        invariant 0 <= dx || sizex <= 0
        invariant canMove ==> forall k :: 0 <= k < dx ==> !FootPixelIs(col, newLeft, newTop, sizey, k, 1)
        invariant !canMove ==> FootBlocked(col, newLeft, newTop, sizex, sizey)
        decreases sizex - dx
      {
        var r := col(newLeft + dx, newTop + dy, 0);
        var r2 := col(newLeft + dx, newTop + dy, 1);
        if r == Some(1) || r2 == Some(1) {
          assert FootPixelIs(col, newLeft, newTop, sizey, dx, 1);
          canMove := false;
          break;
        }
        dx := dx + 1;
      }
      if canMove {
        var i := 0;
        while i < |w.breakables|
          invariant 0 <= i <= |w.breakables|
          invariant canMove ==> forall k :: 0 <= k < i && w.breakables[k] != this ==>
            !Overlaps(Box(newLeft, newTop, sizex, sizey), w.breakables[k].Bounds())
          invariant !canMove ==> BreakableInTheWay(w, newLeft, newTop)
        {
          var br := w.breakables[i];
          if br != this {
            var brLeft, brRight := br.posx, br.posx + br.sizex;
            var brTop, brBottom := br.posy, br.posy + br.sizey;
            if newLeft + sizex > brLeft && newLeft < brRight && newTop + sizey > brTop && newTop < brBottom {
              canMove := false;
              break;
            }
          }
          i := i + 1;
        }
      }
      if canMove {
        posx := posx + x;
        posy := posy + y;
      }
    }

    /** `kill()`: `rem(self.id)` on the registry the entity's `type` names; the entity keeps its id. */
    method Kill(w: World)
      requires w.Valid()
      modifies w, w.entities`id, w.projectiles`id, w.players`id, w.breakables`id, w.items`id
      ensures w.Valid()
      ensures w.Snapshot() == old(w.Snapshot()).Without(KillTarget(kind), old(id))
      ensures id == old(id)
    {
      w.Rem(KillTarget(kind), id);
    }

    /**
     * `take_damage(amount)`: no effect while dashing; otherwise hp drops by `amount` with no clamp,
     * the damage effect restarts, and the entity is killed exactly when hp is then at most 0.
     */
    method TakeDamage(w: World, amount: real)
      requires w.Valid() && stats != null && "hp" in stats.values
      modifies this`damageEffectTimer, this`damageBlinkCount, stats`values, w, w.entities`id, w.projectiles`id, w.players`id, w.breakables`id, w.items`id
      ensures w.Valid() && id == old(id)
      ensures dashing ==> (stats.values == old(stats.values) && damageEffectTimer == old(damageEffectTimer) &&
        damageBlinkCount == old(damageBlinkCount) && w.Snapshot() == old(w.Snapshot()))
      ensures !dashing ==> (stats.values == old(stats.values)["hp" := old(stats.values["hp"]) - amount] &&
        damageEffectTimer == damageEffectDuration && damageBlinkCount == 0 &&
        w.Snapshot() == if stats.values["hp"] <= 0.0 then old(w.Snapshot()).Without(KillTarget(kind), id) else old(w.Snapshot()))
    {
      if dashing {
        return;
      }
      stats.values := stats.values["hp" := stats.values["hp"] - amount];
      damageEffectTimer := damageEffectDuration;
      damageBlinkCount := 0;
      if stats.values["hp"] <= 0.0 {
        Kill(w);
      }
    }

    /**
     * The hazard part of `run(map)`: the damage timer decays; then, for an entity with stats that is
     * not dashing, a foot row that is all abyss (class 2) costs `AbyssDamage(maxHp)` and sends it back
     * to its starting position, and a foot row that is all trap (class 3) costs `trapDamage`.
     * A death in either step runs `kill`, and a second death runs it again with the same id.
     */
    method Run(w: World, col: TileLookup, trapDamage: real)
      requires w.Valid() && (stats != null ==> "hp" in stats.values && "maxHp" in stats.values)
      modifies this`damageEffectTimer, this`damageBlinkCount, this`posx, this`posy, stats, w, w.entities`id, w.projectiles`id, w.players`id, w.breakables`id, w.items`id
      ensures w.Valid() && id == old(id)
      ensures stats == null ==>
        posx == old(posx) && posy == old(posy) && damageEffectTimer == Decay(old(damageEffectTimer)) &&
        damageBlinkCount == old(damageBlinkCount) && w.Snapshot() == old(w.Snapshot())
      ensures stats != null ==>
        var abyss := FootAll(col, old(posx), old(posy), sizex, sizey, 2) && !dashing;
        var trap := FootAll(col, old(posx), old(posy), sizex, sizey, 3) && !dashing;
        var hp0 := old(stats.values["hp"]);
        var hp1 := if abyss then hp0 - AbyssDamage(old(stats.values["maxHp"])) as real else hp0;
        var hp2 := if trap then hp1 - trapDamage else hp1;
        var afterAbyss := if abyss && hp1 <= 0.0 then old(w.Snapshot()).Without(KillTarget(kind), id) else old(w.Snapshot());
        stats.values == old(stats.values)["hp" := hp2] &&
        stats.activeEffects == old(stats.activeEffects) &&
        (if abyss then posx == prevPosx && posy == prevPosy else posx == old(posx) && posy == old(posy)) &&
        damageEffectTimer == (if abyss || trap then damageEffectDuration else Decay(old(damageEffectTimer))) &&
        damageBlinkCount == (if abyss || trap then 0 else old(damageBlinkCount)) &&
        w.Snapshot() == if trap && hp2 <= 0.0 then afterAbyss.Without(KillTarget(kind), id) else afterAbyss
    {
      if damageEffectTimer > 0.0 {
        damageEffectTimer := damageEffectTimer - 1.0 / 60.0;
        if damageEffectTimer <= 0.0 {
          damageEffectTimer := 0.0;
        }
      }
      if stats != null {
        Hazards(w, col, trapDamage);
      }
    }

    /** The hazard checks of `run` for an entity with stats: abyss first, then trap, both read from the foot row before either applies. */
    method Hazards(w: World, col: TileLookup, trapDamage: real)
      requires w.Valid() && stats != null && "hp" in stats.values && "maxHp" in stats.values
      modifies this`damageEffectTimer, this`damageBlinkCount, this`posx, this`posy, stats`values
      modifies w, w.entities`id, w.projectiles`id, w.players`id, w.breakables`id, w.items`id
      ensures w.Valid() && id == old(id)
      ensures var abyss := FootAll(col, old(posx), old(posy), sizex, sizey, 2) && !dashing;
        var trap := FootAll(col, old(posx), old(posy), sizex, sizey, 3) && !dashing;
        var hp0 := old(stats.values["hp"]);
        var hp1 := if abyss then hp0 - AbyssDamage(old(stats.values["maxHp"])) as real else hp0;
        var hp2 := if trap then hp1 - trapDamage else hp1;
        var afterAbyss := if abyss && hp1 <= 0.0 then old(w.Snapshot()).Without(KillTarget(kind), id) else old(w.Snapshot());
        stats.values == old(stats.values)["hp" := hp2] &&
        (if abyss then posx == prevPosx && posy == prevPosy else posx == old(posx) && posy == old(posy)) &&
        damageEffectTimer == (if abyss || trap then damageEffectDuration else old(damageEffectTimer)) &&
        damageBlinkCount == (if abyss || trap then 0 else old(damageBlinkCount)) &&
        w.Snapshot() == if trap && hp2 <= 0.0 then afterAbyss.Without(KillTarget(kind), id) else afterAbyss
    {
      var abyss, trap := ScanFoot(col);
      if abyss && !dashing {
        ghost var g := w.Snapshot();
        AbyssStep(w);
        WithoutWithin(g, KillTarget(kind), id);
      }
      if trap && !dashing {
        TakeDamage(w, trapDamage);
      }
    }

    /** The abyss branch of `run`: the abyss penalty through `take_damage`, then back to the starting position. */
    method AbyssStep(w: World)
      requires w.Valid() && stats != null && "hp" in stats.values && "maxHp" in stats.values && !dashing
      modifies this`damageEffectTimer, this`damageBlinkCount, this`posx, this`posy, stats`values
      modifies w, w.entities`id, w.projectiles`id, w.players`id, w.breakables`id, w.items`id
      ensures w.Valid() && id == old(id)
      ensures stats.values == old(stats.values)["hp" := old(stats.values["hp"]) - AbyssDamage(old(stats.values["maxHp"])) as real]
      ensures posx == prevPosx && posy == prevPosy
      ensures damageEffectTimer == damageEffectDuration && damageBlinkCount == 0
      ensures w.Snapshot() == if stats.values["hp"] <= 0.0 then old(w.Snapshot()).Without(KillTarget(kind), id) else old(w.Snapshot())
    {
      var damage := AbyssDamage(stats.values["maxHp"]);
      TakeDamage(w, damage as real);
      posx := prevPosx;
      posy := prevPosy;
    }

    /** The foot-row scan of `run`: whether every foot pixel reads abyss (2), and whether every one reads trap (3), on layer 0 or 1. */
    method ScanFoot(col: TileLookup) returns (abyss: bool, trap: bool)
      ensures abyss <==> FootAll(col, posx, posy, sizex, sizey, 2)
      ensures trap <==> FootAll(col, posx, posy, sizex, sizey, 3)
    {
      abyss, trap := true, true;
      var dy := sizey - 1;
      var dx := 0;
      while dx < sizex
        invariant 0 <= dx <= if sizex < 0 then 0 else sizex
        invariant abyss <==> forall k :: 0 <= k < dx ==> FootPixelIs(col, posx, posy, sizey, k, 2)
        invariant trap <==> forall k :: 0 <= k < dx ==> FootPixelIs(col, posx, posy, sizey, k, 3)
        decreases sizex - dx
      {
        var r := col(posx + dx, posy + dy, 0);
        var r2 := col(posx + dx, posy + dy, 1);
        assert FootPixelIs(col, posx, posy, sizey, dx, 2) <==> r == Some(2) || r2 == Some(2);
        assert FootPixelIs(col, posx, posy, sizey, dx, 3) <==> r == Some(3) || r2 == Some(3);
        if r != Some(2) && r2 != Some(2) {
          abyss := false;
        }
        if r != Some(3) && r2 != Some(3) {
          trap := false;
        }
        dx := dx + 1;
      }
    }

    /**
     * `check_projectile()`: a dashing player ignores projectiles; otherwise the scan reads
     * `projectile.id_owner` of the first registered projectile, an attribute no projectile has, and
     * raises AttributeError (`raised`) whenever `PrjControl` holds any projectile. Nothing changes.
     */
    method CheckProjectile(w: World) returns (raised: bool)
      ensures raised <==> !(kind == "player" && dashing) && |w.projectiles| > 0
    {
      if kind == "player" && dashing {
        return false;
      }
      raised := |w.projectiles| > 0;
    }
  }

  /** A breakable obstacle: an entity in `BrControl` with a durability. */
  class Breakable {
    const body: Entity
    var durability: real

    /** `Breakable(...)`: a `breakable`-typed body with the given durability. */
    constructor (body: Entity, durability: real)
      requires body.kind == "breakable"
      ensures this.body == body && this.durability == durability
    {
      this.body := body;
      this.durability := durability;
    }

    /**
     * `take_damage(amount)`: durability drops by `amount`; at 0 or less `destroy` runs, which calls
     * `EControl.rem(self.id)`, so the entity with that id in `EControl` is removed while the breakable
     * itself stays in `BrControl`.
     */
    method TakeDamage(w: World, amount: real)
      requires w.Valid()
      modifies this`durability, w, w.entities`id, w.projectiles`id, w.players`id, w.breakables`id, w.items`id
      ensures w.Valid()
      ensures durability == old(durability) - amount
      ensures w.Snapshot() == if durability <= 0.0 then old(w.Snapshot()).Without(EControl, old(body.id)) else old(w.Snapshot())
    {
      durability := durability - amount;
      if durability <= 0.0 {
        Destroy(w);
      }
    }

    /** `destroy()`: `EControl.rem(self.id)`. */
    method Destroy(w: World)
      requires w.Valid()
      modifies w, w.entities`id, w.projectiles`id, w.players`id, w.breakables`id, w.items`id
      ensures w.Valid()
      ensures w.Snapshot() == old(w.Snapshot()).Without(EControl, old(body.id))
    {
      w.Rem(EControl, body.id);
    }
  }

  /** All five registries. Their ids are always 1..n in list order, and no entity is registered twice. */
  class World {
    var entities: seq<Entity>
    var projectiles: seq<Entity>
    var players: seq<Entity>
    var breakables: seq<Entity>
    var items: seq<Entity>

    /** The registries as a value. */
    function Snapshot(): Registries
      reads this
    {
      Registries(entities, projectiles, players, breakables, items)
    }

    /** The sequence of one registry. */
    function Get(r: Registry): seq<Entity>
      reads this
    {
      Snapshot().Get(r)
    }

    /** Every registered entity, registry after registry. */
    function All(): seq<Entity>
      reads this
    {
      Snapshot().All()
    }

    /** Ids are 1..n in list order, entities are not repeated in a registry, and no entity is in two registries. */
    ghost predicate Valid()
      reads this, entities`id, projectiles`id, players`id, breakables`id, items`id
    {
      RegistriesValid(Snapshot())
    }

    /** A world with all registries empty. */
    constructor ()
      ensures Valid()
      ensures Snapshot() == Registries([], [], [], [], [])
    {
      entities, projectiles, players, breakables, items := [], [], [], [], [];
      new;
      assert Snapshot().All() == [];
    }

    /** Replaces the sequence of one registry. */
    method SetRegistry(r: Registry, s: seq<Entity>)
      modifies this
      ensures Snapshot() == old(Snapshot()).Put(r, s)
    {
      match r
      case EControl => entities := s;
      case PrjControl => projectiles := s;
      case PControl => players := s;
      case BrControl => breakables := s;
      case ItControl => items := s;
    }

    /**
     * `add(e)`: `e.id = len + 1`, then append; the new id is returned (as `BrControl.add` does).
     * The entity must not be registered yet.
     */
    method Add(r: Registry, e: Entity) returns (newId: int)
      requires Valid() && e !in All()
      modifies this, e`id
      ensures Valid()
      ensures Snapshot() == old(Snapshot()).Put(r, old(Get(r)) + [e])
      ensures newId == e.id == |Get(r)|
    {
      ghost var g := Snapshot();
      var s := Get(r);
      e.id := |s| + 1;
      assert RegistriesValid(g);
      SetRegistry(r, s + [e]);
      newId := e.id;
      AddKeepsValid(g, r, e);
    }

    /**
     * `rem(id)`: finds the first entity with that id, removes it and renumbers the rest 1..n in list
     * order. With ids 1..n that is the `id`-th entity; an unknown id changes nothing. The removed
     * entity keeps its id.
     */
    method Rem(r: Registry, id: int)
      requires Valid()
      modifies this, Get(r)`id
      ensures Valid()
      ensures Snapshot() == old(Snapshot()).Without(r, id)
      ensures 1 <= id <= |old(Get(r))| ==> old(Get(r))[id - 1].id == id
    {
      var s := Get(r);
      assert Dense(s);
      var k := FindId(s, id);
      assert 1 <= id <= |s| ==> s[id - 1].id == id;
      if k < |s| {
        RemoveAndRenumber(r, k);
      }
    }

    /** The removal half of `rem`: the entity at index `k` leaves registry `r` and the survivors are renumbered. */
    method RemoveAndRenumber(r: Registry, k: int)
      requires Valid() && 0 <= k < |Get(r)|
      modifies this, Get(r)`id
      ensures Valid()
      ensures Snapshot() == old(Snapshot()).Without(r, k + 1)
      ensures old(Get(r))[k].id == old(Get(r)[k].id)
    {
      ghost var g := Snapshot();
      var s := Get(r);
      assert RegistriesValid(g);
      var t := s[..k] + s[k + 1..];
      assert t == RemoveId(s, k + 1);
      RemoveIdSubset(s, k + 1);
      RemoveIdMembers(s, k + 1, s[k]);
      SetRegistry(r, t);
      Renumber(t, g, r);
      RemKeepsValid(g, r, k + 1, t);
    }

    /** `get_main_player()`: the first player, or `None` (null) when there is none. */
    function MainPlayer(): (p: Entity?)
      reads this
      ensures p == null <==> |players| == 0
      ensures p != null ==> p == players[0]
    {
      if |players| > 0 then players[0] else null
    }
  }

  /** The index of the first entity with that id, or the length when there is none. */
  method FindId(s: seq<Entity>, id: int) returns (k: int)
    ensures 0 <= k <= |s|
    ensures k < |s| ==> s[k].id == id
    ensures forall j :: 0 <= j < k ==> s[j].id != id
  {
    k := 0;
    while k < |s| && s[k].id != id
      invariant 0 <= k <= |s|
      invariant forall j :: 0 <= j < k ==> s[j].id != id
    {
      k := k + 1;
    }
  }

  /**
   * The renumbering loop of `rem`: the i-th survivor of registry `r` gets id i + 1. The survivors
   * are entities of `r`, which shares none with another registry, so the other registries keep their ids.
   */
  method Renumber(t: seq<Entity>, ghost g: Registries, ghost r: Registry)
    requires Distinct(t) && Separate(g)
    requires forall x :: x in t ==> x in g.Get(r)
    requires forall r' :: r' != r ==> Dense(g.Get(r'))
    modifies t`id
    ensures Dense(t)
    ensures forall r' :: r' != r ==> Dense(g.Get(r'))
  {
    var i := 0;
    while i < |t|
      invariant 0 <= i <= |t|
      invariant forall j :: 0 <= j < i ==> t[j].id == j + 1
      invariant forall r' :: r' != r ==> Dense(g.Get(r'))
    {
      assert t[i] in g.Get(r);
      t[i].id := i + 1;
      i := i + 1;
    }
  }

  /** Ids are 1..n in list order. */
  ghost predicate Dense(s: seq<Entity>)
    reads s`id
  {
    forall i :: 0 <= i < |s| ==> s[i].id == i + 1
  }

  /** No entity occurs twice. */
  predicate Distinct(s: seq<Entity>) {
    forall i, j :: 0 <= i < j < |s| ==> s[i] != s[j]
  }

  /** No entity is in two registries. */
  predicate Separate(g: Registries) {
    forall r1, r2, x :: r1 != r2 && x in g.Get(r1) ==> x !in g.Get(r2)
  }

  /** The registries' invariant: ids 1..n in each, no repeats in one, no entity in two. */
  ghost predicate RegistriesValid(g: Registries)
    reads g.entities`id, g.projectiles`id, g.players`id, g.breakables`id, g.items`id
  {
    (forall r :: Dense(g.Get(r)) && Distinct(g.Get(r))) && Separate(g)
  }

  /** Every registry's entities are among all registered entities. */
  lemma GetInAll(g: Registries)
    ensures forall r, x :: x in g.Get(r) ==> x in g.All()
  {
  }

  /** Appending an unregistered entity whose id is the new length keeps the invariant. */
  lemma AddKeepsValid(g: Registries, r: Registry, e: Entity)
    requires RegistriesValid(g) && e !in g.All() && e.id == |g.Get(r)| + 1
    ensures RegistriesValid(g.Put(r, g.Get(r) + [e]))
  {
    var s := g.Get(r);
    var h := g.Put(r, s + [e]);
    assert Dense(s) && Distinct(s);
    DenseAppend(s, e);
    GetInAll(g);
    assert Distinct(s + [e]);
    assert forall x :: x in h.Get(r) ==> x in s || x == e;
  }

  /** An entity whose id is the new length extends a sequence with ids 1..n. */
  lemma DenseAppend(s: seq<Entity>, e: Entity)
    requires Dense(s) && e.id == |s| + 1
    ensures Dense(s + [e])
  {
    forall i | 0 <= i < |s| + 1 ensures (s + [e])[i].id == i + 1 {
      if i < |s| { assert (s + [e])[i] == s[i]; }
    }
  }

  /**
   * Registry `r` without its `id`-th entity, renumbered 1..n, beside registries that keep ids 1..n,
   * gives registries that are valid again.
   */
  lemma RemKeepsValid(g: Registries, r: Registry, id: int, t: seq<Entity>)
    requires Separate(g) && forall r' :: Distinct(g.Get(r'))
    requires forall r' :: r' != r ==> Dense(g.Get(r'))
    requires 1 <= id <= |g.Get(r)|
    requires t == RemoveId(g.Get(r), id) && Dense(t)
    ensures RegistriesValid(g.Put(r, t))
  {
    var s := g.Get(r);
    var h := g.Put(r, t);
    RemoveIdShape(s, id);
    forall x | x in t ensures x in s {
      RemoveIdMembers(s, id, x);
    }
    assert Distinct(s);
    assert Distinct(t);
    assert forall r' :: r' != r ==> h.Get(r') == g.Get(r');
  }
}
