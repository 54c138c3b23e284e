/**
 * The server's bodies (server/models/entity.js and server/models/entities/Projectile.js): an
 * entity steps only when no pixel of its whole translated footprint is solid, the `EControl` list
 * numbers entities by their position at insertion, and a projectile flies in a straight line and
 * stops at the first mob, or else the first other player, that its box overlaps.
 */
module ServerEntities {
  import opened Common
  import ServerMap
  import ServerStatus
  import World

  /** One pixel is solid for `move`: `check_col` gives 1 on layer 0 or on layer 1 (`null` is not 1). */
  predicate PixelBlocks(m: ServerMap.ServerMap, x: int, y: int) {
    ServerMap.CheckCol(m, x, y, 0) == Some(1) || ServerMap.CheckCol(m, x, y, 1) == Some(1)
  }

  /** The pixel `(dx, dy)` of a footprint at `(left, top)` is solid. */
  predicate SolidAt(m: ServerMap.ServerMap, left: int, top: int, dx: int, dy: int) {
    PixelBlocks(m, left + dx, top + dy)
  }

  /** Some pixel of the `sizex` x `sizey` footprint at `(left, top)` is solid. */
  predicate FootprintBlocked(m: ServerMap.ServerMap, left: int, top: int, sizex: int, sizey: int) {
    exists dx, dy :: 0 <= dx < sizex && 0 <= dy < sizey && SolidAt(m, left, top, dx, dy)
  }

  /**
   * JavaScript's `lo <= v < hi`: it groups as `(lo <= v) < hi`, so the comparison's `true` or
   * `false` is compared with `hi` as 1 or 0.
   */
  function ChainedWithin(lo: int, v: int, hi: int): (r: bool)
    ensures r <==> (lo <= v && hi > 1) || (lo > v && hi > 0)
  {
    (if lo <= v then 1 else 0) < hi
  }

  /** The half-open interval test `lo <= v && v < hi` that the chained form evidently means. */
  predicate Within(lo: int, v: int, hi: int) {
    lo <= v && v < hi
  }

  /** Inside the interval both forms agree whenever the interval does not end at 1 or below. */
  lemma ChainedInside(lo: int, v: int, hi: int)
    requires Within(lo, v, hi)
    ensures ChainedWithin(lo, v, hi) <==> hi > 1
  {
  }

  /** `Projectile.isCollidingWith(other)`: strict overlap of the two boxes; touching edges do not collide. */
  predicate IsCollidingWith(me: World.Box, other: World.Box) {
    me.left < other.left + other.width && me.left + me.width > other.left &&
    me.top < other.top + other.height && me.top + me.height > other.top
  }

  /** The server's hit test is the client's overlap test, and it is symmetric. */
  lemma CollidingIsOverlap(a: World.Box, b: World.Box)
    ensures IsCollidingWith(a, b) <==> World.Overlaps(a, b)
    ensures IsCollidingWith(a, b) <==> IsCollidingWith(b, a)
  {
  }

  /** A server entity: position, size, the optional `stats` and whether `behavior.run` is a function. */
  class SEntity {
    var id: int
    var posx: int
    var posy: int
    const sizex: int
    const sizey: int
    const stats: ServerStatus.JsStatus?
    const hasBehavior: bool

    /** `new Entity(id, x, y, sizex, sizey, texture)`, with the stats and behaviour a subclass sets. */
    constructor (id: int, x: int, y: int, sizex: int, sizey: int, stats: ServerStatus.JsStatus?, hasBehavior: bool)
      ensures this.id == id && posx == x && posy == y && this.sizex == sizex && this.sizey == sizey
      ensures this.stats == stats && this.hasBehavior == hasBehavior
    {
      this.id := id;
      posx, posy := x, y;
      this.sizex, this.sizey := sizex, sizey;
      this.stats := stats;
      this.hasBehavior := hasBehavior;
    }

    /**
     * `move(x, y, map)`: all or nothing. Every pixel of the translated footprint is looked up on
     * layers 0 and 1, row by row (a row that found a solid pixel ends the scan); one solid pixel
     * refuses the step, otherwise the whole step is taken.
     */
    method Move(x: int, y: int, m: ServerMap.ServerMap)
      modifies this`posx, this`posy
      ensures FootprintBlocked(m, old(posx) + x, old(posy) + y, sizex, sizey) ==>
        posx == old(posx) && posy == old(posy)
      ensures !FootprintBlocked(m, old(posx) + x, old(posy) + y, sizex, sizey) ==>
        posx == old(posx) + x && posy == old(posy) + y
    {
      var canMove := true;
      var left, top := posx + x, posy + y;
      var dy := 0;
      while dy < sizey
        invariant 0 <= dy || sizey <= 0
        invariant canMove ==> forall dx', dy' :: 0 <= dx' < sizex && 0 <= dy' < dy ==> !SolidAt(m, left, top, dx', dy')
        invariant !canMove ==> FootprintBlocked(m, left, top, sizex, sizey)
        decreases sizey - dy
      {
        var dx := 0;
        while dx < sizex
          invariant 0 <= dx || sizex <= 0
          invariant canMove ==> forall dx', dy' :: 0 <= dx' < sizex && 0 <= dy' < dy ==> !SolidAt(m, left, top, dx', dy')
          invariant canMove ==> forall dx' :: 0 <= dx' < dx ==> !SolidAt(m, left, top, dx', dy)
          invariant !canMove ==> FootprintBlocked(m, left, top, sizex, sizey)
          decreases sizex - dx
        {
          var col := ServerMap.CheckCol(m, left + dx, top + dy, 0);
          var col2 := ServerMap.CheckCol(m, left + dx, top + dy, 1);
          if col == Some(1) || col2 == Some(1) {
            assert SolidAt(m, left, top, dx, dy);
            canMove := false;
          }
          dx := dx + 1;
        }
        if !canMove {
          break;
        }
        dy := dy + 1;
      }
      if canMove {
        posx := posx + x;
        posy := posy + y;
      }
    }

    /** `collision(x, y)` as written: both chained comparisons, each read as `(lo <= v) < hi`. */
    function Collision(x: int, y: int): (r: bool)
      reads this
      ensures r <==> ChainedWithin(posx, x, posx + sizex) && ChainedWithin(posy, y, posy + sizey)
    {
      (if posx <= x then 1 else 0) < posx + sizex && (if posy <= y then 1 else 0) < posy + sizey
    }

    /** `collision(x, y)` as evidently intended: the pixel lies in the half-open box. */
    function Contains(x: int, y: int): (r: bool)
      reads this
      ensures r <==> Within(posx, x, posx + sizex) && Within(posy, y, posy + sizey)
    {
      posx <= x < posx + sizex && posy <= y < posy + sizey
    }

    /**
     * `run(map)`: one `update_effects` when there are stats, then the behaviour's `run` when it is
     * a function; `behaved` says whether that call is made.
     */
    method Run(m: ServerMap.ServerMap) returns (behaved: bool)
      requires stats != null ==> stats.Valid()
      modifies stats
      ensures stats != null ==> stats.Valid()
      ensures stats != null ==>
        (ServerStatus.JsTick(stats.values, stats.activeEffects) ==
         ServerStatus.JsUpdateAll(old(stats.values), old(stats.activeEffects)))
      ensures behaved == hasBehavior
    {
      if stats != null {
        stats.UpdateEffects();
      }
      behaved := hasBehavior;
    }
  }

  /** With the point (100, 100), the as-written `collision` holds for a 10 x 10 entity at the origin, and `Contains` does not. */
  method CollisionCounterexample() returns (e: SEntity)
    ensures e.Collision(100, 100) && !e.Contains(100, 100)
  {
    e := new SEntity(0, 0, 0, 10, 10, null, false);
  }

  /** The ids of a list of entities, in order. */
  function Ids(es: seq<SEntity>): (ids: seq<int>)
    reads es
    ensures |ids| == |es|
    ensures forall i :: 0 <= i < |es| ==> ids[i] == es[i].id
  {
    if |es| == 0 then [] else Ids(es[..|es| - 1]) + [es[|es| - 1].id]
  }

  /** The index of the first entity with that id, or the length when there is none. */
  function FirstWithId(es: seq<SEntity>, id: int): (k: nat)
    reads es
    ensures k <= |es|
    ensures k < |es| ==> es[k].id == id
    ensures forall j :: 0 <= j < k ==> es[j].id != id
  {
    if |es| == 0 then 0 else if es[0].id == id then 0 else 1 + FirstWithId(es[1..], id)
  }

  /** The stats objects of a list of entities. */
  function StatsOf(es: seq<SEntity>): set<ServerStatus.JsStatus>
    reads es
  {
    set i | 0 <= i < |es| && es[i].stats != null :: es[i].stats
  }

  /** Every entity's stats, when it has some, keep the effects invariant. */
  ghost predicate StatsValid(es: seq<SEntity>)
    reads es, StatsOf(es)
  {
    forall i :: 0 <= i < |es| && es[i].stats != null ==> es[i].stats.Valid()
  }

  /** No two entities share a stats object. */
  predicate OwnStats(es: seq<SEntity>)
    reads es
  {
    forall i, j :: 0 <= i < j < |es| && es[i].stats != null ==> es[i].stats != es[j].stats
  }

  /** The server's `EControl`: the list of entities. */
  class SEControl {
    var entities: seq<SEntity>

    /** `new EControl()`: an empty list. */
    constructor ()
      ensures entities == []
    {
      entities := [];
    }

    /** `add(e)`: `e.id` is the list's length before the push, counting from 0. */
    method Add(e: SEntity)
      modifies this, e`id
      ensures e.id == old(|entities|)
      ensures entities == old(entities) + [e]
      ensures e !in old(entities) ==> Ids(entities) == old(Ids(entities)) + [old(|entities|)]
    {
      e.id := |entities|;
      entities := entities + [e];
    }

    /** `rem(id)`: the first entity with that id is spliced out; no id changes, and an unknown id changes nothing. */
    method Rem(id: int)
      modifies this
      ensures var k := old(FirstWithId(entities, id));
        entities == if k < old(|entities|) then old(entities[..k] + entities[k + 1..]) else old(entities)
    {
      var i := 0;
      while i < |entities|
        invariant 0 <= i <= |entities|
        invariant entities == old(entities)
        invariant forall j :: 0 <= j < i ==> entities[j].id != id
      {
        if entities[i].id == id {
          FirstIs(entities, id, i);
          entities := entities[..i] + entities[i + 1..];
          return;
        }
        i := i + 1;
      }
      FirstIs(entities, id, i);
    }

    /**
     * `run(map)`: each entity's `run`, in list order. `behaved` lists the positions whose behaviour
     * ran; when no two entities share stats, each one's stats took exactly one `update_effects`.
     */
    method Run(m: ServerMap.ServerMap) returns (behaved: seq<nat>)
      requires StatsValid(entities)
      modifies StatsOf(entities)
      ensures forall i :: 0 <= i < |behaved| ==> behaved[i] < |entities| && entities[behaved[i]].hasBehavior
      ensures forall i, j :: 0 <= i < j < |behaved| ==> behaved[i] < behaved[j]
      ensures forall k :: 0 <= k < |entities| && entities[k].hasBehavior ==> k in behaved
      ensures OwnStats(entities) ==> forall k :: 0 <= k < |entities| && entities[k].stats != null ==>
        ServerStatus.JsTick(entities[k].stats.values, entities[k].stats.activeEffects) ==
          ServerStatus.JsUpdateAll(old(entities[k].stats.values), old(entities[k].stats.activeEffects))
    {
      behaved := [];
      var own := OwnStats(entities);
      var i := 0;
      while i < |entities|
        invariant 0 <= i <= |entities|
        invariant behaved == Behaving(entities, i)
        invariant StatsValid(entities)
        invariant own ==> forall k :: 0 <= k < i && entities[k].stats != null ==>
          ServerStatus.JsTick(entities[k].stats.values, entities[k].stats.activeEffects) ==
            ServerStatus.JsUpdateAll(old(entities[k].stats.values), old(entities[k].stats.activeEffects))
        invariant own ==> forall k :: i <= k < |entities| && entities[k].stats != null ==>
          entities[k].stats.values == old(entities[k].stats.values) &&
          entities[k].stats.activeEffects == old(entities[k].stats.activeEffects)
      {
        var e := entities[i];
        var b := e.Run(m);
        if b {
          behaved := behaved + [i];
        }
        i := i + 1;
      }
      BehavingExactly(entities, i);
    }
  }

  /** The positions below `n` of the entities that have a behaviour, in increasing order. */
  function Behaving(es: seq<SEntity>, n: nat): seq<nat>
    requires n <= |es|
  {
    if n == 0 then [] else Behaving(es, n - 1) + (if es[n - 1].hasBehavior then [n - 1] else [])
  }

  /** `Behaving` lists exactly the positions below `n` with a behaviour, increasing. */
  lemma {:induction false} BehavingExactly(es: seq<SEntity>, n: nat)
    requires n <= |es|
    ensures forall i :: 0 <= i < |Behaving(es, n)| ==> Behaving(es, n)[i] < n && es[Behaving(es, n)[i]].hasBehavior
    ensures forall i, j :: 0 <= i < j < |Behaving(es, n)| ==> Behaving(es, n)[i] < Behaving(es, n)[j]
    ensures forall k :: 0 <= k < n && es[k].hasBehavior ==> k in Behaving(es, n)
  {
    if n > 0 {
      BehavingExactly(es, n - 1);
    }
  }

  /** The index where a scan stopped is the first with that id. */
  lemma FirstIs(es: seq<SEntity>, id: int, k: nat)
    requires k <= |es| && forall j :: 0 <= j < k ==> es[j].id != id
    requires k < |es| ==> es[k].id == id
    ensures FirstWithId(es, id) == k
  {
    if |es| > 0 && k > 0 {
      FirstIs(es[1..], id, k - 1);
    }
  }

  /**
   * Ids counting from 0 and a removal without renumbering: after removing any entity but the last
   * from a list numbered 0..n-1, the next `add` gives out the id the last entity still holds.
   */
  lemma {:induction false} AddAfterRemRepeatsId(ids: seq<int>, k: nat)
    requires forall i :: 0 <= i < |ids| ==> ids[i] == i
    requires k + 1 < |ids|
    ensures var after := ids[..k] + ids[k + 1..];
      |after| == |ids| - 1 && after[|after| - 1] == |after|
  {
    var after := ids[..k] + ids[k + 1..];
    assert after[|after| - 1] == ids[|ids| - 1];
  }

  /** What a server projectile records it hit: the key of the mob or of the player in the game state. */
  datatype Target = MobHit(key: string) | PlayerHit(key: string)

  /** A hit candidate of the scan: the entry's box collides and its key is not the skipped one. */
  predicate HitsEntry(me: World.Box, entry: (string, World.Box), skip: Option<string>) {
    (skip.None? || entry.0 != skip.value) && IsCollidingWith(me, entry.1)
  }

  /** The first entry from index `k` on that the box hits, or `None`. */
  function FirstHit(me: World.Box, entries: seq<(string, World.Box)>, skip: Option<string>, k: nat): (r: Option<nat>)
    requires k <= |entries|
    ensures r.Some? ==> k <= r.value < |entries| && HitsEntry(me, entries[r.value], skip)
    ensures r.Some? ==> forall j :: k <= j < r.value ==> !HitsEntry(me, entries[j], skip)
    ensures r.None? ==> forall j :: k <= j < |entries| ==> !HitsEntry(me, entries[j], skip)
    decreases |entries| - k
  {
    if k == |entries| then None
    else if HitsEntry(me, entries[k], skip) then Some(k)
    else FirstHit(me, entries, skip, k + 1)
  }

  /**
   * A server projectile (server/models/entities/Projectile.js): a 16 x 16 body flying along
   * `dir * speed`. `range` is stored and never read.
   */
  class SProjectile {
    var posx: int
    var posy: int
    const sizex: int
    const sizey: int
    const dirx: int
    const diry: int
    const damage: real
    const speed: int
    const range: int
    const ownerId: string
    var distanceTraveled: int
    var collidedWith: Option<Target>
    var shouldBeRemoved: bool

    /** `new Projectile(id, x, y, dirx, diry, damage, speed, range, ownerId, textureId)`: 16 x 16, nothing travelled or hit. */
    constructor (x: int, y: int, dirx: int, diry: int, damage: real, speed: int, range: int, ownerId: string)
      ensures posx == x && posy == y && sizex == 16 && sizey == 16
      ensures this.dirx == dirx && this.diry == diry && this.damage == damage && this.speed == speed
      ensures this.range == range && this.ownerId == ownerId
      ensures distanceTraveled == 0 && collidedWith == None && !shouldBeRemoved
    {
      posx, posy := x, y;
      sizex, sizey := 16, 16;
      this.dirx, this.diry := dirx, diry;
      this.damage, this.speed, this.range := damage, speed, range;
      this.ownerId := ownerId;
      distanceTraveled := 0;
      collidedWith := None;
      shouldBeRemoved := false;
    }

    /** The projectile's box. */
    function Bounds(): World.Box
      reads this`posx, this`posy
    {
      World.Box(posx, posy, sizex, sizey)
    }

    /**
     * `run(map, gameState)`: move by `dir * speed`, add `speed` to the distance, then scan the mobs
     * and, only when none is hit, the players other than the owner, in the game state's key order.
     * The first entity hit is recorded and the projectile marked for removal; with no hit both
     * fields keep their values.
     */
    method Run(mobs: seq<(string, World.Box)>, players: seq<(string, World.Box)>)
      modifies this`posx, this`posy, this`distanceTraveled, this`collidedWith, this`shouldBeRemoved
      ensures posx == old(posx) + dirx * speed && posy == old(posy) + diry * speed
      ensures distanceTraveled == old(distanceTraveled) + speed
      ensures var m := FirstHit(Bounds(), mobs, None, 0);
        m.Some? ==> collidedWith == Some(MobHit(mobs[m.value].0)) && shouldBeRemoved
      ensures var m, p := FirstHit(Bounds(), mobs, None, 0), FirstHit(Bounds(), players, Some(ownerId), 0);
        m.None? && p.Some? ==> collidedWith == Some(PlayerHit(players[p.value].0)) && shouldBeRemoved
      ensures var m, p := FirstHit(Bounds(), mobs, None, 0), FirstHit(Bounds(), players, Some(ownerId), 0);
        m.None? && p.None? ==> collidedWith == old(collidedWith) && shouldBeRemoved == old(shouldBeRemoved)
    {
      posx := posx + dirx * speed;
      posy := posy + diry * speed;
      distanceTraveled := distanceTraveled + speed;
      var me := Bounds();
      var i := 0;
      while i < |mobs|
        invariant 0 <= i <= |mobs|
        invariant FirstHit(me, mobs, None, 0) == FirstHit(me, mobs, None, i)
      {
        if IsCollidingWith(me, mobs[i].1) {
          collidedWith := Some(MobHit(mobs[i].0));
          shouldBeRemoved := true;
          return;
        }
        i := i + 1;
      }
      i := 0;
      while i < |players|
        invariant 0 <= i <= |players|
        invariant FirstHit(me, players, Some(ownerId), 0) == FirstHit(me, players, Some(ownerId), i)
      {
        if players[i].0 == ownerId {
          i := i + 1;
          continue;
        }
        if IsCollidingWith(me, players[i].1) {
          collidedWith := Some(PlayerHit(players[i].0));
          shouldBeRemoved := true;
          return;
        }
        i := i + 1;
      }
    }
  }
}
