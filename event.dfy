/**
 * The scripted events and raid waves (core/event.py). An event fires when its cooldown has passed and
 * its condition holds: a looping one on every such call, a one-shot one once. Mobs spawn on a
 * three-column grid 32 px apart. A lock-room event walls the room in with breakables and runs its
 * waves in order; the walls come down once the last wave is dead. The truth value of the
 * condition (or that it raised) and the creature records are parameters.
 */
module Events {
  import opened Common
  import opened World
  import opened Players
  import Stats

  /** A lock wall: a `quantx` by `quanty` block of breakables from `(x, y)`. */
  datatype Wall = Wall(x: int, y: int, quantx: int, quanty: int)

  /** One wave of a lock-room event as the action lists it. */
  datatype RaidSpec = RaidSpec(posx: int, posy: int, idMob: int, quant: int, idOrda: int)

  /** An event's action by its `actionType`; `Other` is an action type that does nothing. */
  datatype Action =
    | Spawn(numMob: int, idMob: int, x: int, y: int)
    | Chat(message: string)
    | LockRoom(walls: seq<Wall>, raids: seq<RaidSpec>)
    | SpawnBreakable(numBreakable: int, idBreakable: int, x: int, y: int)
    | Other

  /** The creature records by id, as the mob constructor loads them. */
  type CreatureTable = int -> Option<Creature>

  /** The `i`-th spawn position: three to a row, 32 px apart. */
  function GridSpot(x: int, y: int, i: nat): (p: (int, int))
    ensures x <= p.0 <= x + 64 && y <= p.1
    ensures i < 3 ==> p.1 == y
  {
    (x + (i % 3) * 32, y + (i / 3) * 32)
  }

  /** No two mobs of one spawn share a position: the grid position determines the index. */
  lemma GridSpotsDistinct(x: int, y: int, i: nat, j: nat)
    ensures GridSpot(x, y, i) == GridSpot(x, y, j) <==> i == j
  {
    if GridSpot(x, y, i) == GridSpot(x, y, j) {
      assert (i % 3) * 32 == (j % 3) * 32;
      assert (i / 3) * 32 == (j / 3) * 32;
      assert i == 3 * (i / 3) + i % 3;
      assert j == 3 * (j / 3) + j % 3;
    }
  }

  /** The ids `base + 1 .. base + n` that `n` appends to a registry of length `base` receive. */
  function Ids(base: int, n: nat): (s: seq<int>)
    ensures |s| == n && forall k :: 0 <= k < n ==> s[k] == base + k + 1
  {
    seq(n, k => base + k + 1)
  }

  /** The cells of one wall, column by column: `(x + i*32, y + j*32)` for `i < quantx`, `j < quanty`. */
  function WallCells(w: Wall): (c: seq<(int, int)>)
    ensures |c| == (if w.quantx <= 0 || w.quanty <= 0 then 0 else w.quantx * w.quanty)
    decreases w.quantx
  {
    if w.quantx <= 0 || w.quanty <= 0 then []
    else WallCells(w.(quantx := w.quantx - 1)) + seq(w.quanty, j => (w.x + (w.quantx - 1) * 32, w.y + j * 32))
  }

  /** The cells of all walls, wall after wall. */
  function AllCells(walls: seq<Wall>): seq<(int, int)>
  {
    if walls == [] then [] else AllCells(walls[..|walls| - 1]) + WallCells(walls[|walls| - 1])
  }

  /** Every wall cell lies in its wall's block, on the 32 px lattice from the wall's corner. */
  lemma {:induction false} WallCellsInBlock(w: Wall, k: nat)
    requires k < |WallCells(w)|
    ensures var c := WallCells(w)[k]; exists i, j :: 0 <= i < w.quantx && 0 <= j < w.quanty && c == (w.x + i * 32, w.y + j * 32)
    decreases w.quantx
  {
    var prefix := WallCells(w.(quantx := w.quantx - 1));
    if k < |prefix| {
      WallCellsInBlock(w.(quantx := w.quantx - 1), k);
      assert WallCells(w)[k] == prefix[k];
    } else {
      var j := k - |prefix|;
      assert WallCells(w)[k] == (w.x + (w.quantx - 1) * 32, w.y + j * 32);
    }
  }

  /** What `Event.run` keeps between calls: `last_activation` and `IsFirstActivation`. */
  datatype Clock = Clock(lastActivation: real, isFirstActivation: bool)

  /**
   * One `Event.run(agora)` decision: the new clock and whether the action runs. `cond` is the
   * condition's truth value, `None` when it raised.
   */
  function GateStep(c: Clock, isloop: bool, cooldown: real, now: real, cond: Option<bool>): (r: (Clock, bool))
    ensures c.lastActivation == 0.0 ==> r == (c.(lastActivation := now), false)
    ensures r.1 <==> (c.lastActivation != 0.0 && cond == Some(true) && now - c.lastActivation >= cooldown &&
      (isloop || !c.isFirstActivation))
    ensures r.1 ==> r.0.lastActivation == now && r.0.isFirstActivation == (c.isFirstActivation || !isloop)
    ensures !r.1 && c.lastActivation != 0.0 ==> r.0 == c
  {
    if c.lastActivation == 0.0 then (c.(lastActivation := now), false)
    else if cond != Some(true) then (c, false)
    else if isloop then
      if now - c.lastActivation >= cooldown then (c.(lastActivation := now), true) else (c, false)
    else if !c.isFirstActivation && now - c.lastActivation >= cooldown then (Clock(now, true), true)
    else (c, false)
  }

  /** A sequence of `run` calls, each with its time and condition outcome: the final clock and how often the action ran. */
  function GateRun(c: Clock, isloop: bool, cooldown: real, calls: seq<(real, Option<bool>)>): (r: (Clock, nat))
    ensures r.1 <= |calls|
    decreases |calls|
  {
    if calls == [] then (c, 0)
    else
      var step := GateStep(c, isloop, cooldown, calls[0].0, calls[0].1);
      var rest := GateRun(step.0, isloop, cooldown, calls[1..]);
      (rest.0, rest.1 + if step.1 then 1 else 0)
  }

  /** A one-shot event runs its action at most once over any sequence of calls, and never again once it has. */
  lemma {:induction false} OneShotAtMostOnce(c: Clock, cooldown: real, calls: seq<(real, Option<bool>)>)
    ensures GateRun(c, false, cooldown, calls).1 <= if c.isFirstActivation then 0 else 1
    ensures c.isFirstActivation ==> GateRun(c, false, cooldown, calls).0.isFirstActivation
    decreases |calls|
  {
    if calls != [] {
      var step := GateStep(c, false, cooldown, calls[0].0, calls[0].1);
      OneShotAtMostOnce(step.0, cooldown, calls[1..]);
    }
  }

  /** Of any two consecutive actions of a looping event, the later one comes at least `cooldown` after the earlier. */
  lemma LoopSpacing(c: Clock, cooldown: real, t1: real, c1: Option<bool>, t2: real, c2: Option<bool>)
    requires GateStep(c, true, cooldown, t1, c1).1
    requires GateStep(GateStep(c, true, cooldown, t1, c1).0, true, cooldown, t2, c2).1
    ensures t2 - t1 >= cooldown
  {
    var first := GateStep(c, true, cooldown, t1, c1).0;
    assert first.lastActivation == t1;
  }

  /** An event: its action, cooldown and mode, and the clock `run` keeps. */
  class Event {
    var id: int
    const action: Action
    const cooldown: real
    const isloop: bool
    var clock: Clock

    /** `Event(...)`: id 0, never activated. */
    constructor (action: Action, cooldown: real, isloop: bool)
      ensures id == 0 && this.action == action && this.cooldown == cooldown && this.isloop == isloop
      ensures clock == Clock(0.0, false)
    {
      id := 0;
      this.action := action;
      this.cooldown := cooldown;
      this.isloop := isloop;
      clock := Clock(0.0, false);
    }

    /**
     * The decision half of `run(agora)`: the first call only records the time; a false or raising
     * condition does nothing; then the cooldown and the loop mode decide whether the action runs.
     */
    method Gate(now: real, cond: Option<bool>) returns (fire: bool)
      modifies this`clock
      ensures (clock, fire) == GateStep(old(clock), isloop, cooldown, now, cond)
    {
      fire := false;
      if clock.lastActivation == 0.0 {
        clock := clock.(lastActivation := now);
        return;
      }
      if cond != Some(true) {
        return;
      }
      if isloop {
        if now - clock.lastActivation >= cooldown {
          clock := clock.(lastActivation := now);
          fire := true;
        }
      } else if !clock.isFirstActivation && now - clock.lastActivation >= cooldown {
        clock := Clock(now, true);
        fire := true;
      }
    }
  }

  /** `Mob(0, x, y, idMob)` with its creature record: a fresh mob entity with that record's size and stats, at full hp. */
  method MakeMob(x: int, y: int, c: Option<Creature>) returns (e: Entity)
    ensures fresh(e) && e.posx == x && e.posy == y
    ensures e.kind == MobKind(c)
    ensures e.sizex == (if c.Some? then c.value.sizex else 0) && e.sizey == (if c.Some? then c.value.sizey else 0)
    ensures e.stats != null && fresh(e.stats) && e.stats.activeEffects == []
    ensures "hp" in e.stats.values && e.stats.values["hp"] == (if c.Some? then c.value.maxHp else 0.0)
  {
    var st: Stats.Status;
    match c {
      case Some(r) =>
        st := new Stats.Status(r.maxHp, r.maxHp, r.regenHp, r.maxMana, r.maxMana, r.regenMana,
                               r.maxStamina, r.maxStamina, r.regenStamina, r.damage, r.critical,
                               r.defense, r.speed, r.ace);
      case None =>
        st := new Stats.Status(0.0, 0.0, 0.0, 0.0, 0.0, 0.0, 0.0, 0.0, 0.0, 0.0, 0.0, 0.0, 0.0, 0.0);
    }
    e := new Entity(0, x, y, if c.Some? then c.value.sizex else 0, if c.Some? then c.value.sizey else 0, MobKind(c), st);
  }

  /** The type a spawned mob carries: "mob", or none of its own ("") when its creature is missing. */
  function MobKind(c: Option<Creature>): (k: string)
    ensures k == "mob" <==> c.Some?
  {
    if c.Some? then "mob" else ""
  }

  /**
   * The spawn loop: `n` mobs (none for `n <= 0`) join `EControl`, the `i`-th at grid spot `i`; the
   * ids they receive are returned in order.
   */
  method SpawnMobs(w: World, x: int, y: int, n: int, c: Option<Creature>) returns (ids: seq<int>, ghost added: seq<Entity>)
    requires w.Valid()
    modifies w
    ensures w.Valid()
    ensures |added| == (if n < 0 then 0 else n)
    ensures w.Snapshot() == old(w.Snapshot()).Put(EControl, old(w.entities) + added)
    ensures ids == Ids(|old(w.entities)|, |added|)
    ensures forall k :: 0 <= k < |added| ==> (added[k].posx, added[k].posy) == GridSpot(x, y, k) && added[k].kind == MobKind(c)
  {
    ids, added := [], [];
    var i := 0;
    while i < n
      invariant 0 <= i <= (if n < 0 then 0 else n)
      invariant |added| == i && w.Valid()
      invariant w.Snapshot() == old(w.Snapshot()).Put(EControl, old(w.entities) + added)
      invariant ids == Ids(|old(w.entities)|, i)
      invariant forall k :: 0 <= k < i ==> (added[k].posx, added[k].posy) == GridSpot(x, y, k) && added[k].kind == MobKind(c)
    {
      var spot := GridSpot(x, y, i);
      var id, e := SpawnOne(w, spot.0, spot.1, c);
      ids, added := ids + [id], added + [e];
      i := i + 1;
    }
  }

  /** One mob of the spawn loop: made at `(x, y)` and added to `EControl`, which numbers it. */
  method SpawnOne(w: World, x: int, y: int, c: Option<Creature>) returns (id: int, ghost e: Entity)
    requires w.Valid()
    modifies w
    ensures w.Valid()
    ensures w.Snapshot() == old(w.Snapshot()).Put(EControl, old(w.entities) + [e])
    ensures id == |old(w.entities)| + 1 && e.posx == x && e.posy == y && e.kind == MobKind(c)
  {
    var m := MakeMob(x, y, c);
    id := w.Add(EControl, m);
    e := m;
  }

  /** `BrControl.add(Breakable(...))` at each cell in turn; the ids they receive are returned in order. */
  method AddBreakables(w: World, cells: seq<(int, int)>, sizex: int, sizey: int) returns (ids: seq<int>, ghost added: seq<Entity>)
    requires w.Valid()
    modifies w
    ensures w.Valid()
    ensures |added| == |cells|
    ensures w.Snapshot() == old(w.Snapshot()).Put(BrControl, old(w.breakables) + added)
    ensures ids == Ids(|old(w.breakables)|, |cells|)
    ensures forall k :: 0 <= k < |added| ==> (added[k].posx, added[k].posy) == cells[k] && added[k].kind == "breakable"
  {
    ids, added := [], [];
    var i := 0;
    while i < |cells|
      invariant 0 <= i <= |cells|
      invariant |added| == i && w.Valid()
      invariant w.Snapshot() == old(w.Snapshot()).Put(BrControl, old(w.breakables) + added)
      invariant ids == Ids(|old(w.breakables)|, i)
      invariant forall k :: 0 <= k < i ==> (added[k].posx, added[k].posy) == cells[k] && added[k].kind == "breakable"
    {
      var id, e := PlaceBreakable(w, cells[i].0, cells[i].1, sizex, sizey);
      ids, added := ids + [id], added + [e];
      i := i + 1;
    }
  }

  /** One breakable of the wall loop: made at `(x, y)` and added to `BrControl`, which numbers it. */
  method PlaceBreakable(w: World, x: int, y: int, sizex: int, sizey: int) returns (id: int, ghost e: Entity)
    requires w.Valid()
    modifies w
    ensures w.Valid()
    ensures w.Snapshot() == old(w.Snapshot()).Put(BrControl, old(w.breakables) + [e])
    ensures id == |old(w.breakables)| + 1 && e.posx == x && e.posy == y && e.kind == "breakable"
  {
    var b := new Entity(0, x, y, sizex, sizey, "breakable", null);
    id := w.Add(BrControl, b);
    e := b;
  }

  /** A wave: where and what it spawns, and the ids of the mobs it has spawned. */
  datatype Raid = Raid(id: int, posx: int, posy: int, idMob: int, quant: int, idOrda: int, spawned: seq<int>)

  /** `Raid(...)` numbered `id` by `RaidControl.add`, with nothing spawned yet. */
  function NewRaid(id: int, r: RaidSpec): (x: Raid)
    ensures x.id == id && x.spawned == [] && x.quant == r.quant && (x.posx, x.posy) == (r.posx, r.posy)
  {
    Raid(id, r.posx, r.posy, r.idMob, r.quant, r.idOrda, [])
  }

  /** The waves `add` builds from `specs` after `base` waves: numbered `base`, `base + 1`, ... */
  function Waves(base: int, specs: seq<RaidSpec>): (r: seq<Raid>)
    ensures |r| == |specs| && forall k :: 0 <= k < |specs| ==> r[k] == NewRaid(base + k, specs[k])
  {
    seq(|specs|, k requires 0 <= k < |specs| => NewRaid(base + k, specs[k]))
  }

  /** An entity with id `id` is in the registry (`any(e.id == id for e in ...)`). */
  ghost predicate IdPresent(s: seq<Entity>, id: int)
    reads s
  {
    exists k :: 0 <= k < |s| && s[k].id == id
  }

  /** With ids 1..n, an id is present exactly when it lies in 1..n. */
  lemma DenseIdPresent(s: seq<Entity>, id: int)
    requires Dense(s)
    ensures IdPresent(s, id) <==> 1 <= id <= |s|
  {
    if 1 <= id <= |s| {
      assert s[id - 1].id == id;
    }
  }

  /** None of a wave's recorded ids is present in a registry of `n` entities with ids 1..n. */
  predicate AllGone(spawned: seq<int>, n: int) {
    forall k :: 0 <= k < |spawned| ==> !(1 <= spawned[k] <= n)
  }

  /** The breakables whose id is not one of `ids`, in order. */
  ghost function Survivors(s: seq<Entity>, ids: seq<int>): (t: seq<Entity>)
    reads s
    ensures |t| <= |s|
  {
    if s == [] then [] else Survivors(s[..|s| - 1], ids) + (if s[|s| - 1].id in ids then [] else [s[|s| - 1]])
  }

  /** The wave sequencer: the waves, the cursor, whether it runs, whether a lock room was used, and the lock walls' ids. */
  class RaidControl {
    var raids: seq<Raid>
    var cursor: int
    var active: bool
    var hasBeenActivated: bool
    var lockBreakables: seq<int>

    /** The class attributes' initial values. */
    constructor ()
      ensures raids == [] && cursor == 0 && !active && !hasBeenActivated && lockBreakables == []
    {
      raids, cursor, active, hasBeenActivated, lockBreakables := [], 0, false, false, [];
    }

    /** `add(raid)`: numbered by its position and appended. */
    method Add(r: RaidSpec)
      modifies this`raids
      ensures raids == old(raids) + [NewRaid(|old(raids)|, r)]
    {
      raids := raids + [NewRaid(|raids|, r)];
    }

    /** The `RaidControl.add` loop of a lock room: the waves are appended in order, numbered by position. */
    method AddAll(specs: seq<RaidSpec>)
      modifies this`raids
      ensures raids == old(raids) + Waves(|old(raids)|, specs)
    {
      var i := 0;
      while i < |specs|
        invariant 0 <= i <= |specs|
        invariant raids == old(raids) + Waves(|old(raids)|, specs[..i])
      {
        assert specs[..i + 1] == specs[..i] + [specs[i]];
        Add(specs[i]);
        i := i + 1;
      }
      assert specs[..i] == specs;
    }

    /**
     * `spawn_current_raid()`: the current wave, if any, spawns its mobs on the grid from its
     * position and records the ids they receive.
     */
    method SpawnCurrent(w: World, db: CreatureTable) returns (ghost added: seq<Entity>)
      requires w.Valid()
      modifies this`raids, w
      ensures w.Valid()
      ensures !(0 <= cursor < |old(raids)|) ==> raids == old(raids) && w.Snapshot() == old(w.Snapshot()) && added == []
      ensures 0 <= cursor < |old(raids)| ==> SpawnedWave(old(raids), cursor, old(w.entities), raids, w.Snapshot(), old(w.Snapshot()), added, db)
    {
      added := [];
      if 0 <= cursor < |raids| {
        var raid := raids[cursor];
        var ids;
        ids, added := SpawnMobs(w, raid.posx, raid.posy, raid.quant, db(raid.idMob));
        raids := raids[cursor := raid.(spawned := raid.spawned + ids)];
      }
    }

    /** The set-up of a lock room: the lock ids recorded and the wave list replaced by the action's waves. */
    method Arm(ids: seq<int>, specs: seq<RaidSpec>)
      modifies this`lockBreakables, this`raids, this`cursor, this`active
      ensures lockBreakables == ids && raids == Waves(0, specs) && cursor == 0 && !active
    {
      lockBreakables := ids;
      raids, cursor, active := [], 0, false;
      AddAll(specs);
    }

    /** `start_raids()`: activates the sequencer at the first wave and spawns it. */
    method StartRaids(w: World, db: CreatureTable) returns (ghost added: seq<Entity>)
      requires w.Valid()
      modifies this, w
      ensures w.Valid()
      ensures active && cursor == 0 && hasBeenActivated == old(hasBeenActivated) && lockBreakables == old(lockBreakables)
      ensures old(raids) == [] ==> raids == [] && w.Snapshot() == old(w.Snapshot()) && added == []
      ensures old(raids) != [] ==> SpawnedWave(old(raids), 0, old(w.entities), raids, w.Snapshot(), old(w.Snapshot()), added, db)
      ensures w.breakables == old(w.breakables) && |raids| == |old(raids)|
      ensures forall k :: 0 <= k < |raids| ==> raids[k].id == old(raids)[k].id && raids[k].quant == old(raids)[k].quant
    {
      active := true;
      cursor := 0;
      added := SpawnCurrent(w, db);
    }

    /**
     * The sequencer part of a lock room: the lock ids recorded, the wave list replaced by the
     * action's waves, and `start_raids()`.
     */
    method Open(ids: seq<int>, specs: seq<RaidSpec>, w: World, db: CreatureTable) returns (ghost spawned: seq<Entity>)
      requires w.Valid()
      modifies this, w
      ensures w.Valid() && hasBeenActivated == old(hasBeenActivated) && active && cursor == 0 && lockBreakables == ids
      ensures specs == [] ==> raids == [] && w.Snapshot() == old(w.Snapshot()) && spawned == []
      ensures specs != [] ==> SpawnedWave(Waves(0, specs), 0, old(w.entities), raids, w.Snapshot(), old(w.Snapshot()), spawned, db)
    {
      Arm(ids, specs);
      spawned := StartRaids(w, db);
    }

    /**
     * `run()`: while active, once no recorded id of the current wave is present the cursor moves on
     * and the next wave spawns; after the last wave the sequencer stops, the lock walls are removed
     * from `BrControl`, the rest renumbered 1..n, and the lock list cleared.
     */
    method Run(w: World, db: CreatureTable) returns (ghost added: seq<Entity>)
      requires w.Valid()
      modifies this, w, w.breakables`id
      ensures w.Valid()
      ensures hasBeenActivated == old(hasBeenActivated)
      ensures !Advances(old(active), old(cursor), old(raids), |old(w.entities)|) ==>
        raids == old(raids) && cursor == old(cursor) && active == old(active) &&
        lockBreakables == old(lockBreakables) && w.Snapshot() == old(w.Snapshot())
      ensures Advances(old(active), old(cursor), old(raids), |old(w.entities)|) ==> cursor == old(cursor) + 1
      ensures Advances(old(active), old(cursor), old(raids), |old(w.entities)|) && cursor < |old(raids)| ==>
        active && lockBreakables == old(lockBreakables) &&
        SpawnedWave(old(raids), cursor, old(w.entities), raids, w.Snapshot(), old(w.Snapshot()), added, db)
      ensures Advances(old(active), old(cursor), old(raids), |old(w.entities)|) && cursor == |old(raids)| ==>
        !active && lockBreakables == [] && raids == old(raids) &&
        w.Snapshot() == old(w.Snapshot()).Put(BrControl, old(Survivors(w.breakables, lockBreakables)))
    {
      added := [];
      if !active || !(0 <= cursor < |raids|) {
        return;
      }
      var allDead := WaveGone(w, raids[cursor].spawned);
      if allDead {
        added := Next(w, db);
      }
    }

    /** The step past a cleared wave: the next wave spawns, or after the last one the sequencer stops and the lock walls go. */
    method Next(w: World, db: CreatureTable) returns (ghost added: seq<Entity>)
      requires w.Valid() && active && 0 <= cursor < |raids|
      modifies this, w, w.breakables`id
      ensures w.Valid()
      ensures hasBeenActivated == old(hasBeenActivated) && cursor == old(cursor) + 1
      ensures cursor < |old(raids)| ==>
        active && lockBreakables == old(lockBreakables) &&
        SpawnedWave(old(raids), cursor, old(w.entities), raids, w.Snapshot(), old(w.Snapshot()), added, db)
      ensures cursor == |old(raids)| ==>
        !active && lockBreakables == [] && raids == old(raids) &&
        w.Snapshot() == old(w.Snapshot()).Put(BrControl, old(Survivors(w.breakables, lockBreakables)))
    {
      added := [];
      cursor := cursor + 1;
      if cursor < |raids| {
        added := SpawnCurrent(w, db);
      } else {
        Finish(w);
      }
    }

    /** The end of the last wave: the sequencer stops, the lock walls leave `BrControl`, and the lock list is cleared. */
    method Finish(w: World)
      requires w.Valid()
      modifies this`active, this`lockBreakables, w, w.breakables`id
      ensures w.Valid() && !active && lockBreakables == []
      ensures w.Snapshot() == old(w.Snapshot()).Put(BrControl, old(Survivors(w.breakables, lockBreakables)))
    {
      active := false;
      RemoveLocks(w, lockBreakables);
      lockBreakables := [];
    }
  }

  /**
   * The presence test of `RaidControl.run`: true when no recorded id belongs to an entity of
   * `EControl`; the scan stops at the first one present. With ids 1..n that means no id is in 1..n.
   */
  method WaveGone(w: World, spawned: seq<int>) returns (allDead: bool)
    requires w.Valid()
    ensures allDead <==> AllGone(spawned, |w.entities|)
  {
    assert RegistriesValid(w.Snapshot());
    assert Dense(w.Snapshot().Get(EControl));
    allDead := true;
    var i := 0;
    while i < |spawned|
      invariant 0 <= i <= |spawned|
      invariant allDead && forall k :: 0 <= k < i ==> !(1 <= spawned[k] <= |w.entities|)
    {
      var k := FindId(w.entities, spawned[i]);
      DenseIdPresent(w.entities, spawned[i]);
      if k < |w.entities| {
        return false;
      }
      i := i + 1;
    }
  }

  /** `run()` moves past the current wave: the sequencer is active at a wave none of whose recorded ids is present. */
  predicate Advances(active: bool, cursor: int, raids: seq<Raid>, n: int) {
    active && 0 <= cursor < |raids| && AllGone(raids[cursor].spawned, n)
  }

  /**
   * Wave `k` of `before` was spawned: `added`, mobs of the wave's creature, joined `EControl` on
   * the grid from the wave's position and only the wave's recorded ids grew, by the ids they received.
   */
  ghost predicate SpawnedWave(before: seq<Raid>, k: int, entities: seq<Entity>, after: seq<Raid>,
                              now: Registries, was: Registries, added: seq<Entity>, db: CreatureTable)
    reads added
  {
    0 <= k < |before| &&
    |added| == (if before[k].quant < 0 then 0 else before[k].quant) &&
    now == was.Put(EControl, entities + added) &&
    after == before[k := before[k].(spawned := before[k].spawned + Ids(|entities|, |added|))] &&
    forall j :: 0 <= j < |added| ==>
      (added[j].posx, added[j].posy) == GridSpot(before[k].posx, before[k].posy, j) && added[j].kind == MobKind(db(before[k].idMob))
  }

  /**
   * The wall removal at the end of `RaidControl.run`: every breakable whose id is a lock id leaves
   * `BrControl`, and the rest are renumbered 1..n in order.
   */
  method RemoveLocks(w: World, locks: seq<int>)
    requires w.Valid()
    modifies w, w.breakables`id
    ensures w.Valid()
    ensures w.Snapshot() == old(w.Snapshot()).Put(BrControl, old(Survivors(w.breakables, locks)))
  {
    ghost var g := w.Snapshot();
    assert RegistriesValid(g);
    assert Distinct(g.Get(BrControl));
    var t := Unlocked(w.breakables, locks);
    Reregister(w, t, g);
  }

  /** The survivors of `BrControl` renumbered 1..n become its sequence: the registries stay valid and only `BrControl` changes. */
  method Reregister(w: World, t: seq<Entity>, ghost g: Registries)
    requires w.Valid() && w.Snapshot() == g && Distinct(t)
    requires forall k :: 0 <= k < |t| ==> t[k] in g.breakables
    modifies w, t`id
    ensures w.Valid() && w.Snapshot() == g.Put(BrControl, t)
  {
    RenumberSurvivors(t, g, BrControl);
    w.SetRegistry(BrControl, t);
    assert w.Snapshot() == g.Put(BrControl, t);
  }

  /** The survivors of a registry renumbered 1..n: the registries are valid once that registry holds just them. */
  method RenumberSurvivors(t: seq<Entity>, ghost g: Registries, ghost r: Registry)
    requires RegistriesValid(g) && Distinct(t)
    requires forall k :: 0 <= k < |t| ==> t[k] in g.Get(r)
    modifies t`id
    ensures RegistriesValid(g.Put(r, t))
  {
    assert forall x :: x in t ==> x in g.Get(r);
    Renumber(t, g, r);
    ReplaceKeepsValid(g, r, t);
  }

  /** The filter of the wall removal: the entities whose id is not a lock id, in order. */
  method Unlocked(s: seq<Entity>, locks: seq<int>) returns (t: seq<Entity>)
    requires Distinct(s)
    ensures t == Survivors(s, locks) && Distinct(t) && forall x :: x in t ==> x in s
    ensures forall k :: 0 <= k < |t| ==> t[k] in s
  {
    t := [];
    var i := 0;
    while i < |s|
      invariant 0 <= i <= |s|
      invariant t == Survivors(s[..i], locks)
    {
      assert s[..i + 1][..i] == s[..i];
      if s[i].id !in locks {
        t := t + [s[i]];
      }
      i := i + 1;
    }
    assert s[..i] == s;
    SurvivorsDistinct(s, locks);
  }

  /** The survivors are entities of the sequence and, when it has no repeats, have none either. */
  lemma {:induction false} SurvivorsDistinct(s: seq<Entity>, ids: seq<int>)
    requires Distinct(s)
    ensures Distinct(Survivors(s, ids)) && forall x :: x in Survivors(s, ids) ==> x in s
    decreases |s|
  {
    if s != [] {
      var p := s[..|s| - 1];
      assert Distinct(p);
      SurvivorsDistinct(p, ids);
      assert forall x :: x in p ==> x in s;
      assert s[|s| - 1] !in p;
    }
  }

  /** A registry replaced by some of its own entities, renumbered 1..n, keeps the registries valid. */
  lemma ReplaceKeepsValid(g: Registries, r: Registry, t: seq<Entity>)
    requires Separate(g) && forall r' :: Distinct(g.Get(r'))
    requires forall r' :: r' != r ==> Dense(g.Get(r'))
    requires Distinct(t) && Dense(t) && forall x :: x in t ==> x in g.Get(r)
    ensures RegistriesValid(g.Put(r, t))
  {
    var h := g.Put(r, t);
    assert forall r' :: r' != r ==> h.Get(r') == g.Get(r');
  }

  /** What a lock room reads and writes of the sequencer: its five class attributes. */
  datatype RaidLook = RaidLook(raids: seq<Raid>, cursor: int, active: bool, hasBeenActivated: bool, lockBreakables: seq<int>)

  /** The sequencer's attributes as a value. */
  function LookOf(rc: RaidControl): RaidLook
    reads rc
  {
    RaidLook(rc.raids, rc.cursor, rc.active, rc.hasBeenActivated, rc.lockBreakables)
  }

  /** Where a placed entity stands and its type, as a value. */
  datatype Mark = Mark(posx: int, posy: int, kind: string)

  /** The marks of a sequence of entities, one per entity. */
  function Marks(es: seq<Entity>): (m: seq<Mark>)
    reads es
    ensures |m| == |es| && forall k :: 0 <= k < |es| ==> m[k] == Mark(es[k].posx, es[k].posy, es[k].kind)
  {
    seq(|es|, k requires 0 <= k < |es| reads es => Mark(es[k].posx, es[k].posy, es[k].kind))
  }

  /**
   * `Combat_lockRoom`: unless a lock room already ran, the walls' breakables are added cell by
   * cell and their ids recorded, the wave list is replaced by the action's waves, the sequencer is
   * started and the room marked as used. `placed` are the wall breakables, `spawned` the first
   * wave's mobs.
   */
  method LockRoomAction(rc: RaidControl, w: World, walls: seq<Wall>, specs: seq<RaidSpec>, db: CreatureTable,
                        sizex: int, sizey: int) returns (ghost placed: seq<Entity>, ghost spawned: seq<Entity>)
    requires w.Valid()
    modifies rc, w
    ensures w.Valid()
    ensures old(rc.hasBeenActivated) ==>
      LookOf(rc) == old(LookOf(rc)) && w.Snapshot() == old(w.Snapshot()) && placed == [] && spawned == []
    ensures !old(rc.hasBeenActivated) ==>
      LockedRoom(walls, specs, db, LookOf(rc), old(w.Snapshot()), w.Snapshot(), placed, spawned, Marks(placed), Marks(spawned))
  {
    placed, spawned := [], [];
    if !rc.hasBeenActivated {
      placed, spawned := LockRoom(rc, w, walls, specs, db, sizex, sizey);
    }
  }

  /**
   * The state a first lock room leaves, from registries `was`: the room is marked as used and the
   * sequencer runs at wave 0; one breakable per wall cell (`placed`, marked `pm`) stands at its cell
   * after the breakables already there, and their ids are the lock ids; the waves are the action's,
   * numbered from 0, and when there is a first one its mobs (`spawned`, marked `sm`) joined
   * `EControl` on the grid from its position and it records their ids.
   */
  predicate LockedRoom(walls: seq<Wall>, specs: seq<RaidSpec>, db: CreatureTable, b: RaidLook,
                       was: Registries, now: Registries, placed: seq<Entity>, spawned: seq<Entity>,
                       pm: seq<Mark>, sm: seq<Mark>)
  {
    var cells := AllCells(walls);
    var mid := was.Put(BrControl, was.breakables + placed);
    b.hasBeenActivated && b.active && b.cursor == 0 &&
    b.lockBreakables == Ids(|was.breakables|, |cells|) &&
    |placed| == |cells| == |pm| && |spawned| == |sm| &&
    (forall k :: 0 <= k < |pm| ==> pm[k] == Mark(cells[k].0, cells[k].1, "breakable")) &&
    if specs == [] then b.raids == [] && spawned == [] && now == mid
    else
      |spawned| == (if specs[0].quant < 0 then 0 else specs[0].quant) &&
      now == mid.Put(EControl, was.entities + spawned) &&
      b.raids == Waves(0, specs)[0 := NewRaid(0, specs[0]).(spawned := Ids(|was.entities|, |spawned|))] &&
      forall j :: 0 <= j < |sm| ==>
        sm[j] == Mark(GridSpot(specs[0].posx, specs[0].posy, j).0, GridSpot(specs[0].posx, specs[0].posy, j).1, MobKind(db(specs[0].idMob)))
  }

  /**
   * In registries numbered 1..n, the lock ids a first lock room records are the ids of the wall
   * breakables it placed, in order, and the ids the first wave records are those of its mobs: the
   * end of the last wave removes exactly those walls, and the wave ends when exactly those mobs are gone.
   */
  lemma LockIdsNameWalls(walls: seq<Wall>, specs: seq<RaidSpec>, db: CreatureTable, b: RaidLook,
                         was: Registries, now: Registries, placed: seq<Entity>, spawned: seq<Entity>,
                         pm: seq<Mark>, sm: seq<Mark>)
    requires LockedRoom(walls, specs, db, b, was, now, placed, spawned, pm, sm)
    requires Dense(now.breakables) && Dense(now.entities)
    ensures forall k :: 0 <= k < |placed| ==> placed[k].id == b.lockBreakables[k]
    ensures specs != [] ==> b.raids[0].spawned == seq(|spawned|, j requires 0 <= j < |spawned| reads spawned => spawned[j].id)
  {
    var nb := |was.breakables|;
    forall k | 0 <= k < |placed|
      ensures placed[k].id == b.lockBreakables[k]
    {
      assert now.breakables[nb + k] == placed[k];
    }
    if specs != [] {
      var ne := |was.entities|;
      forall j | 0 <= j < |spawned|
        ensures b.raids[0].spawned[j] == spawned[j].id
      {
        assert now.entities[ne + j] == spawned[j];
      }
    }
  }

  /** The body of a first lock room. */
  method LockRoom(rc: RaidControl, w: World, walls: seq<Wall>, specs: seq<RaidSpec>, db: CreatureTable,
                  sizex: int, sizey: int) returns (ghost placed: seq<Entity>, ghost spawned: seq<Entity>)
    requires w.Valid()
    modifies rc, w
    ensures w.Valid()
    ensures LockedRoom(walls, specs, db, LookOf(rc), old(w.Snapshot()), w.Snapshot(), placed, spawned, Marks(placed), Marks(spawned))
  {
    rc.hasBeenActivated := true;
    var ids;
    ids, placed := BuildWalls(w, walls, sizex, sizey);
    ghost var mid := w.Snapshot();
    ghost var pm := Marks(placed);
    spawned := rc.Open(ids, specs, w, db);
    assert Marks(placed) == pm;
    LockedRoomFrom(walls, specs, db, LookOf(rc), old(w.Snapshot()), mid, w.Snapshot(), placed, spawned, pm, Marks(spawned));
  }

  /** The pieces of a first lock room (the walls, the new waves, the first wave's spawn) make a `LockedRoom`. */
  lemma LockedRoomFrom(walls: seq<Wall>, specs: seq<RaidSpec>, db: CreatureTable, b: RaidLook,
                       was: Registries, mid: Registries, now: Registries, placed: seq<Entity>, spawned: seq<Entity>,
                       pm: seq<Mark>, sm: seq<Mark>)
    requires b.hasBeenActivated && b.active && b.cursor == 0 && b.lockBreakables == Ids(|was.breakables|, |AllCells(walls)|)
    requires |placed| == |AllCells(walls)| == |pm| && mid == was.Put(BrControl, was.breakables + placed)
    requires forall k :: 0 <= k < |pm| ==> pm[k] == Mark(AllCells(walls)[k].0, AllCells(walls)[k].1, "breakable")
    requires sm == Marks(spawned)
    requires specs == [] ==> b.raids == [] && now == mid && spawned == []
    requires specs != [] ==> SpawnedWave(Waves(0, specs), 0, was.entities, b.raids, now, mid, spawned, db)
    ensures LockedRoom(walls, specs, db, b, was, now, placed, spawned, pm, sm)
  {
    if specs != [] {
      var first := Waves(0, specs)[0];
      assert first == NewRaid(0, specs[0]) && first.spawned == [];
      assert first.spawned + Ids(|was.entities|, |spawned|) == Ids(|was.entities|, |spawned|);
    }
  }

  /** The wall loops of a lock room: one breakable per cell joins `BrControl` after the ones already there, at its cell. */
  method BuildWalls(w: World, walls: seq<Wall>, sizex: int, sizey: int) returns (ids: seq<int>, ghost placed: seq<Entity>)
    requires w.Valid()
    modifies w
    ensures w.Valid() && ids == Ids(|old(w.breakables)|, |AllCells(walls)|) && |placed| == |AllCells(walls)|
    ensures w.Snapshot() == old(w.Snapshot()).Put(BrControl, old(w.breakables) + placed)
    ensures forall k :: 0 <= k < |placed| ==>
      (placed[k].posx, placed[k].posy) == AllCells(walls)[k] && placed[k].kind == "breakable"
  {
    ids, placed := AddBreakables(w, AllCells(walls), sizex, sizey);
  }

  /**
   * What `execute_action()` did, from sequencer state `a` and registries `was` to `b` and `now`:
   * a spawn adds its mobs (`spawned`, marked `sm`) to `EControl` on the grid; a breakable spawn
   * adds its breakables (`placed`, marked `pm`) to `BrControl`, all at one spot; a chat or unknown
   * action changes nothing; a lock room changes nothing once one has run, and otherwise leaves a
   * `LockedRoom`. Only a lock room touches the sequencer.
   */
  predicate Executed(action: Action, db: CreatureTable, a: RaidLook, b: RaidLook, was: Registries, now: Registries,
                     placed: seq<Entity>, spawned: seq<Entity>, pm: seq<Mark>, sm: seq<Mark>)
  {
    match action
    case Spawn(n, idMob, x, y) =>
      b == a && placed == [] && pm == [] && |spawned| == |sm| == (if n < 0 then 0 else n) &&
      now == was.Put(EControl, was.entities + spawned) &&
      forall j :: 0 <= j < |sm| ==> sm[j] == Mark(GridSpot(x, y, j).0, GridSpot(x, y, j).1, MobKind(db(idMob)))
    case SpawnBreakable(n, _, x, y) =>
      b == a && spawned == [] && sm == [] && |placed| == |pm| == (if n < 0 then 0 else n) &&
      now == was.Put(BrControl, was.breakables + placed) &&
      forall k :: 0 <= k < |pm| ==> pm[k] == Mark(x, y, "breakable")
    case LockRoom(walls, specs) =>
      if a.hasBeenActivated then b == a && now == was && placed == [] && pm == [] && spawned == [] && sm == []
      else LockedRoom(walls, specs, db, b, was, now, placed, spawned, pm, sm)
    case _ =>
      b == a && now == was && placed == [] && pm == [] && spawned == [] && sm == []
  }

  /**
   * `execute_action()`: spawns mobs on the grid, prints (nothing to model), runs a lock room, or
   * stacks breakables at one spot; any other action type does nothing. The entities it added are
   * returned: `placed` to `BrControl`, `spawned` to `EControl`.
   */
  method Execute(action: Action, rc: RaidControl, w: World, db: CreatureTable, sizex: int, sizey: int)
    returns (ghost placed: seq<Entity>, ghost spawned: seq<Entity>)
    requires w.Valid()
    modifies rc, w
    ensures w.Valid()
    ensures Executed(action, db, old(LookOf(rc)), LookOf(rc), old(w.Snapshot()), w.Snapshot(), placed, spawned, Marks(placed), Marks(spawned))
  {
    placed, spawned := [], [];
    match action {
      case Spawn(n, idMob, x, y) =>
        var ids;
        ids, spawned := SpawnMobs(w, x, y, n, db(idMob));
      case Chat(_) =>
      case LockRoom(walls, specs) =>
        placed, spawned := LockRoomAction(rc, w, walls, specs, db, sizex, sizey);
      case SpawnBreakable(n, _, x, y) =>
        var ids;
        ids, placed := AddBreakables(w, seq(if n < 0 then 0 else n, _ => (x, y)), sizex, sizey);
      case Other =>
    }
  }

  /** `EventControl`: the registered events in order. */
  class EventControl {
    var events: seq<Event>

    constructor ()
      ensures events == []
    {
      events := [];
    }

    /** `add(event)`: numbered by its position (0-based) and appended. */
    method Add(e: Event)
      modifies this, e`id
      ensures events == old(events) + [e] && e.id == |old(events)|
    {
      e.id := |events|;
      events := events + [e];
    }
  }

  /**
   * One event's turn in `EventControl.run`: its clock before, whether its action ran, and what
   * the action did from sequencer state `a` and registries `was` to `b` and `now`.
   */
  datatype Turn = Turn(clock: Clock, fired: bool, a: RaidLook, b: RaidLook, was: Registries, now: Registries,
                       placed: seq<Entity>, spawned: seq<Entity>, pm: seq<Mark>, sm: seq<Mark>)

  /** The `k`-th event's turn at time `now`: it fired as `GateStep` decides, and then its action ran; otherwise nothing changed. */
  predicate TurnOk(e: Event, k: nat, now: real, cond: nat -> Option<bool>, db: CreatureTable, t: Turn) {
    t.fired == GateStep(t.clock, e.isloop, e.cooldown, now, cond(k)).1 &&
    if t.fired then Executed(e.action, db, t.a, t.b, t.was, t.now, t.placed, t.spawned, t.pm, t.sm)
    else t.b == t.a && t.now == t.was && t.placed == [] && t.spawned == [] && t.pm == [] && t.sm == []
  }

  /**
   * The turns of `events`, one each in order, lead from sequencer state `a0` and registries `g0`
   * to `a1` and `g1`: each turn starts where the one before ended.
   */
  predicate Turns(events: seq<Event>, now: real, cond: nat -> Option<bool>, db: CreatureTable, ts: seq<Turn>,
                  a0: RaidLook, g0: Registries, a1: RaidLook, g1: Registries)
  {
    |ts| == |events| &&
    (forall k :: 0 <= k < |ts| ==> TurnOk(events[k], k, now, cond, db, ts[k])) &&
    if ts == [] then a1 == a0 && g1 == g0
    else
      ts[0].a == a0 && ts[0].was == g0 && ts[|ts| - 1].b == a1 && ts[|ts| - 1].now == g1 &&
      forall k :: 0 <= k < |ts| - 1 ==> ts[k + 1].a == ts[k].b && ts[k + 1].was == ts[k].now
  }

  /** One more turn that starts where the others ended extends the record. */
  lemma TurnsExtend(events: seq<Event>, e: Event, now: real, cond: nat -> Option<bool>, db: CreatureTable,
                    ts: seq<Turn>, t: Turn, a0: RaidLook, g0: Registries, a1: RaidLook, g1: Registries)
    requires Turns(events, now, cond, db, ts, a0, g0, a1, g1)
    requires TurnOk(e, |events|, now, cond, db, t) && t.a == a1 && t.was == g1
    ensures Turns(events + [e], now, cond, db, ts + [t], a0, g0, t.b, t.now)
  {
    var ts' := ts + [t];
    assert forall k :: 0 <= k < |ts| ==> ts'[k] == ts[k];
  }

  /** `Event.run(agora)` for the `k`-th event: the gate, then the action when it fires; `t` is its turn. */
  method RunEvent(e: Event, k: nat, now: real, cond: nat -> Option<bool>, rc: RaidControl, w: World,
                  db: CreatureTable, sizex: int, sizey: int) returns (ghost t: Turn)
    requires w.Valid()
    modifies e`clock, rc, w
    ensures w.Valid()
    ensures e.clock == GateStep(old(e.clock), e.isloop, e.cooldown, now, cond(k)).0
    ensures TurnOk(e, k, now, cond, db, t) && t.clock == old(e.clock)
    ensures t.a == old(LookOf(rc)) && t.was == old(w.Snapshot()) && t.b == LookOf(rc) && t.now == w.Snapshot()
  {
    ghost var a, g, c := LookOf(rc), w.Snapshot(), e.clock;
    var fire := e.Gate(now, cond(k));
    ghost var placed: seq<Entity>, spawned: seq<Entity> := [], [];
    if fire {
      placed, spawned := Execute(e.action, rc, w, db, sizex, sizey);
    }
    t := Turn(c, fire, a, LookOf(rc), g, w.Snapshot(), placed, spawned, Marks(placed), Marks(spawned));
  }

  /**
   * The clocks of `events` during `EventControl.run`, from their values `before` at its start:
   * the first `i` events have moved by `GateStep`, the others not yet.
   */
  ghost predicate Clocked(events: seq<Event>, i: int, before: seq<Clock>, now: real, cond: nat -> Option<bool>)
    reads events
  {
    |before| == |events| && 0 <= i <= |events| &&
    (forall k :: 0 <= k < i ==> events[k].clock == GateStep(before[k], events[k].isloop, events[k].cooldown, now, cond(k)).0) &&
    forall k :: i <= k < |events| ==> events[k].clock == before[k]
  }

  /** One pass of the `EventControl.run` loop: the `i`-th event runs and the record grows by its turn. */
  method NextEvent(events: seq<Event>, i: nat, e: Event, now: real, cond: nat -> Option<bool>, rc: RaidControl,
                   w: World, db: CreatureTable, sizex: int, sizey: int,
                   ghost turns: seq<Turn>, ghost a0: RaidLook, ghost g0: Registries, ghost before: seq<Clock>)
    returns (ghost turns': seq<Turn>)
    requires i < |events| && e == events[i] && w.Valid()
    requires forall x, y :: 0 <= x < y < |events| ==> events[x] != events[y]
    requires Clocked(events, i, before, now, cond)
    requires Turns(events[..i], now, cond, db, turns, a0, g0, LookOf(rc), w.Snapshot())
    requires forall k :: 0 <= k < |turns| ==> turns[k].clock == before[k]
    modifies e`clock, rc, w
    ensures w.Valid() && Clocked(events, i + 1, before, now, cond)
    ensures Turns(events[..i + 1], now, cond, db, turns', a0, g0, LookOf(rc), w.Snapshot())
    ensures forall k :: 0 <= k < |turns'| ==> turns'[k].clock == before[k]
  {
    ghost var a, g := LookOf(rc), w.Snapshot();
    ghost var t := RunEvent(e, i, now, cond, rc, w, db, sizex, sizey);
    TurnsExtend(events[..i], e, now, cond, db, turns, t, a0, g0, a, g);
    assert events[..i + 1] == events[..i] + [e];
    turns' := turns + [t];
    assert forall k :: 0 <= k < |events| && k != i ==> events[k] != e;
  }

  /**
   * `EventControl.run(time)`: every event runs once, in list order; `cond(i)` is the outcome of the
   * `i`-th event's condition. Each event's clock moves by `GateStep`, and `turns` records what
   * each event did: the actions of the events that fired ran one after the other, each from the
   * state the one before left.
   */
  method RunEvents(ec: EventControl, now: real, cond: nat -> Option<bool>, rc: RaidControl, w: World,
                   db: CreatureTable, sizex: int, sizey: int) returns (ghost turns: seq<Turn>)
    requires w.Valid() && forall i, j :: 0 <= i < j < |ec.events| ==> ec.events[i] != ec.events[j]
    modifies ec.events, rc, w
    ensures w.Valid()
    ensures forall k :: 0 <= k < |ec.events| ==>
      ec.events[k].clock == GateStep(old(ec.events[k].clock), ec.events[k].isloop, ec.events[k].cooldown, now, cond(k)).0
    ensures Turns(ec.events, now, cond, db, turns, old(LookOf(rc)), old(w.Snapshot()), LookOf(rc), w.Snapshot())
    ensures forall k :: 0 <= k < |turns| ==> turns[k].clock == old(ec.events[k].clock)
  {
    var events := ec.events;
    ghost var before := seq(|events|, k requires 0 <= k < |events| reads events => events[k].clock);
    turns := [];
    var i := 0;
    while i < |events|
      invariant 0 <= i <= |events| && w.Valid() && ec.events == events
      invariant Clocked(events, i, before, now, cond)
      invariant Turns(events[..i], now, cond, db, turns, old(LookOf(rc)), old(w.Snapshot()), LookOf(rc), w.Snapshot())
      invariant forall k :: 0 <= k < |turns| ==> turns[k].clock == before[k]
    {
      turns := NextEvent(events, i, events[i], now, cond, rc, w, db, sizex, sizey, turns, old(LookOf(rc)), old(w.Snapshot()), before);
      i := i + 1;
    }
    assert events[..i] == events;
  }
}
