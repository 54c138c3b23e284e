/**
 * The client's player and mob rules (assets/classes/entities.py): the walk direction rule, the
 * dash and its cooldown, the per-frame `run`, the animation row, and the mob set-up from a
 * creature record with its fallback. Clock readings are parameters.
 */
module Players {
  import opened Common
  import opened World
  import opened Items
  import opened Inventories
  import Stats

  /** The eight walk directions `walk` knows. */
  const WalkDirections: set<string> := {"up", "down", "left", "right", "up_left", "up_right", "down_left", "down_right"}

  /**
   * The facing part of `walk`: a known direction sets `direction` to its first component (the
   * vertical one for a diagonal) and `moving`; any other input clears `moving` and keeps `direction`.
   */
  function WalkFacing(dir: string, direction: string): (r: (string, bool))
    ensures r.1 <==> dir in WalkDirections
    ensures !r.1 ==> r.0 == direction
    ensures dir in {"up", "down", "left", "right"} ==> r.0 == dir
    ensures dir in {"up_left", "up_right"} ==> r.0 == "up"
    ensures dir in {"down_left", "down_right"} ==> r.0 == "down"
  {
    var first := map["up" := "up", "down" := "down", "left" := "left", "right" := "right",
                     "up_left" := "up", "up_right" := "up", "down_left" := "down", "down_right" := "down"];
    if dir in first then (first[dir], true) else (direction, false)
  }

  /** The column of a facing in every row block: right 0, left 1, down 2, up 3. */
  function DirIndex(direction: string): (k: Option<nat>)
    ensures k.Some? <==> direction in {"right", "left", "down", "up"}
    ensures k.Some? ==> k.value < 4
  {
    if direction == "right" then Some(0)
    else if direction == "left" then Some(1)
    else if direction == "down" then Some(2)
    else if direction == "up" then Some(3)
    else None
  }

  /**
   * `control_animation()`: the sprite row by priority, attacking (12-15) over dashing (8-11) over
   * moving (4-7) over idle (0-3), the column given by the facing. An unknown facing gives the
   * block's first row, except that it gives 0 when moving and 4 when idle.
   */
  function AnimRow(attacking: bool, dashing: bool, moving: bool, direction: string): (row: int)
    ensures attacking ==> 12 <= row <= 15
    ensures !attacking && dashing ==> 8 <= row <= 11
    ensures !attacking && !dashing && moving ==> (4 <= row <= 7 || row == 0)
    ensures !attacking && !dashing && !moving ==> 0 <= row <= 4
  {
    var block := if attacking then 3 else if dashing then 2 else if moving then 1 else 0;
    match DirIndex(direction)
    case Some(k) => 4 * block + k
    case None => if attacking then 12 else if dashing then 8 else if moving then 0 else 4
  }

  /**
   * For a known facing the row encodes both the state and the facing: `row / 4` is the state with
   * the highest priority and `row % 4` the facing's column.
   */
  lemma AnimRowDecodes(attacking: bool, dashing: bool, moving: bool, direction: string)
    requires DirIndex(direction).Some?
    ensures AnimRow(attacking, dashing, moving, direction) % 4 == DirIndex(direction).value
    ensures AnimRow(attacking, dashing, moving, direction) / 4 ==
      if attacking then 3 else if dashing then 2 else if moving then 1 else 0
  {
  }

  /** Two frames with known facings show the same row exactly when the state block and the facing agree. */
  lemma AnimRowInjective(a1: bool, d1: bool, m1: bool, f1: string, a2: bool, d2: bool, m2: bool, f2: string)
    requires f1 in {"right", "left", "down", "up"} && f2 in {"right", "left", "down", "up"}
    ensures AnimRow(a1, d1, m1, f1) == AnimRow(a2, d2, m2, f2) <==>
      f1 == f2 && (if a1 then 3 else if d1 then 2 else if m1 then 1 else 0) == (if a2 then 3 else if d2 then 2 else if m2 then 1 else 0)
  {
    AnimRowDecodes(a1, d1, m1, f1);
    AnimRowDecodes(a2, d2, m2, f2);
  }

  /** `cooldown_dash()` at time `now`: a full second has passed since the last dash. */
  predicate DashReady(lastDashTime: real, now: real) {
    now - lastDashTime >= 1.0
  }

  /** The player's own state around its entity body, stat table and equipment. */
  class Player {
    const body: Entity
    const equip: Equiped
    var lastDashTime: real
    var direction: string
    var moving: bool
    var attacking: bool
    /** `_attack_anim_until`: `None` while the attribute has never been set. */
    var attackAnimUntil: Option<real>
    /** `active_hand`: which hand slot (1 or 2) attacks. */
    var activeHand: int
    /** `sprinting`: the constructor leaves it unset; the model starts it false. */
    var sprinting: bool

    /** The state the constructor leaves: never dashed, facing down, standing, not attacking, hand 1 active. */
    constructor (body: Entity, equip: Equiped)
      ensures this.body == body && this.equip == equip
      ensures lastDashTime == 0.0 && direction == "down" && !moving && !attacking && attackAnimUntil.None?
      ensures activeHand == 1 && !sprinting
    {
      this.body := body;
      this.equip := equip;
      lastDashTime := 0.0;
      direction := "down";
      moving := false;
      attacking := false;
      attackAnimUntil := None;
      activeHand := 1;
      sprinting := false;
    }

    /** The facing part of `walk(dir, map)`. */
    method Walk(dir: string)
      modifies this`direction, this`moving
      ensures (direction, moving) == WalkFacing(dir, old(direction))
    {
      direction, moving := WalkFacing(dir, direction).0, WalkFacing(dir, direction).1;
    }

    /**
     * `dash()` at time `now`: only when the cooldown has passed and the player is moving, a
     * 30-frame speed effect worth twice the current speed is added and the dash time recorded.
     */
    method Dash(now: real) returns (dashed: bool)
      requires body.stats != null && body.stats.Valid()
      modifies body.stats, this`lastDashTime
      ensures body.stats.Valid()
      ensures dashed <==> DashReady(old(lastDashTime), now) && moving
      ensures dashed ==> lastDashTime == now
      ensures dashed ==> body.stats.values == Stats.Shift(old(body.stats.values), "speed", old(body.stats.values["speed"]) * 2.0)
      ensures dashed ==> (body.stats.activeEffects ==
        old(body.stats.activeEffects) + [Stats.NewEffect("speed", old(body.stats.values["speed"]) * 2.0, 30).(applied := true)])
      ensures !dashed ==> lastDashTime == old(lastDashTime) && body.stats.values == old(body.stats.values)
      ensures !dashed ==> body.stats.activeEffects == old(body.stats.activeEffects)
    {
      dashed := DashReady(lastDashTime, now) && moving;
      if dashed {
        var ok, added := body.stats.AddEffect(Stats.NewEffect("speed", body.stats.values["speed"] * 2.0, 30));
        lastDashTime := now;
      }
    }

    /** `control_animation()`: sets the entity's sprite row. */
    method ControlAnimation()
      modifies body`anim
      ensures body.anim == AnimRow(attacking, body.dashing, moving, direction)
    {
      body.anim := AnimRow(attacking, body.dashing, moving, direction);
    }

    /**
     * `run(map)` at time `now`: updates the effects, ticks the cooldown of the items in both hands,
     * then settles the attack, dash and sprite state. An item in a hand that is not a weapon has no
     * `update_cooldown` and raises AttributeError (`ok` is false), leaving the rest of the frame
     * undone.
     */
    method Run(now: real) returns (ok: bool)
      requires body.stats != null && body.stats.Valid() && equip.Valid()
      modifies body.stats, equip, this`attacking, body`dashing, body`anim
      ensures body.stats.Valid() && equip.Valid()
      ensures Stats.Tick(body.stats.values, body.stats.activeEffects) ==
        Stats.UpdateAll(old(body.stats.values), old(body.stats.activeEffects))
      ensures (equip.slots, ok) == HandsTick(old(equip.slots))
      ensures ok ==> attacking == (old(attacking) && attackAnimUntil.Some? && now < attackAnimUntil.value)
      ensures ok ==> body.dashing == !DashReady(lastDashTime, now)
      ensures ok ==> body.anim == AnimRow(attacking, body.dashing, moving, direction)
      ensures !ok ==> attacking == old(attacking) && body.dashing == old(body.dashing) && body.anim == old(body.anim)
    {
      var hands := HandsTick(equip.slots);
      body.stats.UpdateEffects();
      equip.slots := hands.0;
      ok := hands.1;
      if ok {
        Settle(now);
      }
    }

    /**
     * The end of `run`: the attack animation ends once its time is up (at once when none was
     * started), `dashing` holds while the dash cooldown runs, and the sprite row is picked.
     */
    method Settle(now: real)
      modifies this`attacking, body`dashing, body`anim
      ensures attacking == (old(attacking) && attackAnimUntil.Some? && now < attackAnimUntil.value)
      ensures body.dashing == !DashReady(lastDashTime, now)
      ensures body.anim == AnimRow(attacking, body.dashing, moving, direction)
    {
      if attackAnimUntil.Some? {
        if now >= attackAnimUntil.value {
          attacking := false;
        }
      } else {
        attacking := false;
      }
      body.dashing := !DashReady(lastDashTime, now);
      ControlAnimation();
    }
  }

  /** One hand's `update_cooldown()`: an empty hand is skipped, a weapon ticks, anything else raises. */
  function HandTick(o: Option<Item>): (r: Option<Option<Item>>)
    ensures o.None? ==> r == Some(None)
    ensures o.Some? && o.value.details.Weapon? ==>
      r == Some(Some(o.value.(details := Weapon(UpdateCooldown(o.value.details.w)))))
    ensures o.Some? && !o.value.details.Weapon? ==> r.None?
  {
    match o
    case None => Some(None)
    case Some(x) => if x.details.Weapon? then Some(Some(x.(details := Weapon(UpdateCooldown(x.details.w))))) else None
  }

  /**
   * Both hands' cooldown ticks, `hand1` first, and whether both went through: a hand that raises
   * stops the ticks there, keeping what was already done. Other slots are untouched.
   */
  function HandsTick(m: map<string, Option<Item>>): (r: (map<string, Option<Item>>, bool))
    requires m.Keys == SlotNames
    ensures r.0.Keys == SlotNames
    ensures r.1 <==> HandTick(m["hand1"]).Some? && HandTick(m["hand2"]).Some?
    ensures r.0["hand1"] == if HandTick(m["hand1"]).Some? then HandTick(m["hand1"]).value else m["hand1"]
    ensures r.0["hand2"] == if r.1 then HandTick(m["hand2"]).value else m["hand2"]
    ensures forall k :: k in m && k != "hand1" && k != "hand2" ==> r.0[k] == m[k]
  {
    var h1 := HandTick(m["hand1"]);
    if h1.None? then (m, false)
    else
      var m1 := m["hand1" := h1.value];
      var h2 := HandTick(m["hand2"]);
      if h2.None? then (m1, false) else (m1["hand2" := h2.value], true)
  }

  /** A creature row as the mob loader reads it. */
  datatype Creature = Creature(name: string, maxHp: real, regenHp: real, maxMana: real, regenMana: real,
                               maxStamina: real, regenStamina: real, damage: real, critical: real,
                               defense: real, speed: real, ace: real, behaviors: int, sizex: int, sizey: int,
                               texture: int)

  /** What the `Mob` constructor sets up: `behaviors` is the tree to build, `kind` the type it assigns. */
  datatype MobSetup = MobSetup(name: string, stats: map<string, real>, sizex: int, sizey: int, texture: int,
                               behaviors: Option<int>, kind: Option<string>)

  /** The stat table `Status(...)` builds from its fourteen arguments. */
  function StatTable(hp: real, maxHp: real, regenHp: real, mana: real, maxMana: real, regenMana: real,
                     stamina: real, maxStamina: real, regenStamina: real, damage: real, critical: real,
                     defense: real, speed: real, ace: real): (m: map<string, real>)
    ensures m.Keys == Stats.StatNames
  {
    map["hp" := hp, "maxHp" := maxHp, "regenHp" := regenHp, "mana" := mana, "maxMana" := maxMana,
        "regenMana" := regenMana, "stamina" := stamina, "maxStamina" := maxStamina,
        "regenStamina" := regenStamina, "damage" := damage, "critical" := critical,
        "defense" := defense, "speed" := speed, "ace" := ace]
  }

  /** The stat table kept from a dictionary that holds every stat: its value under each stat name. */
  function TableOf(d: map<string, real>): (m: map<string, real>)
    requires Stats.StatNames <= d.Keys
    ensures m.Keys == Stats.StatNames
  {
    StatTable(d["hp"], d["maxHp"], d["regenHp"], d["mana"], d["maxMana"], d["regenMana"],
              d["stamina"], d["maxStamina"], d["regenStamina"], d["damage"], d["critical"],
              d["defense"], d["speed"], d["ace"])
  }

  /**
   * `Player(id, file, texture)` reading `playerData['stats']`: the fourteen stats by name, or
   * `None` for the `KeyError` of a missing one.
   */
  function LoadStats(d: map<string, real>): (r: Option<map<string, real>>)
    ensures r.Some? <==> Stats.StatNames <= d.Keys
    ensures r.Some? ==> r.value.Keys == Stats.StatNames && forall k :: k in r.value ==> r.value[k] == d[k]
  {
    if Stats.StatNames <= d.Keys then Some(TableOf(d)) else None
  }

  /** `to_dict()["stats"]`: each of the fourteen stats under its own name. */
  function SaveStats(values: map<string, real>): (d: map<string, real>)
    requires Stats.StatNames <= values.Keys
    ensures d.Keys == Stats.StatNames && forall k :: k in d ==> d[k] == values[k]
  {
    TableOf(values)
  }

  /** A saved stat table loads back as it was. */
  lemma SavedStatsLoadBack(values: map<string, real>)
    requires values.Keys == Stats.StatNames
    ensures LoadStats(SaveStats(values)) == Some(values)
  {
    var d := SaveStats(values);
    assert LoadStats(d).value == values by {
      assert LoadStats(d).value.Keys == values.Keys;
    }
  }

  /** Loading then saving keeps exactly the fourteen stats of the dictionary and drops any other key. */
  lemma LoadedStatsSaveBack(d: map<string, real>)
    requires Stats.StatNames <= d.Keys
    ensures SaveStats(LoadStats(d).value) == map k | k in Stats.StatNames :: d[k]
  {
  }

  /**
   * `Mob(id, x, y, idMob)`: a found creature gives its name, size, texture and tree, type "mob",
   * and full hp, mana and stamina; a missing one gives "Unknown" with every stat and size 0, no
   * tree and no type of its own.
   */
  function NewMob(c: Option<Creature>): (m: MobSetup)
    ensures m.stats.Keys == Stats.StatNames
    ensures c.Some? ==> m.kind == Some("mob") && m.behaviors == Some(c.value.behaviors) && m.name == c.value.name
    ensures c.Some? ==> (m.stats["hp"] == m.stats["maxHp"] == c.value.maxHp && m.stats["mana"] == m.stats["maxMana"] &&
                         m.stats["stamina"] == m.stats["maxStamina"])
    ensures c.Some? ==> m.sizex == c.value.sizex && m.sizey == c.value.sizey
    ensures c.None? ==> (m.name == "Unknown" && m.sizex == 0 && m.sizey == 0 && m.texture == 0 &&
                         m.behaviors.None? && m.kind.None? && forall k :: k in m.stats ==> m.stats[k] == 0.0)
  {
    match c
    case Some(r) =>
      MobSetup(r.name, StatTable(r.maxHp, r.maxHp, r.regenHp, r.maxMana, r.maxMana, r.regenMana,
                                 r.maxStamina, r.maxStamina, r.regenStamina, r.damage, r.critical,
                                 r.defense, r.speed, r.ace),
               r.sizex, r.sizey, r.texture, Some(r.behaviors), Some("mob"))
    case None =>
      MobSetup("Unknown", StatTable(0.0, 0.0, 0.0, 0.0, 0.0, 0.0, 0.0, 0.0, 0.0, 0.0, 0.0, 0.0, 0.0, 0.0),
               0, 0, 0, None, None)
  }
}
