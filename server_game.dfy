/**
 * The rules of the server's game loop (server/server.js): player steering and attack timing, mob
 * targeting and attacks, damage and respawn, and the state projection sent to clients.
 */
module ServerGame {
  import opened Common
  import ServerStatus
  import ServerPlayer

  /** A server mob, reduced to the properties the game loop reads and writes. */
  class SMob {
    const id: string
    var posx: real
    var posy: real
    const stats: ServerStatus.JsStatus
    const texture: int
    /** `lastAttack` in milliseconds; 0 stands for unset. */
    var lastAttack: int

    /** A mob that has not attacked yet. */
    constructor (id: string, x: real, y: real, stats: ServerStatus.JsStatus, texture: int)
      ensures this.id == id && posx == x && posy == y && this.stats == stats && this.texture == texture
      ensures lastAttack == 0
    {
      this.id := id;
      posx, posy := x, y;
      this.stats := stats;
      this.texture := texture;
      lastAttack := 0;
    }
  }

  /** The keys of an object's entries, in enumeration order. */
  function Keys<T>(entries: seq<(string, T)>): (ks: seq<string>)
    ensures |ks| == |entries|
    ensures forall i :: 0 <= i < |entries| ==> ks[i] == entries[i].0
  {
    seq(|entries|, i requires 0 <= i < |entries| => entries[i].0)
  }

  /** The entries whose key is not `key`, in order: `delete obj[key]`. */
  function Without<T>(entries: seq<(string, T)>, key: string): (r: seq<(string, T)>)
    ensures |r| <= |entries|
    ensures forall i :: 0 <= i < |r| ==> r[i].0 != key && r[i] in entries
    ensures forall e :: e in entries && e.0 != key ==> e in r
  {
    if |entries| == 0 then []
    else if entries[0].0 == key then Without(entries[1..], key)
    else [entries[0]] + Without(entries[1..], key)
  }

  /**
   * `gameState`: the players object keyed by socket id and the mobs object, each as its entries
   * in enumeration order.
   */
  class GameState {
    var players: seq<(string, ServerPlayer.SPlayer)>
    var mobs: seq<(string, SMob)>

    /** An empty game. */
    constructor ()
      ensures players == [] && mobs == []
    {
      players, mobs := [], [];
    }
  }

  /** A readiness test of the cooldown rules: never attacked (0), or more than `gap` ms since. */
  predicate Ready(last: int, now: int, gap: int) {
    last == 0 || now - last > gap
  }

  /** The ticks, among a run of ticks with the trigger held throughout, at which an attack starts. */
  function Starts(last: int, nows: seq<int>, gap: int): (s: seq<int>)
    ensures forall i :: 0 <= i < |s| ==> s[i] in nows
    decreases |nows|
  {
    if |nows| == 0 then []
    else if Ready(last, nows[0], gap) then [nows[0]] + Starts(nows[0], nows[1..], gap)
    else Starts(last, nows[1..], gap)
  }

  /**
   * The cooldown holds over any run of nonzero ticks: consecutive attack starts are more than
   * `gap` ms apart, and the first is more than `gap` after an earlier recorded attack.
   */
  lemma {:induction false} StartsSpaced(last: int, nows: seq<int>, gap: int)
    requires forall i :: 0 <= i < |nows| ==> nows[i] != 0
    ensures var s := Starts(last, nows, gap);
      forall i :: 0 < i < |s| ==> s[i] - s[i - 1] > gap
    ensures var s := Starts(last, nows, gap);
      |s| > 0 && last != 0 ==> s[0] - last > gap
    decreases |nows|
  {
    if |nows| > 0 {
      var rest := nows[1..];
      if Ready(last, nows[0], gap) {
        StartsSpaced(nows[0], rest, gap);
        var s := Starts(last, nows, gap);
        var t := Starts(nows[0], rest, gap);
        assert s == [nows[0]] + t;
        forall i | 0 < i < |s|
          ensures s[i] - s[i - 1] > gap
        {
          if i > 1 {
            assert s[i] == t[i - 1] && s[i - 1] == t[i - 2];
          }
        }
      } else {
        StartsSpaced(last, rest, gap);
      }
    }
  }

  /** `weapon.damage || 1`. */
  function HitDamage(weaponDamage: real): (d: real)
    ensures d != 0.0
  {
    if weaponDamage == 0.0 then 1.0 else weaponDamage
  }

  /** `target.stats.maxHp || 100`. */
  function RespawnHp(values: map<string, real>): (h: real)
    ensures h != 0.0
  {
    if "maxHp" in values && values["maxHp"] != 0.0 then values["maxHp"] else 100.0
  }

  /**
   * The hp a `processDamage` hit leaves on a living target of type `kind`: the old hp less the
   * damage, or `maxHp || 100` when that is 0 or below and the target is typed 'player'.
   */
  function HitHp(values: map<string, real>, kind: Option<string>, weaponDamage: real): (h: real)
    requires "hp" in values
    ensures kind != Some("player") ==> h == values["hp"] - HitDamage(weaponDamage)
  {
    var h := values["hp"] - HitDamage(weaponDamage);
    if h <= 0.0 && kind == Some("player") then RespawnHp(values) else h
  }

  /** `target.stats.hp` is truthy: defined and nonzero. */
  predicate Alive(values: map<string, real>) {
    "hp" in values && values["hp"] != 0.0
  }

  /**
   * `processDamage(attacker, target, weapon)` as written: a target whose hp is 0 or missing is
   * not hit (false, nothing changes); otherwise hp drops by the damage, and at hp <= 0 a target of
   * `type` 'mob' is deleted from the mobs object and one of `type` 'player' gets `maxHp || 100`
   * and the position (0, 0). No player sets `type`, so neither happens to one.
   */
  method ProcessDamage(game: GameState, target: ServerPlayer.SPlayer, weaponDamage: real) returns (hit: bool)
    requires target.stats.Valid()
    modifies game`mobs, target.stats`values, target`posx, target`posy
    ensures target.stats.Valid()
    ensures hit <==> Alive(old(target.stats.values))
    ensures !hit ==> target.stats.values == old(target.stats.values) && game.mobs == old(game.mobs)
    ensures !hit ==> target.posx == old(target.posx) && target.posy == old(target.posy)
    ensures hit ==> var h := old(target.stats.values["hp"]) - HitDamage(weaponDamage);
      if h <= 0.0 && target.kind == Some("player") then
        target.stats.values == old(target.stats.values)["hp" := RespawnHp(old(target.stats.values))] &&
        target.posx == 0.0 && target.posy == 0.0 && game.mobs == old(game.mobs)
      else
        target.stats.values == old(target.stats.values)["hp" := h] &&
        target.posx == old(target.posx) && target.posy == old(target.posy) &&
        game.mobs == if h <= 0.0 && target.kind == Some("mob") then Without(old(game.mobs), target.id) else old(game.mobs)
  {
    var st := target.stats;
    var damage := HitDamage(weaponDamage);
    if Alive(st.values) {
      st.values := st.values["hp" := st.values["hp"] - damage];
      if st.values["hp"] <= 0.0 {
        if target.kind == Some("mob") {
          game.mobs := Without(game.mobs, target.id);
        } else if target.kind == Some("player") {
          st.values := st.values["hp" := RespawnHp(st.values)];
          target.posx, target.posy := 0.0, 0.0;
        }
      }
      return true;
    }
    return false;
  }

  /** A player left with hp 3 takes a mob's 5 and stays at -2 where it stood, still a target for the next hit. */
  method LethalHitKeepsPlayer() returns (game: GameState, p: ServerPlayer.SPlayer)
    ensures Alive(p.stats.values) && p.stats.values["hp"] == -2.0 && p.posx == 7.0 && p.posy == 9.0
  {
    game := new GameState();
    var st := new ServerStatus.JsStatus(3.0, 10.0, 0.0, 0.0, 0.0, 0.0, 0.0, 0.0, 0.0, 0.0, 0.0, 0.0, 0.0, 0.0);
    p := new ServerPlayer.SPlayer("a", st, 7.0, 9.0, 8, None);
    var hit := ProcessDamage(game, p, 5.0);
  }

  /**
   * `processDamage` as its comments intend, for the only targets the game loop hands it, players:
   * a lethal hit respawns the player with `maxHp || 100` at (0, 0).
   */
  method ProcessPlayerDamage(target: ServerPlayer.SPlayer, weaponDamage: real) returns (hit: bool)
    requires target.stats.Valid()
    modifies target.stats`values, target`posx, target`posy
    ensures target.stats.Valid()
    ensures hit <==> Alive(old(target.stats.values))
    ensures !hit ==> target.stats.values == old(target.stats.values) && target.posx == old(target.posx) && target.posy == old(target.posy)
    ensures hit ==> var h := old(target.stats.values["hp"]) - HitDamage(weaponDamage);
      if h <= 0.0 then
        target.stats.values == old(target.stats.values)["hp" := RespawnHp(old(target.stats.values))] &&
        target.posx == 0.0 && target.posy == 0.0
      else
        target.stats.values == old(target.stats.values)["hp" := h] &&
        target.posx == old(target.posx) && target.posy == old(target.posy)
    ensures hit && RespawnHp(old(target.stats.values)) > 0.0 ==> target.stats.values["hp"] > 0.0
  {
    var st := target.stats;
    if Alive(st.values) {
      st.values := st.values["hp" := st.values["hp"] - HitDamage(weaponDamage)];
      if st.values["hp"] <= 0.0 {
        st.values := st.values["hp" := RespawnHp(st.values)];
        target.posx, target.posy := 0.0, 0.0;
      }
      return true;
    }
    return false;
  }

  /** The facing of a mouse aim: horizontal when `|dx| >= |dy|` (ties face sideways), else vertical. */
  function AimFacing(dx: int, dy: int): (f: string)
    ensures (f == "right" || f == "left") <==> (if dx < 0 then -dx else dx) >= (if dy < 0 then -dy else dy)
    ensures f == "right" <==> (if dx < 0 then -dx else dx) >= (if dy < 0 then -dy else dy) && dx > 0
  {
    var ax := if dx < 0 then -dx else dx;
    var ay := if dy < 0 then -dy else dy;
    if ax >= ay then (if dx > 0 then "right" else "left") else (if dy > 0 then "down" else "up")
  }

  /** The mouse button is truthy. */
  predicate Aiming(ins: ServerPlayer.Inputs) {
    ins.mouse.Some? && ins.mouse.value.button != 0
  }

  /**
   * `updatePlayer(player)` at time `now`: nothing without inputs; the keys on the payload steer
   * and step the player by `Displacement` (`root2` stands for `Math.sqrt(2)`);
   * a held button turns the player to the aim and starts an attack (300 ms long) when the 500 ms
   * cooldown allows; an attack ends once `now` reaches its timer.
   */
  method UpdatePlayer(player: ServerPlayer.SPlayer, now: int, root2: real)
    requires root2 > 0.0 && root2 * root2 == 2.0
    modifies player`moving, player`direction, player`posx, player`posy, player`attacking, player`attackTimer, player`lastAttack
    ensures player.inputs.None? ==> player.posx == old(player.posx) && player.posy == old(player.posy)
    ensures player.inputs.Some? ==> var k := player.inputs.value.flat;
      var d := ServerPlayer.Displacement(ServerPlayer.StepX(k), ServerPlayer.StepY(k), ServerPlayer.MoveSpeed(player.stats.values), root2);
      player.posx == old(player.posx) + d.0 && player.posy == old(player.posy) + d.1
    ensures player.inputs.None? ==> player.moving == old(player.moving) && player.direction == old(player.direction)
    ensures player.inputs.None? ==> (player.attacking == old(player.attacking) &&
      player.attackTimer == old(player.attackTimer) && player.lastAttack == old(player.lastAttack))
    ensures player.inputs.Some? ==> var k := player.inputs.value.flat;
      player.moving == (ServerPlayer.StepX(k) != 0 || ServerPlayer.StepY(k) != 0)
    ensures player.inputs.Some? && Aiming(player.inputs.value) ==>
      player.direction == AimFacing(player.inputs.value.mouse.value.dx, player.inputs.value.mouse.value.dy)
    ensures player.inputs.Some? && !Aiming(player.inputs.value) ==> var k := player.inputs.value.flat;
      player.direction == (if player.moving then ServerPlayer.StepFacing(ServerPlayer.StepX(k), ServerPlayer.StepY(k)) else old(player.direction))
    ensures var starts := player.inputs.Some? && Aiming(player.inputs.value) && Ready(old(player.lastAttack), now, 500);
      starts ==> player.attacking && player.lastAttack == now && player.attackTimer == now + 300
    ensures var starts := player.inputs.Some? && Aiming(player.inputs.value) && Ready(old(player.lastAttack), now, 500);
      player.inputs.Some? && !starts ==> (player.lastAttack == old(player.lastAttack) && player.attackTimer == old(player.attackTimer) &&
        player.attacking == (old(player.attacking) && now < old(player.attackTimer)))
  {
    if player.inputs.None? {
      return;
    }
    var ins := player.inputs.value;
    ServerPlayer.Steer(player, ins.flat);
    ServerPlayer.Advance(player, ins.flat, root2);
    if Aiming(ins) {
      player.direction := AimFacing(ins.mouse.value.dx, ins.mouse.value.dy);
      if Ready(player.lastAttack, now, 500) {
        player.attacking := true;
        player.attackTimer := now + 300;
        player.lastAttack := now;
      }
    }
    if player.attacking && now >= player.attackTimer {
      player.attacking := false;
    }
  }

  /** The squared distance between two points; `Math.sqrt` of it orders candidates the same way. */
  function Dist2(ax: real, ay: real, qx: real, qy: real): (d: real)
    ensures d >= 0.0
  {
    (ax - qx) * (ax - qx) + (ay - qy) * (ay - qy)
  }

  /** The positions of the players, in enumeration order. */
  function Spots(ps: seq<(string, ServerPlayer.SPlayer)>): (s: seq<(real, real)>)
    reads set i | 0 <= i < |ps| :: ps[i].1
    ensures |s| == |ps|
    ensures forall i :: 0 <= i < |ps| ==> s[i] == (ps[i].1.posx, ps[i].1.posy)
  {
    seq(|ps|, i requires 0 <= i < |ps| reads set j | 0 <= j < |ps| :: ps[j].1 => (ps[i].1.posx, ps[i].1.posy))
  }

  /**
   * The index the nearest-player scan settles on over the first `n` spots: a strictly closer
   * player replaces the current one, so ties go to the earliest.
   */
  function Nearest(spots: seq<(real, real)>, x: real, y: real, n: nat): (k: Option<nat>)
    requires n <= |spots|
    ensures k.None? <==> n == 0
    ensures k.Some? ==> k.value < n
    ensures k.Some? ==> forall j :: 0 <= j < n ==>
      Dist2(x, y, spots[j].0, spots[j].1) >= Dist2(x, y, spots[k.value].0, spots[k.value].1)
    ensures k.Some? ==> forall j :: 0 <= j < k.value ==>
      Dist2(x, y, spots[j].0, spots[j].1) > Dist2(x, y, spots[k.value].0, spots[k.value].1)
  {
    if n == 0 then None
    else
      var b := Nearest(spots, x, y, n - 1);
      if b.None? || Dist2(x, y, spots[n - 1].0, spots[n - 1].1) < Dist2(x, y, spots[b.value].0, spots[b.value].1)
      then Some(n - 1) else b
  }

  /** The nearest-player scan of `updateMob`. */
  method FindNearest(ps: seq<(string, ServerPlayer.SPlayer)>, x: real, y: real) returns (k: Option<nat>)
    ensures k == Nearest(Spots(ps), x, y, |ps|)
  {
    k := None;
    var best := 0.0;
    var i := 0;
    ghost var spots := Spots(ps);
    while i < |ps|
      invariant 0 <= i <= |ps|
      invariant k == Nearest(spots, x, y, i)
      invariant k.Some? ==> best == Dist2(x, y, spots[k.value].0, spots[k.value].1)
    {
      var d := Dist2(x, y, ps[i].1.posx, ps[i].1.posy);
      assert spots[i] == (ps[i].1.posx, ps[i].1.posy);
      assert d == Dist2(x, y, spots[i].0, spots[i].1);
      if k.None? || d < best {
        k, best := Some(i), d;
      }
      i := i + 1;
    }
  }

  /** `mob.stats.damage || 5`. */
  function MobDamage(values: map<string, real>): (d: real)
    ensures d != 0.0
  {
    if "damage" in values && values["damage"] != 0.0 then values["damage"] else 5.0
  }

  /** Every player's stats keep their effect invariant. */
  ghost predicate PlayersValid(ps: seq<(string, ServerPlayer.SPlayer)>)
    reads set i | 0 <= i < |ps| :: ps[i].1.stats
  {
    forall i :: 0 <= i < |ps| ==> ps[i].1.stats.Valid()
  }

  /**
   * `updateMob(mob)` at time `now`, without its movement: the nearest player by distance, ties
   * to the first in order, is the target; within 50 px (so also within the 300 px chase radius)
   * and once the 1000 ms cooldown allows, the mob hits it with `mob.stats.damage || 5` and records
   * the time. `target` is the chosen index, `attacked` whether it was hit.
   */
  method UpdateMob(game: GameState, mob: SMob, now: int) returns (target: Option<nat>, attacked: bool)
    requires PlayersValid(game.players)
    modifies mob`lastAttack, game`mobs
    modifies set i | 0 <= i < |game.players| :: game.players[i].1
    modifies set i | 0 <= i < |game.players| :: game.players[i].1.stats
    ensures target == Nearest(old(Spots(game.players)), old(mob.posx), old(mob.posy), |old(game.players)|)
    ensures attacked <==> (target.Some? && Ready(old(mob.lastAttack), now, 1000) &&
      Dist2(old(mob.posx), old(mob.posy), old(Spots(game.players))[target.value].0, old(Spots(game.players))[target.value].1) < 2500.0)
    ensures mob.lastAttack == if attacked then now else old(mob.lastAttack)
    ensures game.players == old(game.players)
    ensures !attacked ==> game.mobs == old(game.mobs)
    ensures attacked ==> var p := game.players[target.value].1;
      var values := old(p.stats.values);
      var lethal := Alive(values) && values["hp"] - HitDamage(MobDamage(old(mob.stats.values))) <= 0.0;
      p.stats.values == (if Alive(values) then values["hp" := HitHp(values, p.kind, MobDamage(old(mob.stats.values)))] else values) &&
      (if lethal && p.kind == Some("player") then p.posx == 0.0 && p.posy == 0.0
       else p.posx == old(p.posx) && p.posy == old(p.posy)) &&
      game.mobs == (if lethal && p.kind == Some("mob") then Without(old(game.mobs), p.id) else old(game.mobs))
    ensures forall i :: 0 <= i < |game.players| ==> var q := game.players[i].1;
      (!attacked || q.stats != game.players[target.value].1.stats) ==> q.stats.values == old(q.stats.values)
    ensures forall i :: 0 <= i < |game.players| ==> var q := game.players[i].1;
      (!attacked || q != game.players[target.value].1) ==> q.posx == old(q.posx) && q.posy == old(q.posy)
  {
    var ps := game.players;
    target := FindNearest(ps, mob.posx, mob.posy);
    attacked := false;
    if target.Some? {
      var p := ps[target.value].1;
      var d := Dist2(mob.posx, mob.posy, p.posx, p.posy);
      if d < 90000.0 && d < 2500.0 && Ready(mob.lastAttack, now, 1000) {
        var _ := ProcessDamage(game, p, MobDamage(mob.stats.values));
        mob.lastAttack := now;
        attacked := true;
      }
    }
  }

  /** What a client sees of a player: position, texture, sprite row, and the stat values and active effects of its `stats`. */
  datatype PlayerView = PlayerView(x: real, y: real, textureId: int, animRow: int, stats: map<string, real>,
                                   effects: seq<ServerStatus.JsEffect>)

  /** What a client sees of a mob: position and texture only. */
  datatype MobView = MobView(x: real, y: real, textureId: int)

  /**
   * `getSanitizedGameState()`: one view per player and one per mob, under the same keys in the
   * same order; a mob's view carries no stats and no sprite row.
   */
  method SanitizedState(game: GameState) returns (players: seq<(string, PlayerView)>, mobs: seq<(string, MobView)>)
    ensures Keys(players) == Keys(game.players) && Keys(mobs) == Keys(game.mobs)
    ensures forall i :: 0 <= i < |players| ==> var p := game.players[i].1;
      players[i].1 == PlayerView(p.posx, p.posy, p.texture, p.anim, p.stats.values, p.stats.activeEffects)
    ensures forall i :: 0 <= i < |mobs| ==> var m := game.mobs[i].1;
      mobs[i].1 == MobView(m.posx, m.posy, m.texture)
  {
    players := [];
    var i := 0;
    while i < |game.players|
      invariant 0 <= i <= |game.players| && |players| == i
      invariant forall j :: 0 <= j < i ==> players[j].0 == game.players[j].0
      invariant forall j :: 0 <= j < i ==> var p := game.players[j].1;
        players[j].1 == PlayerView(p.posx, p.posy, p.texture, p.anim, p.stats.values, p.stats.activeEffects)
    {
      var (id, p) := game.players[i];
      players := players + [(id, PlayerView(p.posx, p.posy, p.texture, p.anim, p.stats.values, p.stats.activeEffects))];
      i := i + 1;
    }
    mobs := [];
    i := 0;
    while i < |game.mobs|
      invariant 0 <= i <= |game.mobs| && |mobs| == i
      invariant forall j :: 0 <= j < i ==> mobs[j].0 == game.mobs[j].0
      invariant forall j :: 0 <= j < i ==> var m := game.mobs[j].1; mobs[j].1 == MobView(m.posx, m.posy, m.texture)
    {
      var (id, m) := game.mobs[i];
      mobs := mobs + [(id, MobView(m.posx, m.posy, m.texture))];
      i := i + 1;
    }
  }
}
