/**
 * The server's player (server/models/entities/Player.js) and its input handler
 * (server/models/InputController.js).
 */
module ServerPlayer {
  import opened Common
  import ServerStatus
  import ServerItems
  import Players

  /** The held keys of an input payload. */
  datatype KeyState = KeyState(up: bool, down: bool, left: bool, right: bool, inventory: bool)

  /** The mouse part of an input payload: the button number (0 for none) and the aim offset. */
  datatype Mouse = Mouse(button: int, dx: int, dy: int)

  /**
   * A player's last input payload: the `keys` object `handlePlayerInput` reads, the same key names
   * stored directly on the payload (which `updatePlayer` in server/server.js reads), and the mouse.
   */
  datatype Inputs = Inputs(keys: Option<KeyState>, flat: KeyState, mouse: Option<Mouse>)

  /** A held key counts as 1. */
  function Bit(b: bool): int { if b then 1 else 0 }

  /** The horizontal step: right minus left. */
  function StepX(k: KeyState): (dx: int)
    ensures -1 <= dx <= 1
  {
    Bit(k.right) - Bit(k.left)
  }

  /** The vertical step: down minus up (screen rows grow downwards). */
  function StepY(k: KeyState): (dy: int)
    ensures -1 <= dy <= 1
  {
    Bit(k.down) - Bit(k.up)
  }

  /** The facing of a nonzero step: horizontal only when it dominates strictly, so a diagonal faces up or down. */
  function StepFacing(dx: int, dy: int): (f: string)
    ensures f in {"right", "left", "down", "up"}
    ensures (f == "right" || f == "left") <==> (if dx < 0 then -dx else dx) > (if dy < 0 then -dy else dy)
  {
    var ax := if dx < 0 then -dx else dx;
    var ay := if dy < 0 then -dy else dy;
    if ax > ay then (if dx > 0 then "right" else "left") else (if dy > 0 then "down" else "up")
  }

  /** The key steps match the held keys: each axis moves by the one key held on it and stays when both or neither are. */
  lemma StepsFromKeys(k: KeyState)
    ensures StepX(k) == 1 <==> k.right && !k.left
    ensures StepX(k) == -1 <==> k.left && !k.right
    ensures StepY(k) == 1 <==> k.down && !k.up
    ensures StepY(k) == -1 <==> k.up && !k.down
    ensures StepX(k) != 0 && StepY(k) != 0 ==> StepFacing(StepX(k), StepY(k)) in {"down", "up"}
  {
  }

  /** `player.stats.speed || 2`: a missing or zero speed stands for 2. */
  function MoveSpeed(values: map<string, real>): (v: real)
    ensures v != 0.0
    ensures "speed" !in values ==> v == 2.0
  {
    if "speed" in values && values["speed"] != 0.0 then values["speed"] else 2.0
  }

  /**
   * The position step of a frame: the key step `(dx, dy)` divided by its length
   * `Math.sqrt(dx * dx + dy * dy)` and scaled by `speed`. `root2` stands for `Math.sqrt(2)`, the
   * length of a diagonal key step; a step along one axis has length 1.
   */
  function Displacement(dx: int, dy: int, speed: real, root2: real): (d: (real, real))
    requires root2 > 0.0
  {
    if dx == 0 && dy == 0 then (0.0, 0.0)
    else if dx == 0 || dy == 0 then (dx as real * speed, dy as real * speed)
    else (dx as real / root2 * speed, dy as real / root2 * speed)
  }

  /**
   * The normalised step: no key, no move; otherwise the step is `speed` long whichever of the
   * eight directions it takes (a diagonal is no faster), its two parts are equally long on a
   * diagonal, and for a positive speed each part has the sign of its key step.
   */
  lemma DisplacementLength(dx: int, dy: int, speed: real, root2: real)
    requires -1 <= dx <= 1 && -1 <= dy <= 1
    requires root2 > 0.0 && root2 * root2 == 2.0
    ensures dx == 0 && dy == 0 ==> Displacement(dx, dy, speed, root2) == (0.0, 0.0)
    ensures var d := Displacement(dx, dy, speed, root2);
      (dx, dy) != (0, 0) ==> d.0 * d.0 + d.1 * d.1 == speed * speed
    ensures var d := Displacement(dx, dy, speed, root2);
      dx != 0 && dy != 0 ==> d.0 * d.0 == d.1 * d.1
    ensures var d := Displacement(dx, dy, speed, root2);
      speed > 0.0 ==> (d.0 > 0.0 <==> dx > 0) && (d.0 < 0.0 <==> dx < 0) && (d.1 > 0.0 <==> dy > 0) && (d.1 < 0.0 <==> dy < 0)
  {
    var d := Displacement(dx, dy, speed, root2);
    if dx != 0 && dy != 0 {
      var h := speed / root2;
      assert d.0 * d.0 == h * h && d.1 * d.1 == h * h;
      assert h * h * (root2 * root2) == speed * speed;
      assert speed > 0.0 ==> h > 0.0;
    }
  }

  /** The `ui_state` a toggle gives: hud and inventory swap, any other state stays. */
  function ToggleUi(ui: string): (u: string)
    ensures ui == "hud" ==> u == "inventory"
    ensures ui == "inventory" ==> u == "hud"
    ensures ui != "hud" && ui != "inventory" ==> u == ui
  {
    if ui == "hud" then "inventory" else if ui == "inventory" then "hud" else ui
  }

  /** The debounce step: `(ui_state, inventoryKeyPressed)` after one frame with the key held or not. */
  function Debounce(ui: string, wasPressed: bool, held: bool): (r: (string, bool))
    ensures r.1 == held
  {
    if held then (if wasPressed then (ui, true) else (ToggleUi(ui), true)) else (ui, false)
  }

  /** The state after a run of frames. */
  function DebounceAll(ui: string, wasPressed: bool, frames: seq<bool>): (string, bool)
    decreases |frames|
  {
    if |frames| == 0 then (ui, wasPressed)
    else
      var (u, p) := Debounce(ui, wasPressed, frames[0]);
      DebounceAll(u, p, frames[1..])
  }

  /** Holding the key for any number of frames after a release toggles exactly once. */
  lemma {:induction false} HeldTogglesOnce(ui: string, n: nat)
    requires n >= 1
    ensures DebounceAll(ui, false, seq(n, _ => true)) == (ToggleUi(ui), true)
  {
    HeldStays(ToggleUi(ui), n - 1);
    assert seq(n, _ => true)[1..] == seq(n - 1, _ => true);
  }

  /** While the key stays held, further frames change nothing. */
  lemma {:induction false} HeldStays(ui: string, n: nat)
    ensures DebounceAll(ui, true, seq(n, _ => true)) == (ui, true)
  {
    if n > 0 {
      HeldStays(ui, n - 1);
      assert seq(n, _ => true)[1..] == seq(n - 1, _ => true);
    }
  }

  /** A press, a release and a second press toggle twice, which brings hud or inventory back. */
  lemma PressReleasePress(ui: string)
    requires ui == "hud" || ui == "inventory"
    ensures DebounceAll(ui, false, [true, false, true]) == (ui, true)
  {
    assert [true, false, true][1..] == [false, true];
    assert [false, true][1..] == [true];
    assert [true][1..] == [];
  }

  /** A row of the sprite sheet picked with JavaScript's `table[direction] || fallback`: a missing or 0 row falls back. */
  function RowOr(k: Option<nat>, base: int, fallback: int): int {
    if k.Some? && base + k.value != 0 then base + k.value else fallback
  }

  /**
   * `control_animation()` as written: attacking (12-15) over dashing (8-11) over moving (4-7)
   * over idle (0-3), through `|| 12`, `|| 8`, `|| 0` and `|| 4`.
   */
  function JsAnimRow(attacking: bool, dashing: bool, moving: bool, direction: string): (row: int)
    ensures attacking ==> 12 <= row <= 15
    ensures !attacking && dashing ==> 8 <= row <= 11
    ensures !attacking && !dashing && moving ==> (4 <= row <= 7 || row == 0)
    ensures !attacking && !dashing && !moving ==> 1 <= row <= 4
  {
    var k := Players.DirIndex(direction);
    if attacking then RowOr(k, 12, 12)
    else if dashing then RowOr(k, 8, 8)
    else if moving then RowOr(k, 4, 0)
    else RowOr(k, 0, 4)
  }

  /**
   * The server's row agrees with the client's `Players.AnimRow` everywhere except idle facing
   * right, where `0 || 4` gives 4.
   */
  lemma {:induction false} JsAnimRowAgrees(attacking: bool, dashing: bool, moving: bool, direction: string)
    ensures !attacking && !dashing && !moving && direction == "right" ==> JsAnimRow(attacking, dashing, moving, direction) == 4
    ensures !(!attacking && !dashing && !moving && direction == "right") ==>
      JsAnimRow(attacking, dashing, moving, direction) == Players.AnimRow(attacking, dashing, moving, direction)
  {
    var k := Players.DirIndex(direction);
    if k.Some? {
      Players.AnimRowDecodes(attacking, dashing, moving, direction);
    }
  }

  /** As written, an idle player facing right shows the row of a player walking right. */
  lemma IdleRightLooksWalking()
    ensures JsAnimRow(false, false, false, "right") == JsAnimRow(false, false, true, "right")
    ensures Players.AnimRow(false, false, false, "right") != Players.AnimRow(false, false, true, "right")
  {
    assert Players.DirIndex("right") == Some(0);
  }

  /** A server player: position, stats, a 35-slot inventory, equipment, UI state and the animation fields. */
  class SPlayer {
    const id: string
    var posx: real
    var posy: real
    const stats: ServerStatus.JsStatus
    const inv: ServerItems.JsInventory
    const equip: ServerItems.JsEquiped
    const texture: int
    /** The `type` property server/server.js tests; nothing sets it. */
    const kind: Option<string>
    var uiState: string
    var direction: string
    var moving: bool
    var attacking: bool
    var dashing: bool
    var anim: int
    var inventoryKeyPressed: bool
    var inputs: Option<Inputs>
    /** `lastAttack` and `attackTimer` in milliseconds; 0 stands for unset. */
    var lastAttack: int
    var attackTimer: int

    /** Every active effect names a stat the player has, and the equipment has all its slots. */
    ghost predicate Valid()
      reads this, stats, equip
    {
      stats.Valid() && equip.Valid()
    }

    /**
     * `new Player(id, idCliente, playerData)`: facing down, idle, at row 0, with the hud showing.
     * The saved inventory is handed to `loadItems` without the item factory, so it stays empty.
     */
    constructor (id: string, stats: ServerStatus.JsStatus, x: real, y: real, texture: int, savedInv: Option<ServerItems.ItemsData>)
      requires stats.Valid()
      ensures Valid()
      ensures this.id == id && this.stats == stats && posx == x && posy == y && this.texture == texture
      ensures |inv.itens| == 35 && forall i :: 0 <= i < 35 ==> inv.itens[i] == None
      ensures forall k :: k in equip.slots ==> equip.slots[k] == None
      ensures direction == "down" && !moving && !attacking && !dashing && anim == 0
      ensures uiState == "hud" && !inventoryKeyPressed && inputs == None && kind == None
      ensures lastAttack == 0 && attackTimer == 0
      ensures fresh(inv) && fresh(equip)
    {
      var bag := new ServerItems.JsInventory(35);
      if savedInv.Some? {
        bag.LoadItems(savedInv, false);
      }
      var gear := new ServerItems.JsEquiped();
      this.id := id;
      this.stats := stats;
      posx, posy := x, y;
      inv := bag;
      equip := gear;
      this.texture := texture;
      kind := None;
      uiState := "hud";
      direction := "down";
      moving, attacking, dashing := false, false, false;
      anim := 0;
      inventoryKeyPressed := false;
      inputs := None;
      lastAttack, attackTimer := 0, 0;
    }

    /** `control_animation()`: the row for the current flags and facing. */
    method ControlAnimation()
      modifies this`anim
      ensures anim == JsAnimRow(attacking, dashing, moving, direction)
    {
      var k := Players.DirIndex(direction);
      if attacking {
        anim := RowOr(k, 12, 12);
      } else if dashing {
        anim := RowOr(k, 8, 8);
      } else if moving {
        anim := RowOr(k, 4, 0);
      } else {
        anim := RowOr(k, 0, 4);
      }
    }

    /** `run(map)`: one `update_effects`, then `control_animation`. */
    method Run()
      requires Valid()
      modifies this`anim, stats
      ensures Valid()
      ensures ServerStatus.JsTick(stats.values, stats.activeEffects) ==
        ServerStatus.JsUpdateAll(old(stats.values), old(stats.activeEffects))
      ensures anim == JsAnimRow(attacking, dashing, moving, direction)
    {
      stats.UpdateEffects();
      ControlAnimation();
    }
  }

  /** Why `handlePlayerInput` stops early: the left button calls `player.atack`, which the server player does not have. */
  const AtackMissing := "TypeError: player.atack is not a function"

  /** The `keys` object of a payload; a payload without one holds no key. */
  function KeysOf(ins: Inputs): KeyState {
    if ins.keys.Some? then ins.keys.value else KeyState(false, false, false, false, false)
  }

  /**
   * `handlePlayerInput(player, map, gameState)`: nothing without a payload; otherwise the keys set
   * `moving` and, when moving, the facing, and the player steps by `Displacement`; the left button
   * then throws, before the inventory key is looked at; the inventory key is debounced.
   */
  method HandlePlayerInput(player: SPlayer, root2: real) returns (r: Result<(), string>)
    requires root2 > 0.0 && root2 * root2 == 2.0
    modifies player`moving, player`direction, player`posx, player`posy, player`uiState, player`inventoryKeyPressed
    ensures player.inputs.None? ==> r.Ok? && player.moving == old(player.moving) && player.direction == old(player.direction)
    ensures player.inputs.None? ==> player.posx == old(player.posx) && player.posy == old(player.posy)
    ensures player.inputs.Some? ==> var k := KeysOf(player.inputs.value);
      var d := Displacement(StepX(k), StepY(k), MoveSpeed(player.stats.values), root2);
      player.posx == old(player.posx) + d.0 && player.posy == old(player.posy) + d.1
    ensures player.inputs.None? ==> player.uiState == old(player.uiState) && player.inventoryKeyPressed == old(player.inventoryKeyPressed)
    ensures player.inputs.Some? ==> var k := KeysOf(player.inputs.value);
      player.moving == (StepX(k) != 0 || StepY(k) != 0) &&
      player.direction == (if player.moving then StepFacing(StepX(k), StepY(k)) else old(player.direction))
    ensures r.Err? <==> player.inputs.Some? && player.inputs.value.mouse.Some? && player.inputs.value.mouse.value.button == 1
    ensures r.Err? ==> r.error == AtackMissing
    ensures r.Err? ==> player.uiState == old(player.uiState) && player.inventoryKeyPressed == old(player.inventoryKeyPressed)
    ensures player.inputs.Some? && r.Ok? ==>
      (player.uiState, player.inventoryKeyPressed) == Debounce(old(player.uiState), old(player.inventoryKeyPressed), KeysOf(player.inputs.value).inventory)
  {
    if player.inputs.None? {
      return Ok(());
    }
    var ins := player.inputs.value;
    Steer(player, KeysOf(ins));
    Advance(player, KeysOf(ins), root2);
    if ins.mouse.Some? && ins.mouse.value.button == 1 {
      return Err(AtackMissing);
    }
    ToggleInventory(player, KeysOf(ins).inventory);
    r := Ok(());
  }

  /** The movement keys: `moving` iff the summed step is nonzero, and then the facing of that step. */
  method Steer(player: SPlayer, k: KeyState)
    modifies player`moving, player`direction
    ensures player.moving == (StepX(k) != 0 || StepY(k) != 0)
    ensures player.direction == (if player.moving then StepFacing(StepX(k), StepY(k)) else old(player.direction))
  {
    var dx, dy := 0, 0;
    if k.up { dy := dy - 1; }
    if k.down { dy := dy + 1; }
    if k.left { dx := dx - 1; }
    if k.right { dx := dx + 1; }
    if dx == 0 && dy == 0 {
      player.moving := false;
    } else {
      player.moving := true;
      player.direction := StepFacing(dx, dy);
    }
  }

  /** The position update after the steering: the key step normalised to length 1 and scaled by the speed. */
  method Advance(player: SPlayer, k: KeyState, root2: real)
    requires root2 > 0.0
    modifies player`posx, player`posy
    ensures var d := Displacement(StepX(k), StepY(k), MoveSpeed(player.stats.values), root2);
      player.posx == old(player.posx) + d.0 && player.posy == old(player.posy) + d.1
  {
    var speed := MoveSpeed(player.stats.values);
    var dx, dy := StepX(k), StepY(k);
    var mx, my := 0.0, 0.0;
    if dx != 0 && dy != 0 {
      mx, my := dx as real / root2 * speed, dy as real / root2 * speed;
    } else if dx != 0 || dy != 0 {
      mx, my := dx as real * speed, dy as real * speed;
    }
    player.posx := player.posx + mx;
    player.posy := player.posy + my;
  }

  /** The debounced inventory key: toggle on the first frame it is held, re-arm on release. */
  method ToggleInventory(player: SPlayer, held: bool)
    modifies player`uiState, player`inventoryKeyPressed
    ensures (player.uiState, player.inventoryKeyPressed) == Debounce(old(player.uiState), old(player.inventoryKeyPressed), held)
  {
    if held {
      if !player.inventoryKeyPressed {
        player.uiState := ToggleUi(player.uiState);
        player.inventoryKeyPressed := true;
      }
    } else {
      player.inventoryKeyPressed := false;
    }
  }
}
