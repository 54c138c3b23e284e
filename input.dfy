/**
 * The client's keyboard and mouse state (utils/input.py): the per-frame state machine fed by
 * pygame's event queue with held, just-pressed and double-pressed keys, mouse buttons with
 * double clicks and the wheel; key binding; the quit request; and the keyboard branch of
 * `control`, which turns that state into the player's walk, sprint, hand and aim. The clock
 * reading of a frame is a parameter; joystick, focus and cursor-grab handling are not modelled.
 */
module Controls {
  import opened Common
  import Players
  import Items

  /** Presses of one key or button closer together than this many seconds are a double press. */
  const DoubleClickThreshold: real := 0.3

  /** The action names bound by default. */
  const DefaultActions: set<string> :=
    {"up", "down", "left", "right", "zoom_in", "zoom_out", "quit", "key_1", "key_2", "inventory", "dash"}

  /**
   * The default key bindings, by pygame 2 key code: W/Up, S/Down, A/Left, D/Right, +/=/PageUp,
   * -/PageDown, Escape, 1, 2, E and Space.
   */
  const DefaultBindings: map<int, string> := map[
    119 := "up", 1073741906 := "up", 115 := "down", 1073741905 := "down",
    97 := "left", 1073741904 := "left", 100 := "right", 1073741903 := "right",
    43 := "zoom_in", 61 := "zoom_in", 45 := "zoom_out",
    1073741899 := "zoom_in", 1073741902 := "zoom_out",
    27 := "quit", 49 := "key_1", 50 := "key_2", 101 := "inventory", 32 := "dash"]

  /** The pygame events the state machine reacts to; every other event is `OtherEvent`. */
  datatype Event =
    | QuitEvent
    | KeyDown(key: int)
    | KeyUp(key: int)
    | MouseMotion(x: int, y: int, dx: int, dy: int)
    | MouseDown(button: int)
    | MouseUp(button: int)
    | OtherEvent

  /**
   * One action's entries in the four per-action tables: held (`keys`), pressed this frame
   * (`key_pressed`), double-pressed this frame (`key_double_pressed`) and the time of its last
   * press (`key_last_pressed_time`). The tables always share their keys, so the model keeps one
   * table of these records.
   */
  datatype KeyState = KeyState(held: bool, pressed: bool, double: bool, last: real)

  /** One mouse button's entries: held, double-clicked this frame, and the time of its last click. */
  datatype ButtonState = ButtonState(held: bool, double: bool, last: real)

  /** An action or button never touched. */
  const Untouched: KeyState := KeyState(false, false, false, 0.0)
  const Idle: ButtonState := ButtonState(false, false, 0.0)

  /** Everything `Input` updates from events, as a value. */
  datatype InputState = InputState(
    keys: map<string, KeyState>,
    bindings: map<int, string>,
    buttons: seq<ButtonState>,
    wheel: int,
    pos: (int, int),
    rel: (int, int),
    quitRequested: bool)

  /**
   * The shape every reachable state has: every bound key names an action, the quit action exists,
   * and there are three mouse buttons.
   */
  predicate Valid(s: InputState) {
    (forall k :: k in s.bindings ==> s.bindings[k] in s.keys) && "quit" in s.keys && |s.buttons| == 3
  }

  /** The one-frame flags of every action cleared. */
  function ClearKeys(m: map<string, KeyState>): (r: map<string, KeyState>)
    ensures r.Keys == m.Keys
    ensures forall k :: k in r ==> r[k] == m[k].(pressed := false, double := false)
  {
    map k | k in m :: m[k].(pressed := false, double := false)
  }

  /** The double-click flags of the three buttons cleared. */
  function ClearButtons(b: seq<ButtonState>): (r: seq<ButtonState>)
    requires |b| == 3
    ensures |r| == 3 && forall i :: 0 <= i < 3 ==> r[i] == b[i].(double := false)
  {
    [b[0].(double := false), b[1].(double := false), b[2].(double := false)]
  }

  /** The state `Input()` starts in: nothing held, no press ever recorded, the mouse at (0, 0). */
  function Initial(): (s: InputState)
    ensures Valid(s)
  {
    InputState(map k | k in DefaultActions :: Untouched, DefaultBindings, [Idle, Idle, Idle], 0, (0, 0), (0, 0), false)
  }

  /**
   * The start of `update()`: the relative motion and the wheel are zeroed and the just-pressed,
   * double-pressed and double-click flags cleared; held keys and buttons stay.
   */
  function Begin(s: InputState): (r: InputState)
    requires Valid(s)
    ensures Valid(r)
  {
    s.(rel := (0, 0), wheel := 0, keys := ClearKeys(s.keys), buttons := ClearButtons(s.buttons))
  }

  /**
   * One event of `update()` at time `now`. A key-down of a bound key not already held marks it
   * held and just pressed, marks it double-pressed when less than 0.3 s has passed since its last
   * press, and records the press; a repeat while held is ignored. A key-up releases it. Mouse
   * buttons 1-3 go the same way without the repeat guard, and wheel buttons 4 and 5 step the
   * wheel up and down. Motion records the position and the relative move.
   */
  function Step(s: InputState, e: Event, now: real): (r: InputState)
    requires Valid(s)
    ensures Valid(r) && r.keys.Keys == s.keys.Keys && r.bindings == s.bindings
  {
    match e
    case QuitEvent => s.(quitRequested := true)
    case KeyDown(k) => PressKey(s, k, now)
    case KeyUp(k) =>
      if k in s.bindings then s.(keys := s.keys[s.bindings[k] := s.keys[s.bindings[k]].(held := false)]) else s
    case MouseMotion(x, y, dx, dy) => s.(pos := (x, y), rel := (dx, dy))
    case MouseDown(b) => PressButton(s, b, now)
    case MouseUp(b) =>
      if 1 <= b <= 3 then s.(buttons := s.buttons[b - 1 := s.buttons[b - 1].(held := false)]) else s
    case OtherEvent => s
  }

  /** The key-down case of `Step`. */
  function PressKey(s: InputState, k: int, now: real): (r: InputState)
    requires Valid(s)
    ensures Valid(r) && r.keys.Keys == s.keys.Keys && r.bindings == s.bindings
  {
    if k in s.bindings && !s.keys[s.bindings[k]].held then
      var name := s.bindings[k];
      var old_ := s.keys[name];
      s.(keys := s.keys[name := KeyState(true, true, old_.double || now - old_.last < DoubleClickThreshold, now)])
    else s
  }

  /** The mouse-button-down case of `Step`. */
  function PressButton(s: InputState, b: int, now: real): (r: InputState)
    requires Valid(s)
    ensures Valid(r) && r.keys == s.keys && r.bindings == s.bindings
  {
    if 1 <= b <= 3 then
      var old_ := s.buttons[b - 1];
      s.(buttons := s.buttons[b - 1 := ButtonState(true, old_.double || now - old_.last < DoubleClickThreshold, now)])
    else if b == 4 then s.(wheel := s.wheel + 1)
    else if b == 5 then s.(wheel := s.wheel - 1)
    else s
  }

  /** The events of one frame applied in order. */
  function Events(s: InputState, events: seq<Event>, now: real): (r: InputState)
    requires Valid(s)
    ensures Valid(r) && r.keys.Keys == s.keys.Keys && r.bindings == s.bindings
    decreases |events|
  {
    if |events| == 0 then s else Step(Events(s, events[..|events| - 1], now), events[|events| - 1], now)
  }

  /** `update()` at time `now` with the frame's events. */
  function Update(s: InputState, events: seq<Event>, now: real): (r: InputState)
    requires Valid(s)
    ensures Valid(r) && r.keys.Keys == s.keys.Keys && r.bindings == s.bindings
  {
    Events(Begin(s), events, now)
  }

  /**
   * `end_frame()`: the wheel and the relative motion are zeroed and all one-frame flags cleared,
   * while what is held and when it was last pressed stay.
   */
  function EndFrame(s: InputState): (r: InputState)
    requires Valid(s)
    ensures Valid(r) && r.bindings == s.bindings && r.pos == s.pos && r.quitRequested == s.quitRequested
    ensures r.wheel == 0 && r.rel == (0, 0)
    ensures r.keys.Keys == s.keys.Keys
    ensures forall k :: k in r.keys ==>
      !r.keys[k].pressed && !r.keys[k].double && r.keys[k].held == s.keys[k].held && r.keys[k].last == s.keys[k].last
    ensures forall i :: 0 <= i < 3 ==> !r.buttons[i].double && r.buttons[i].held == s.buttons[i].held && r.buttons[i].last == s.buttons[i].last
  {
    Begin(s)
  }

  /**
   * `bind_key(code, name)`: the key now triggers `name`; an action not seen before is added
   * released, never pressed and with no press time, and a known one keeps its state.
   */
  function BindKey(s: InputState, code: int, name: string): (r: InputState)
    requires Valid(s)
    ensures Valid(r)
    ensures r.bindings == s.bindings[code := name] && r.keys.Keys == s.keys.Keys + {name}
    ensures name !in s.keys ==> r.keys == s.keys[name := Untouched]
    ensures name in s.keys ==> r.keys == s.keys
    ensures r.buttons == s.buttons && r.wheel == s.wheel && r.pos == s.pos && r.rel == s.rel && r.quitRequested == s.quitRequested
  {
    s.(bindings := s.bindings[code := name], keys := if name in s.keys then s.keys else s.keys[name := Untouched])
  }

  /** `should_quit()`: the window was closed or the quit key is held. */
  function ShouldQuit(s: InputState): (q: bool)
    requires Valid(s)
    ensures q <==> s.quitRequested || KeyHeld(s, "quit")
  {
    s.quitRequested || s.keys["quit"].held
  }

  /** `get_key(name)`: held, false for an unknown action. */
  predicate KeyHeld(s: InputState, name: string) { name in s.keys && s.keys[name].held }

  /** `get_key_pressed(name)`: pressed this frame, false for an unknown action. */
  predicate KeyPressed(s: InputState, name: string) { name in s.keys && s.keys[name].pressed }

  /** `get_key_double_pressed(name)`: double-pressed this frame, false for an unknown action. */
  predicate KeyDoublePressed(s: InputState, name: string) { name in s.keys && s.keys[name].double }

  /** `get_mouse_button(i)`: held, false outside 0-2. */
  predicate MouseButton(s: InputState, i: int) { 0 <= i < 3 && i < |s.buttons| && s.buttons[i].held }

  /** `get_mouse_double_click(i)`: double-clicked this frame, false outside 0-2. */
  predicate MouseDoubleClick(s: InputState, i: int) { 0 <= i < 3 && i < |s.buttons| && s.buttons[i].double }

  // ---------------------------------------------------------------------------------------------
  // Properties of the state machine

  /**
   * A key-down of a bound key that is not held makes it held and pressed, records the time, and
   * makes it double-pressed exactly when it already was this frame or its last press is less than
   * 0.3 s old; no other action changes.
   */
  lemma KeyDownFresh(s: InputState, k: int, now: real)
    requires Valid(s) && k in s.bindings && !s.keys[s.bindings[k]].held
    ensures var r := Step(s, KeyDown(k), now); var name := s.bindings[k];
      KeyHeld(r, name) && KeyPressed(r, name) && r.keys[name].last == now &&
      (KeyDoublePressed(r, name) <==> KeyDoublePressed(s, name) || now - s.keys[name].last < DoubleClickThreshold) &&
      forall a :: a in s.keys && a != name ==> r.keys[a] == s.keys[a]
  {
  }

  /**
   * A key-up of a bound key releases its action and keeps what it says about this frame and its
   * last press; no other action, button or position changes. An unbound key changes nothing.
   */
  lemma KeyUpReleases(s: InputState, k: int, now: real)
    requires Valid(s)
    ensures var r := Step(s, KeyUp(k), now);
      k in s.bindings ==>
        var name := s.bindings[k];
        !KeyHeld(r, name) && (KeyPressed(r, name) <==> KeyPressed(s, name)) &&
        (KeyDoublePressed(r, name) <==> KeyDoublePressed(s, name)) && r.keys[name].last == s.keys[name].last &&
        (forall a :: a in s.keys && a != name ==> r.keys[a] == s.keys[a]) &&
        r.buttons == s.buttons && r.pos == s.pos && r.wheel == s.wheel
    ensures k !in s.bindings ==> Step(s, KeyUp(k), now) == s
  {
  }

  /**
   * A press of mouse button 1-3 makes it held and records the time; it is double-clicked exactly
   * when it already was this frame or its last press is less than 0.3 s old; the keys and the
   * other buttons stay. Unlike a key, a button already held is pressed again.
   */
  lemma ButtonDownFresh(s: InputState, b: int, now: real)
    requires Valid(s) && 1 <= b <= 3
    ensures var r := Step(s, MouseDown(b), now);
      MouseButton(r, b - 1) && r.buttons[b - 1].last == now &&
      (MouseDoubleClick(r, b - 1) <==> MouseDoubleClick(s, b - 1) || now - s.buttons[b - 1].last < DoubleClickThreshold) &&
      (forall i :: 0 <= i < 3 && i != b - 1 ==> r.buttons[i] == s.buttons[i]) &&
      r.keys == s.keys && r.wheel == s.wheel && r.pos == s.pos
  {
  }

  /** A key-down of a key already held (a key repeat) changes nothing. */
  lemma KeyRepeatIgnored(s: InputState, k: int, now: real)
    requires Valid(s) && k in s.bindings && s.keys[s.bindings[k]].held
    ensures Step(s, KeyDown(k), now) == s
  {
  }

  /**
   * A key pressed and released in a frame at `t1` and pressed again in a later frame at `t2` is
   * double-pressed in that frame exactly when `t2 - t1 < 0.3`; it is just pressed either way.
   */
  lemma DoublePressAcrossFrames(s: InputState, k: int, t1: real, t2: real)
    requires Valid(s) && k in s.bindings && !s.keys[s.bindings[k]].held
    ensures var name := s.bindings[k];
      var s2 := Update(Update(s, [KeyDown(k), KeyUp(k)], t1), [KeyDown(k)], t2);
      KeyPressed(s2, name) && (KeyDoublePressed(s2, name) <==> t2 - t1 < DoubleClickThreshold)
  {
    var name := s.bindings[k];
    var b1 := Begin(s);
    var d := Step(b1, KeyDown(k), t1);
    assert [KeyDown(k), KeyUp(k)][..1] == [KeyDown(k)];
    assert [KeyDown(k)][..0] == [];
    assert Events(b1, [KeyDown(k)], t1) == d;
    var s1 := Step(d, KeyUp(k), t1);
    assert Update(s, [KeyDown(k), KeyUp(k)], t1) == s1;
    assert !s1.keys[name].held && s1.keys[name].last == t1;
    var b2 := Begin(s1);
    assert b2.keys[name] == KeyState(false, false, false, t1);
    assert Events(b2, [], t2) == b2;
    assert Events(b2, [KeyDown(k)], t2) == Step(b2, KeyDown(k), t2);
  }

  /** The number of wheel-up and wheel-down button events, up minus down. */
  function WheelSteps(events: seq<Event>): int
    decreases |events|
  {
    if |events| == 0 then 0
    else
      var e := events[|events| - 1];
      WheelSteps(events[..|events| - 1]) + (if e == MouseDown(4) then 1 else if e == MouseDown(5) then -1 else 0)
  }

  /** Over a frame the wheel counts button-4 presses up and button-5 presses down. */
  lemma {:induction false} WheelCounts(s: InputState, events: seq<Event>, now: real)
    requires Valid(s)
    ensures Update(s, events, now).wheel == WheelSteps(events)
  {
    WheelFrom(Begin(s), events, now);
  }

  /** `WheelCounts` from any starting wheel value. */
  lemma {:induction false} WheelFrom(s: InputState, events: seq<Event>, now: real)
    requires Valid(s)
    ensures Events(s, events, now).wheel == s.wheel + WheelSteps(events)
    decreases |events|
  {
    if |events| > 0 {
      WheelFrom(s, events[..|events| - 1], now);
    }
  }

  /**
   * A key bound to a new action drives it: its key-down makes the action held and pressed, and a
   * double press only within 0.3 s of time zero, the new action's recorded last press.
   */
  lemma BoundKeyPresses(s: InputState, code: int, name: string, now: real)
    requires Valid(s) && name !in s.keys
    ensures var r := Step(BindKey(s, code, name), KeyDown(code), now);
      KeyHeld(r, name) && KeyPressed(r, name) && (KeyDoublePressed(r, name) <==> now < DoubleClickThreshold)
  {
  }

  /** A frame with a quit event asks to quit. */
  lemma QuitEventQuits(s: InputState, events: seq<Event>, now: real)
    requires Valid(s) && QuitEvent in events
    ensures ShouldQuit(Update(s, events, now))
  {
    QuitSticks(Begin(s), events, now);
  }

  /** Once set in a frame, the quit request stays set for the rest of it. */
  lemma {:induction false} QuitSticks(s: InputState, events: seq<Event>, now: real)
    requires Valid(s)
    ensures (s.quitRequested || QuitEvent in events) ==> Events(s, events, now).quitRequested
    decreases |events|
  {
    if |events| > 0 {
      var init := events[..|events| - 1];
      assert events == init + [events[|events| - 1]];
      QuitSticks(s, init, now);
    }
  }

  // ---------------------------------------------------------------------------------------------
  // The input object

  /** `Input`: the state machine's fields, updated in place. */
  class Input {
    var keys: map<string, KeyState>
    var bindings: map<int, string>
    var buttons: seq<ButtonState>
    var wheel: int
    var pos: (int, int)
    var rel: (int, int)
    var quitRequested: bool

    /** The fields as a value. */
    function State(): InputState
      reads this
    {
      InputState(keys, bindings, buttons, wheel, pos, rel, quitRequested)
    }

    /** `Input()`. */
    constructor ()
      ensures State() == Initial()
    {
      keys := map k | k in DefaultActions :: Untouched;
      bindings := DefaultBindings;
      buttons := [Idle, Idle, Idle];
      wheel, pos, rel, quitRequested := 0, (0, 0), (0, 0), false;
    }

    /** The one-frame fields cleared, as at the start of `update()` and in `end_frame()`. */
    method Reset()
      requires Valid(State())
      modifies this
      ensures State() == Begin(old(State()))
    {
      rel, wheel := (0, 0), 0;
      keys := ClearKeys(keys);
      buttons := ClearButtons(buttons);
    }

    /** One event of `update()`. */
    method Handle(e: Event, now: real)
      requires Valid(State())
      modifies this
      ensures State() == Step(old(State()), e, now)
    {
      match e {
        case QuitEvent =>
          quitRequested := true;
        case KeyDown(k) =>
          if k in bindings && !keys[bindings[k]].held {
            var name := bindings[k];
            var old_ := keys[name];
            keys := keys[name := KeyState(true, true, old_.double || now - old_.last < DoubleClickThreshold, now)];
          }
        case KeyUp(k) =>
          if k in bindings {
            keys := keys[bindings[k] := keys[bindings[k]].(held := false)];
          }
        case MouseMotion(x, y, dx, dy) =>
          pos, rel := (x, y), (dx, dy);
        case MouseDown(b) =>
          if 1 <= b <= 3 {
            var old_ := buttons[b - 1];
            buttons := buttons[b - 1 := ButtonState(true, old_.double || now - old_.last < DoubleClickThreshold, now)];
          } else if b == 4 {
            wheel := wheel + 1;
          } else if b == 5 {
            wheel := wheel - 1;
          }
        case MouseUp(b) =>
          if 1 <= b <= 3 {
            buttons := buttons[b - 1 := buttons[b - 1].(held := false)];
          }
        case OtherEvent =>
      }
    }

    /** `update()` at time `now` on the frame's events. */
    method UpdateFrame(events: seq<Event>, now: real)
      requires Valid(State())
      modifies this
      ensures State() == Update(old(State()), events, now)
    {
      Reset();
      ghost var start := State();
      var i := 0;
      while i < |events|
        invariant 0 <= i <= |events|
        invariant Valid(State()) && State() == Events(start, events[..i], now)
      {
        Handle(events[i], now);
        assert events[..i + 1][..i] == events[..i];
        i := i + 1;
      }
      assert events[..|events|] == events;
    }

    /** `end_frame()`. */
    method EndFrameNow()
      requires Valid(State())
      modifies this
      ensures State() == EndFrame(old(State()))
    {
      Reset();
    }

    /** `bind_key(code, name)`. */
    method Bind(code: int, name: string)
      requires Valid(State())
      modifies this
      ensures State() == BindKey(old(State()), code, name)
    {
      bindings := bindings[code := name];
      if name !in keys {
        keys := keys[name := Untouched];
      }
    }
  }

  // ---------------------------------------------------------------------------------------------
  // The keyboard branch of `control`

  /**
   * The walk direction of the held movement keys, by priority: the diagonals up-left, up-right,
   * down-left, down-right, then up, down, left, right; none when no movement key is held.
   */
  function MoveDirection(up: bool, down: bool, left: bool, right: bool): (d: Option<string>)
    ensures d.None? <==> !up && !down && !left && !right
    ensures d.Some? ==> d.value in Players.WalkDirections
  {
    if up && left then Some("up_left")
    else if up && right then Some("up_right")
    else if down && left then Some("down_left")
    else if down && right then Some("down_right")
    else if up then Some("up")
    else if down then Some("down")
    else if left then Some("left")
    else if right then Some("right")
    else None
  }

  /**
   * The facing the walk leaves: a held up key wins, then down, then left, then right; so with
   * opposite keys held the player faces up (or left), and a diagonal faces vertically.
   */
  lemma KeyboardFacing(up: bool, down: bool, left: bool, right: bool, facing: string)
    requires up || down || left || right
    ensures Players.WalkFacing(MoveDirection(up, down, left, right).value, facing) ==
      (if up then "up" else if down then "down" else if left then "left" else "right", true)
  {
  }

  /** The facing of a mouse aim at (`dx`, `dy`) from the screen centre: horizontal iff `|dx| >= |dy|`. */
  function AimFacing(dx: real, dy: real): (f: string)
    ensures (f == "right" || f == "left") <==> (if dx < 0.0 then -dx else dx) >= (if dy < 0.0 then -dy else dy)
    ensures f == "right" <==> (if dx < 0.0 then -dx else dx) >= (if dy < 0.0 then -dy else dy) && dx >= 0.0
    ensures f == "down" <==> (if dx < 0.0 then -dx else dx) < (if dy < 0.0 then -dy else dy) && dy >= 0.0
  {
    var ax := if dx < 0.0 then -dx else dx;
    var ay := if dy < 0.0 then -dy else dy;
    if ax >= ay then (if dx >= 0.0 then "right" else "left") else (if dy >= 0.0 then "down" else "up")
  }

  /** Sprinting: moving with the dash key held, some stamina left and no attack under way. */
  predicate Sprints(moving: bool, dashHeld: bool, stamina: real, attacking: bool) {
    moving && dashHeld && stamina > 0.0 && !attacking
  }

  /** The weapon in the active hand, if that hand holds one. */
  function ActiveWeapon(activeHand: int, slots: map<string, Option<Items.Item>>): (w: Option<Items.Item>)
    requires "hand1" in slots && "hand2" in slots
    ensures w.Some? ==> (activeHand == 1 && slots["hand1"] == w) || (activeHand == 2 && slots["hand2"] == w)
    ensures w.None? ==> (activeHand != 1 || slots["hand1"].None?) && (activeHand != 2 || slots["hand2"].None?)
  {
    if activeHand == 1 && slots["hand1"].Some? then slots["hand1"]
    else if activeHand == 2 && slots["hand2"].Some? then slots["hand2"]
    else None
  }

  /** The walk direction the held movement keys ask for. */
  function Heading(s: InputState): (d: Option<string>)
    ensures d.None? <==> !KeyHeld(s, "up") && !KeyHeld(s, "down") && !KeyHeld(s, "left") && !KeyHeld(s, "right")
  {
    MoveDirection(KeyHeld(s, "up"), KeyHeld(s, "down"), KeyHeld(s, "left"), KeyHeld(s, "right"))
  }

  /** The active hand after keys 1 and 2: key 2 wins when both are pressed in one frame. */
  function ChosenHand(s: InputState, hand: int): (h: int)
    ensures KeyPressed(s, "key_2") ==> h == 2
    ensures !KeyPressed(s, "key_2") && KeyPressed(s, "key_1") ==> h == 1
    ensures !KeyPressed(s, "key_1") && !KeyPressed(s, "key_2") ==> h == hand
  {
    if KeyPressed(s, "key_2") then 2 else if KeyPressed(s, "key_1") then 1 else hand
  }

  /** The facing the mouse asks for, seen from the centre of a `screenW` by `screenH` screen. */
  function AimAt(s: InputState, screenW: int, screenH: int): string {
    AimFacing(s.pos.0 as real - screenW as real / 2.0, s.pos.1 as real - screenH as real / 2.0)
  }

  /**
   * The movement part of `control`'s keyboard branch: walk the priority direction or stand
   * still; sprint while moving with the dash key held, stamina left and no attack; and dash on
   * a double press of the dash key.
   */
  method Movement(s: InputState, player: Players.Player, now: real) returns (dashed: bool)
    requires player.body.stats != null && player.body.stats.Valid()
    modifies player`direction, player`moving, player`sprinting, player`lastDashTime, player.body.stats
    ensures player.body.stats.Valid()
    ensures player.moving == Heading(s).Some?
    ensures player.direction ==
      (if Heading(s).Some? then Players.WalkFacing(Heading(s).value, old(player.direction)).0 else old(player.direction))
    ensures player.sprinting == Sprints(player.moving, KeyHeld(s, "dash"), old(player.body.stats.values["stamina"]), player.attacking)
    ensures dashed <==> KeyDoublePressed(s, "dash") && Players.DashReady(old(player.lastDashTime), now) && player.moving
    ensures player.lastDashTime == if dashed then now else old(player.lastDashTime)
  {
    var d := Heading(s);
    if d.Some? {
      player.Walk(d.value);
      player.moving := true;
    } else {
      player.moving := false;
    }
    var stamina := player.body.stats.values["stamina"];
    player.sprinting := player.moving && KeyHeld(s, "dash") && stamina > 0.0 && !player.attacking;
    dashed := false;
    if KeyDoublePressed(s, "dash") {
      dashed := player.Dash(now);
    }
  }

  /**
   * The message Python raises when `Player.atack` passes `anim_row=` to `Weapon.atack`, whose
   * signature has no such parameter.
   */
  const AtackRowError := "TypeError: atack() got an unexpected keyword argument 'anim_row'"

  /** Whether `Player.atack` raises for this held item: only a `Weapon` defines `atack`. */
  predicate AtackRaises(item: Items.Item) {
    item.details.Weapon?
  }

  /**
   * The keyboard branch of `control(input, player, map)` at time `now`, on a `screenW` by
   * `screenH` screen: the movement, then keys 1 and 2 pick the active hand, then the aim and
   * attack. Whether the dash happened is returned, with the error the attack raised, if any.
   */
  method KeyboardControl(s: InputState, player: Players.Player, now: real, screenW: int, screenH: int)
    returns (dashed: bool, r: Result<(), string>)
    requires player.body.stats != null && player.body.stats.Valid() && player.equip.Valid()
    modifies player`direction, player`moving, player`sprinting, player`activeHand, player`attacking,
      player`attackAnimUntil, player`lastDashTime, player.body.stats
    ensures player.body.stats.Valid()
    ensures player.moving == Heading(s).Some?
    ensures player.sprinting == Sprints(player.moving, KeyHeld(s, "dash"), old(player.body.stats.values["stamina"]), old(player.attacking))
    ensures dashed <==> KeyDoublePressed(s, "dash") && Players.DashReady(old(player.lastDashTime), now) && player.moving
    ensures player.lastDashTime == if dashed then now else old(player.lastDashTime)
    ensures player.activeHand == ChosenHand(s, old(player.activeHand))
    ensures MouseButton(s, 0) && !player.body.dashing ==> player.direction == AimAt(s, screenW, screenH)
    ensures !(MouseButton(s, 0) && !player.body.dashing) ==>
      player.direction == (if Heading(s).Some? then Players.WalkFacing(Heading(s).value, old(player.direction)).0 else old(player.direction))
    ensures var w := ActiveWeapon(player.activeHand, player.equip.slots);
      r.Err? <==> MouseButton(s, 0) && !player.body.dashing && w.Some? && AtackRaises(w.value)
    ensures r.Err? ==> r.error == AtackRowError
    ensures var w := ActiveWeapon(player.activeHand, player.equip.slots);
      if MouseButton(s, 0) && !player.body.dashing && w.Some? && !AtackRaises(w.value)
      then player.attacking && player.attackAnimUntil == Some(now + 0.3)
      else player.attacking == old(player.attacking) && player.attackAnimUntil == old(player.attackAnimUntil)
  {
    dashed := Movement(s, player, now);
    player.activeHand := ChosenHand(s, player.activeHand);
    r := Aim(s, player, now, screenW, screenH);
  }

  /**
   * The combat part of `control`: while mouse button 0 is held and the player is not dashing, the
   * player faces the mouse as seen from the screen centre and, with an item in the active hand,
   * calls `Player.atack`. For a `Weapon` that call raises (`AtackRowError`) before the animation
   * starts; any other item has no `atack`, so only a message is printed and a 0.3 s attack
   * animation starts.
   */
  method Aim(s: InputState, player: Players.Player, now: real, screenW: int, screenH: int)
    returns (r: Result<(), string>)
    requires "hand1" in player.equip.slots && "hand2" in player.equip.slots
    modifies player`direction, player`attacking, player`attackAnimUntil
    ensures MouseButton(s, 0) && !player.body.dashing ==> player.direction == AimAt(s, screenW, screenH)
    ensures !(MouseButton(s, 0) && !player.body.dashing) ==> player.direction == old(player.direction)
    ensures var w := ActiveWeapon(player.activeHand, player.equip.slots);
      r.Err? <==> MouseButton(s, 0) && !player.body.dashing && w.Some? && AtackRaises(w.value)
    ensures r.Err? ==> r.error == AtackRowError
    ensures var w := ActiveWeapon(player.activeHand, player.equip.slots);
      if MouseButton(s, 0) && !player.body.dashing && w.Some? && !AtackRaises(w.value)
      then player.attacking && player.attackAnimUntil == Some(now + 0.3)
      else player.attacking == old(player.attacking) && player.attackAnimUntil == old(player.attackAnimUntil)
  {
    r := Ok(());
    if MouseButton(s, 0) && !player.body.dashing {
      player.direction := AimAt(s, screenW, screenH);
      var w := ActiveWeapon(player.activeHand, player.equip.slots);
      if w.Some? {
        if AtackRaises(w.value) {
          return Err(AtackRowError);
        }
        player.attacking := true;
        player.attackAnimUntil := Some(now + 0.3);
      }
    }
  }
}
