/**
 * The client's game shell (core/game.py): the stdout capture that turns `ACTION:name` lines
 * printed by interface callbacks into queued actions, the interface state machine switching
 * between the menu, the game and the inventory on the Escape and E keys and on captured actions,
 * the quit check and the zoom keys of the main loop. Rendering, the world tick and the gamepad
 * are not modelled.
 */
module Game {
  import opened Common
  import opened PyText
  import Controls
  import Components

  // ---------------------------------------------------------------------------------------------
  // Action capture

  /** The marker that makes a written line an action. */
  const ActionPrefix: string := "ACTION:"

  /** What the capture has queued and what it passed on to the real standard output. */
  datatype Capture = Capture(captured: seq<string>, forwarded: seq<string>)

  /**
   * `write(text)`: the text is stripped; if it then starts with the marker, every occurrence of
   * the marker is deleted and the rest is queued as an action, otherwise the stripped text and a
   * newline are forwarded.
   */
  function AfterWrite(c: Capture, text: string): (r: Capture)
    ensures StartsWith(Strip(text), ActionPrefix) ==>
      r == Capture(c.captured + [ReplaceAll(Strip(text), ActionPrefix)], c.forwarded)
    ensures !StartsWith(Strip(text), ActionPrefix) ==> r == Capture(c.captured, c.forwarded + [Strip(text) + "\n"])
  {
    var t := Strip(text);
    if StartsWith(t, ActionPrefix) then c.(captured := c.captured + [ReplaceAll(t, ActionPrefix)])
    else c.(forwarded := c.forwarded + [t + "\n"])
  }

  /**
   * Printing `ACTION:name` (a write of the text, then one of the newline) queues exactly `name`
   * and forwards only the newline, when `name` holds no marker and does not end in whitespace.
   */
  lemma PrintedAction(c: Capture, name: string)
    requires !Occurs(name, ActionPrefix)
    requires |name| == 0 || !IsSpace(name[|name| - 1])
    ensures AfterWrite(AfterWrite(c, ActionPrefix + name), "\n") == Capture(c.captured + [name], c.forwarded + ["\n"])
  {
    var t := ActionPrefix + name;
    assert t[0] == 'A' && t[|t| - 1] == (if |name| == 0 then ':' else name[|name| - 1]);
    StripKeeps(t);
    assert t[..|ActionPrefix|] == ActionPrefix;
    ReplaceLeading(ActionPrefix, name);
    ReplaceAbsent(name, ActionPrefix);
    var c1 := AfterWrite(c, t);
    assert Strip(t) == t && StartsWith(t, ActionPrefix);
    assert c1 == Capture(c.captured + [name], c.forwarded);
    assert SpaceBefore("\n") == 1;
    assert Strip("\n") == "";
    assert !StartsWith("", ActionPrefix) && Strip("\n") + "\n" == "\n";
  }

  /** The `ActionCapture` installed as standard output. */
  class ActionCapture {
    var captured: seq<string>
    var forwarded: seq<string>

    /** The capture's contents as a value. */
    function State(): Capture
      reads this
    {
      Capture(captured, forwarded)
    }

    /** `ActionCapture()`: nothing queued, nothing forwarded. */
    constructor ()
      ensures State() == Capture([], [])
    {
      captured, forwarded := [], [];
    }

    /** `write(text)`. */
    method Write(text: string)
      modifies this
      ensures State() == AfterWrite(old(State()), text)
    {
      var t := Strip(text);
      if StartsWith(t, ActionPrefix) {
        captured := captured + [ReplaceAll(t, ActionPrefix)];
      } else {
        forwarded := forwarded + [t + "\n"];
      }
    }

    /** `get_actions()`: the queued actions, oldest first; the queue is emptied. */
    method GetActions() returns (actions: seq<string>)
      modifies this
      ensures actions == old(captured) && captured == [] && forwarded == old(forwarded)
    {
      actions := captured;
      captured := [];
    }
  }

  // ---------------------------------------------------------------------------------------------
  // Interface state

  /** The shell's own state: the game state name, whether the loop runs, the zoom, and the interfaces. */
  datatype Shell = Shell(state: string, running: bool, zoom: real, ui: Components.UiState)

  /** The three game states. */
  const GameStates: set<string> := {"menu", "playing", "inventory"}

  /** The interface each game state shows. */
  function InterfaceOf(state: string): (name: string)
    requires state in GameStates
    ensures name in {"menu", "hud", "inventory"}
    ensures name == "hud" <==> state == "playing"
  {
    if state == "playing" then "hud" else state
  }

  /** Switching to game state `st`, showing interface `name` as the main one. */
  function Switch(sh: Shell, interfaces: set<string>, st: string, name: string): Shell {
    sh.(state := st, ui := Components.Show(sh.ui, interfaces, name, false).0)
  }

  /** The Escape key: the menu and the inventory return to the game, the game opens the menu. */
  function AfterQuitKey(sh: Shell, interfaces: set<string>, pressed: bool): (r: Shell)
    ensures !pressed || sh.state !in GameStates ==> r == sh
    ensures pressed && sh.state == "playing" ==> r.state == "menu"
    ensures pressed && sh.state in {"menu", "inventory"} ==> r.state == "playing"
    ensures r.running == sh.running && r.zoom == sh.zoom
  {
    if !pressed then sh
    else if sh.state == "menu" then Switch(sh, interfaces, "playing", "hud")
    else if sh.state == "playing" then Switch(sh, interfaces, "menu", "menu")
    else if sh.state == "inventory" then Switch(sh, interfaces, "playing", "hud")
    else sh
  }

  /** The E key: the game opens the inventory and the inventory closes; the menu ignores it. */
  function AfterInventoryKey(sh: Shell, interfaces: set<string>, pressed: bool): (r: Shell)
    ensures !pressed || sh.state !in {"playing", "inventory"} ==> r == sh
    ensures pressed && sh.state == "playing" ==> r.state == "inventory"
    ensures pressed && sh.state == "inventory" ==> r.state == "playing"
    ensures r.running == sh.running && r.zoom == sh.zoom
  {
    if !pressed then sh
    else if sh.state == "playing" then Switch(sh, interfaces, "inventory", "inventory")
    else if sh.state == "inventory" then Switch(sh, interfaces, "playing", "hud")
    else sh
  }

  /** The captured actions that return to the game. */
  const ResumeActions: set<string> := {"start_game", "close_menu", "close_inventory"}

  /** One captured action: a resume action returns to the game, `quit_game` stops the loop. */
  function AfterAction(sh: Shell, interfaces: set<string>, action: string): Shell {
    if action in ResumeActions then Switch(sh, interfaces, "playing", "hud")
    else if action == "quit_game" then sh.(running := false)
    else sh
  }

  /** The captured actions in order. */
  function AfterActions(sh: Shell, interfaces: set<string>, actions: seq<string>): (r: Shell)
    ensures r.zoom == sh.zoom && (r.running ==> sh.running)
    decreases |actions|
  {
    if |actions| == 0 then sh
    else AfterAction(AfterActions(sh, interfaces, actions[..|actions| - 1]), interfaces, actions[|actions| - 1])
  }

  /**
   * `_handle_interface_state_changes`: the Escape key, then the E key, then the actions captured
   * since the last frame.
   */
  function Handled(sh: Shell, interfaces: set<string>, quitPressed: bool, inventoryPressed: bool, actions: seq<string>): (r: Shell)
    ensures r.zoom == sh.zoom && (r.running ==> sh.running)
  {
    AfterActions(AfterInventoryKey(AfterQuitKey(sh, interfaces, quitPressed), interfaces, inventoryPressed), interfaces, actions)
  }

  /** Some captured action returns to the game. */
  predicate Resumes(actions: seq<string>) {
    exists i :: 0 <= i < |actions| && actions[i] in ResumeActions
  }

  /**
   * The captured actions decide the outcome on their own: the loop keeps running iff it was and
   * no action is `quit_game`, and the state is the game's iff some action resumes it (otherwise
   * it is left alone).
   */
  lemma {:induction false} ActionsOutcome(sh: Shell, interfaces: set<string>, actions: seq<string>)
    ensures AfterActions(sh, interfaces, actions).running <==> sh.running && "quit_game" !in actions
    ensures AfterActions(sh, interfaces, actions).state == if Resumes(actions) then "playing" else sh.state
    ensures AfterActions(sh, interfaces, actions).zoom == sh.zoom
    decreases |actions|
  {
    if |actions| > 0 {
      var init := actions[..|actions| - 1];
      var last := actions[|actions| - 1];
      ActionsOutcome(sh, interfaces, init);
      assert actions == init + [last];
      if Resumes(init) {
        var i :| 0 <= i < |init| && init[i] in ResumeActions;
        assert actions[i] in ResumeActions;
      }
      if last in ResumeActions {
        assert actions[|actions| - 1] in ResumeActions;
      }
    }
  }

  /**
   * The interfaces follow the game state: with the three interfaces registered, the game shows
   * the HUD, the menu the menu and the inventory the inventory, each with no overlay.
   */
  predicate Consistent(sh: Shell, interfaces: set<string>) {
    {"menu", "hud", "inventory"} <= interfaces && sh.state in GameStates &&
    sh.ui == Components.UiState(Some(InterfaceOf(sh.state)), [])
  }

  /** Every step of `Handled` keeps the interfaces in step with the game state. */
  lemma HandledConsistent(sh: Shell, interfaces: set<string>, quitPressed: bool, inventoryPressed: bool, actions: seq<string>)
    requires Consistent(sh, interfaces)
    ensures Consistent(Handled(sh, interfaces, quitPressed, inventoryPressed, actions), interfaces)
  {
    var a := AfterQuitKey(sh, interfaces, quitPressed);
    var b := AfterInventoryKey(a, interfaces, inventoryPressed);
    ActionsConsistent(b, interfaces, actions);
  }

  /** The captured actions keep the interfaces in step with the game state. */
  lemma {:induction false} ActionsConsistent(sh: Shell, interfaces: set<string>, actions: seq<string>)
    requires Consistent(sh, interfaces)
    ensures Consistent(AfterActions(sh, interfaces, actions), interfaces)
    decreases |actions|
  {
    if |actions| > 0 {
      ActionsConsistent(sh, interfaces, actions[..|actions| - 1]);
    }
  }

  /**
   * Escape pressed twice toggles back exactly from the game and from the menu; from the
   * inventory it goes on to the menu.
   */
  lemma QuitKeyTwice(sh: Shell, interfaces: set<string>)
    requires Consistent(sh, interfaces)
    ensures var r := AfterQuitKey(AfterQuitKey(sh, interfaces, true), interfaces, true);
      (r == sh <==> sh.state != "inventory") && (sh.state == "inventory" ==> r.state == "menu")
  {
  }

  /**
   * Escape and E pressed in one frame: the game ends in the menu, the menu in the inventory (via
   * the game), and the inventory stays open (closed and reopened).
   */
  lemma BothKeys(sh: Shell, interfaces: set<string>)
    requires sh.state in GameStates
    ensures var r := Handled(sh, interfaces, true, true, []);
      r.state == (if sh.state == "playing" then "menu" else "inventory")
  {
  }

  // ---------------------------------------------------------------------------------------------
  // The main loop's quit check and zoom

  /**
   * The quit condition the main loop means to test: the window was closed. (The loop calls
   * `should_quit()`, which also holds while the Escape key is held; see `EscapeStopsAsWritten`.)
   */
  predicate CloseRequested(s: Controls.InputState) {
    s.quitRequested
  }

  /** The zoom keys during the game: +0.5 each; a zoom-out below 0.1 resets to 0.5. */
  function Zoomed(z: real, zoomIn: bool, zoomOut: bool): (r: real)
    ensures z >= 0.1 ==> r >= 0.1
    ensures zoomIn == zoomOut && z >= 0.1 ==> r == z
  {
    var z1 := if zoomIn then z + 0.5 else z;
    if zoomOut then (if z1 - 0.5 < 0.1 then 0.5 else z1 - 0.5) else z1
  }

  /** The number of half steps after one frame of zoom keys from `k` half steps. */
  function HalfSteps(k: nat, zoomIn: bool, zoomOut: bool): (r: nat)
    ensures r >= 1
    ensures zoomIn == zoomOut && k >= 1 ==> r == k
  {
    var k1 := if zoomIn then k + 1 else k;
    if zoomOut then (if k1 <= 1 then 1 else k1 - 1) else (if k1 == 0 then 1 else k1)
  }

  /**
   * From a zoom of `k` half steps (starting at 2, that is 4 half steps) every frame leaves a
   * whole, positive number of half steps: the zoom never falls below 0.5.
   */
  lemma ZoomHalfSteps(k: nat, zoomIn: bool, zoomOut: bool)
    requires k >= 1
    ensures Zoomed(k as real * 0.5, zoomIn, zoomOut) == HalfSteps(k, zoomIn, zoomOut) as real * 0.5
  {
    var k1 := if zoomIn then k + 1 else k;
    assert (if zoomIn then k as real * 0.5 + 0.5 else k as real * 0.5) == k1 as real * 0.5;
    if zoomOut {
      assert k1 as real * 0.5 - 0.5 == (k1 - 1) as real * 0.5;
    }
  }

  /**
   * One pass of the main loop after `input.update()` (the input state `inp`) with the actions
   * captured before it: the interface changes, then the quit check, then the zoom keys if the
   * game is being played. `asWritten` selects the loop's own quit test, `should_quit()`;
   * otherwise only a window close stops it.
   */
  function Frame(sh: Shell, interfaces: set<string>, inp: Controls.InputState, actions: seq<string>, asWritten: bool): (r: Shell)
    requires Controls.Valid(inp)
    ensures r.running ==> sh.running
    ensures r.state != "playing" ==> r.zoom == sh.zoom
    ensures sh.zoom >= 0.1 ==> r.zoom >= 0.1
  {
    var h := Handled(sh, interfaces, Controls.KeyPressed(inp, "quit"), Controls.KeyPressed(inp, "inventory"), actions);
    var stop := if asWritten then Controls.ShouldQuit(inp) else CloseRequested(inp);
    var q := if stop then h.(running := false) else h;
    if q.state == "playing" then
      q.(zoom := Zoomed(q.zoom, Controls.KeyPressed(inp, "zoom_in"), Controls.KeyPressed(inp, "zoom_out")))
    else q
  }

  /** A whole frame keeps the interfaces in step with the game state. */
  lemma FrameConsistent(sh: Shell, interfaces: set<string>, inp: Controls.InputState, actions: seq<string>, asWritten: bool)
    requires Controls.Valid(inp) && Consistent(sh, interfaces)
    ensures Consistent(Frame(sh, interfaces, inp, actions, asWritten), interfaces)
  {
    HandledConsistent(sh, interfaces, Controls.KeyPressed(inp, "quit"), Controls.KeyPressed(inp, "inventory"), actions);
  }

  /**
   * As written, pressing Escape during the game stops the main loop in the same frame that
   * opens the menu: the key is held when `should_quit()` is asked.
   */
  lemma EscapeStopsAsWritten(sh: Shell, interfaces: set<string>, s: Controls.InputState, now: real)
    requires Controls.Valid(s) && sh.state == "playing"
    requires 27 in s.bindings && s.bindings[27] == "quit" && !s.keys["quit"].held
    ensures var inp := Controls.Update(s, [Controls.KeyDown(27)], now);
      var r := Frame(sh, interfaces, inp, [], true);
      r.state == "menu" && !r.running
  {
    EscapeFrame(s, now);
  }

  /** With the intended quit test, Escape during the game opens the menu and the game goes on. */
  lemma EscapeOpensMenu(sh: Shell, interfaces: set<string>, s: Controls.InputState, now: real)
    requires Controls.Valid(s) && sh.state == "playing" && sh.running
    requires 27 in s.bindings && s.bindings[27] == "quit" && !s.keys["quit"].held
    requires !s.quitRequested
    ensures var inp := Controls.Update(s, [Controls.KeyDown(27)], now);
      var r := Frame(sh, interfaces, inp, [], false);
      r.state == "menu" && r.running
  {
    EscapeFrame(s, now);
  }

  /** The frame in which Escape goes down: the quit action is held and pressed, nothing else is pressed. */
  lemma EscapeFrame(s: Controls.InputState, now: real)
    requires Controls.Valid(s) && 27 in s.bindings && s.bindings[27] == "quit" && !s.keys["quit"].held
    ensures var inp := Controls.Update(s, [Controls.KeyDown(27)], now);
      Controls.KeyPressed(inp, "quit") && Controls.KeyHeld(inp, "quit") && inp.quitRequested == s.quitRequested &&
      forall a :: a in inp.keys && a != "quit" ==> !inp.keys[a].pressed
  {
    var b := Controls.Begin(s);
    assert [Controls.KeyDown(27)][..0] == [];
    assert Controls.Events(b, [], now) == b;
  }

  // ---------------------------------------------------------------------------------------------
  // The game object

  /** The parts of `Game` the loop's state handling touches. */
  class GameShell {
    var gameState: string
    var running: bool
    var zoom: real
    const ui: Components.InterfaceManager
    const capture: ActionCapture
    const input: Controls.Input

    /** The shell's state as a value. */
    function State(): Shell
      reads this, ui
    {
      Shell(gameState, running, zoom, ui.State())
    }

    /**
     * `Game()`: the three interfaces registered, the game state "playing" with the HUD shown, the
     * zoom at 2, the loop running, no action captured, the default key bindings.
     */
    constructor ()
      ensures fresh(ui) && fresh(capture) && fresh(input)
      ensures ui.interfaces == {"menu", "hud", "inventory"}
      ensures State() == Shell("playing", true, 2.0, Components.UiState(Some("hud"), []))
      ensures Consistent(State(), ui.interfaces)
      ensures capture.State() == Capture([], []) && input.State() == Controls.Initial()
    {
      capture := new ActionCapture();
      input := new Controls.Input();
      var m := new Components.InterfaceManager({"menu", "hud", "inventory"});
      ui := m;
      gameState := "playing";
      var shown := m.ShowInterface("hud", false);
      zoom := 2.0;
      running := true;
    }

    /** Switching to a game state and its interface. */
    method SwitchTo(st: string, name: string)
      modifies this`gameState, ui
      ensures State() == Switch(old(State()), ui.interfaces, st, name)
    {
      gameState := st;
      var shown := ui.ShowInterface(name, false);
    }

    /** `_handle_interface_state_changes`, on the key state of the current frame. */
    method HandleInterfaceStateChanges()
      requires Controls.Valid(input.State())
      modifies this`gameState, this`running, ui, capture
      ensures State() == Handled(old(State()), ui.interfaces, Controls.KeyPressed(input.State(), "quit"),
        Controls.KeyPressed(input.State(), "inventory"), old(capture.captured))
      ensures capture.captured == [] && capture.forwarded == old(capture.forwarded)
    {
      var inp := input.State();
      QuitKey(Controls.KeyPressed(inp, "quit"));
      InventoryKey(Controls.KeyPressed(inp, "inventory"));
      var actions := capture.GetActions();
      ApplyActions(actions);
    }

    /** The Escape key's part of `_handle_interface_state_changes`. */
    method QuitKey(pressed: bool)
      modifies this`gameState, ui
      ensures State() == AfterQuitKey(old(State()), ui.interfaces, pressed)
    {
      if pressed {
        if gameState == "menu" {
          SwitchTo("playing", "hud");
        } else if gameState == "playing" {
          SwitchTo("menu", "menu");
        } else if gameState == "inventory" {
          SwitchTo("playing", "hud");
        }
      }
    }

    /** The E key's part of `_handle_interface_state_changes`. */
    method InventoryKey(pressed: bool)
      modifies this`gameState, ui
      ensures State() == AfterInventoryKey(old(State()), ui.interfaces, pressed)
    {
      if pressed {
        if gameState == "playing" {
          SwitchTo("inventory", "inventory");
        } else if gameState == "inventory" {
          SwitchTo("playing", "hud");
        }
      }
    }

    /** The captured actions' part of `_handle_interface_state_changes`. */
    method ApplyActions(actions: seq<string>)
      modifies this`gameState, this`running, ui
      ensures State() == AfterActions(old(State()), ui.interfaces, actions)
    {
      var i := 0;
      while i < |actions|
        invariant 0 <= i <= |actions|
        invariant State() == AfterActions(old(State()), ui.interfaces, actions[..i])
      {
        var action := actions[i];
        if action in ResumeActions {
          SwitchTo("playing", "hud");
        } else if action == "quit_game" {
          running := false;
        }
        assert actions[..i + 1][..i] == actions[..i];
        i := i + 1;
      }
      assert actions[..|actions|] == actions;
    }

    /** One pass of the main loop's state handling with the frame's events at time `now`. */
    method RunFrame(events: seq<Controls.Event>, now: real)
      requires Controls.Valid(input.State())
      modifies this`gameState, this`running, this`zoom, ui, capture, input
      ensures Controls.Valid(input.State()) && input.State() == Controls.Update(old(input.State()), events, now)
      ensures State() == Frame(old(State()), ui.interfaces, input.State(), old(capture.captured), false)
    {
      input.UpdateFrame(events, now);
      HandleInterfaceStateChanges();
      var inp := input.State();
      if CloseRequested(inp) {
        running := false;
      }
      if gameState == "playing" {
        zoom := Zoomed(zoom, Controls.KeyPressed(inp, "zoom_in"), Controls.KeyPressed(inp, "zoom_out"));
      }
    }
  }
}
