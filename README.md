# framework-projeto-integrador, modelled in Dafny

This project models the core of a small top-down RPG in Dafny and proves properties of the
model. The game has two halves:

- a Python client built on pygame;
- a Node.js server that keeps the shared state of an online session.

**Client (Python)**

- **World** (`world.dfy`). Entities live in five registries: mobs, projectiles, players,
  items and breakables. Each registry hands out dense ids 1..n, and removing an entity
  renumbers the rest.
  - An entity moves against the tile map, takes damage, dies once and pays an abyss penalty.
  - Projectiles hit targets.
  - The model keeps every registry dense and the registries disjoint.
- **Behaviour trees** (`behavior_tree.dfy`, `behaviors.dfy`):
  - sequence, selector and condition nodes;
  - the loader that turns a token list into a tree;
  - the mobs' actions and conditions.
- **Events** (`event.dfy`): grid spots and mobs spawned at them; gates that lock a room;
  raids that run in waves.
- **Stats and effects** (`stats.dfy`). Effects add a buff and take it back when they expire.
- **Items** (`items.dfy`, `inventory.dfy`):
  - consumables, equipment, key items and weapons, with their cooldown;
  - their dictionary save format and its round trip;
  - a stacking inventory and the equipment slots.
- **Player** (`player.dfy`): walking and facing, dashing, the animation row, and the run step.
- **Projectiles** (`projectiles.dfy`): their flight and what they hit.
- **The mob registry's frame** (`ticks.dfy`): `EControl.run`, which runs mobs and projectiles in
  order while deaths remove them from the list it walks.
- **Tile map** (`tile_map.dfy`): what blocks a tile.
- **Interface** (`components.dfy`):
  - parsing of textures, colours and coordinates;
  - buttons that fire once per press;
  - the item action buttons and their column layout;
  - the stack of interfaces.
- **Input** (`input.dfy`): keys, double presses, the mouse, the wheel, and the keyboard branch
  of `control`.
- **Game shell** (`game.dfy`):
  - the print capture that turns `ACTION:` lines into actions;
  - the game-state machine of menu, game and inventory;
  - the zoom;
  - the main loop's frame.
- **Python text helpers** (`common.dfy`, `py_text.dfy`): `int`, `float`, `str.strip`,
  `str.lower`, `str.split`, `str.replace` and truncation, written out for the above.

**Server (Node.js)**

- Entities and projectiles (`server_entity.dfy`).
- Status and effects (`server_status.dfy`).
- Items, the 35-slot inventory and the equipment (`server_items.dfy`).
- The input controller and the player (`server_player.dfy`).
- The game loop: damage, the mobs' targeting and attacks, and the sanitised state sent to clients (`server_game.dfy`).
- The collision map (`server_map.dfy`).
- `aim.dfy` compares the client's aim rule with the server's.

**How the source's forms are kept**

- Objects whose fields the source updates are classes. Examples: entities, the world, stats,
  inventories, buttons, the interface manager, the input state, the game shell and the
  server's objects.
- Their methods are proved against specification functions of the old state.
- Parsing, rules and formats are functions, with lemmas about them.
- Integers are unbounded.
- Python's truncating `int()` and JavaScript's `||` fallbacks are written out where they
  matter.

## Model

| member | source | states |
|---|---|---|
| World.Registries.Put | core/entity.py:179-195 | replacing one registry's sequence leaves the other four unchanged |
| World.Registries.Without | core/entity.py:186-193 | `rem(id)` on a registry with ids 1..n removes exactly the `id`-th entity and leaves the other registries unchanged |
| World.RemoveIdShape | core/entity.py:186-193 | removal shortens the sequence by one exactly when the id is in 1..n and keeps the order of the rest; an unknown id changes nothing |
| World.RemoveIdSubset | core/entity.py:186-193 | a removal only drops elements |
| World.WithoutWithin | core/entity.py:186-193 | after a removal every registry holds only entities it held before |
| World.RemoveIdMembers | core/entity.py:186-193 | in a registry without repeats, exactly the `id`-th entity leaves |
| World.KillTarget | core/entity.py:128-135 | `kill` removes from PControl exactly for type "player", from BrControl exactly for "breakable", from EControl otherwise |
| World.Decay | core/entity.py:86-89 | the damage timer drops by one frame and never below 0, and a timer at 0 stays put |
| World.Truncate | core/entity.py:105 | `int(v)` truncates toward zero |
| World.AbyssDamage | core/entity.py:105-107 | the abyss penalty is at least 1, is the integer part of a tenth of maxHp from maxHp 10 on, and is 1 below maxHp 20 |
| World.Entity.constructor | core/entity.py:10-36 | a new entity has the given id, box and type, faces left, has no damage effect and remembers its start as the abyss return point |
| World.Entity.Move | core/entity.py:38-79 | all or nothing: the entity moves by (x, y) exactly when no foot-row pixel of the target box reads class 1 on layer 0 or 1 and the target box overlaps no other breakable; the registries are untouched |
| World.Entity.Collision | core/entity.py:81-82 | a pixel collides exactly when the one-pixel box at it strictly overlaps the entity's box |
| World.Entity.Kill | core/entity.py:128-135 | the entity is removed from the registry its type names and the others are renumbered 1..n |
| World.Entity.TakeDamage | core/entity.py:117-127 | a dashing entity takes nothing; otherwise hp drops by the amount unclamped, the damage effect restarts, and the entity is killed exactly when hp is then at most 0 |
| World.Entity.Run | core/entity.py:83-113 | the timer decays; an entity with stats that is not dashing and stands with its whole foot row on abyss loses the abyss penalty and returns to its start, and one on an all-trap foot row takes the trap tick |
| World.Entity.Hazards | core/entity.py:92-113 | abyss and trap are both read from the foot row before either applies, abyss first, and dashing skips both |
| World.Entity.AbyssStep | core/entity.py:104-110 | the abyss penalty goes through `take_damage` and the entity is back at its start |
| World.Entity.ScanFoot | core/entity.py:95-102 | the loop reports abyss exactly when every foot pixel reads 2 on layer 0 or 1, and trap exactly when every one reads 3 |
| World.Entity.CheckProjectile | core/entity.py:156-178 | a dashing player ignores projectiles; anyone else raises AttributeError exactly when a projectile is registered; nothing in the source calls `check_projectile` |
| World.Breakable.constructor | assets/classes/entities.py:548-553 | a breakable is a body of type "breakable" with the given durability |
| World.Breakable.TakeDamage | assets/classes/entities.py:554-557 | durability drops by the amount, and at 0 or less the entity with that id leaves EControl while the breakable stays in BrControl |
| World.Breakable.Destroy | assets/classes/entities.py:558-559 | `destroy` removes the entity with the breakable's id from EControl |
| World.World.constructor | core/entity.py:179-180 | all five registries start empty |
| World.World.SetRegistry | core/entity.py:179-195 | one registry's sequence is replaced and the rest is unchanged |
| World.World.Add | core/entity.py:182-184 | `add` gives the entity id n + 1, appends it, keeps ids 1..n and returns the new id (as `BrControl.add` does) |
| World.World.Rem | core/entity.py:186-195 | `rem(id)` removes the `id`-th entity, renumbers the rest 1..n in order and ignores an unknown id |
| World.World.RemoveAndRenumber | core/entity.py:192-195 | the entity at index k leaves and the survivors are renumbered; the removed one keeps its id |
| World.World.MainPlayer | core/entity.py:358-360 | the first player, or none exactly when there is no player |
| World.FindId | core/entity.py:188-191 | the search loop finds the first entity with that id, or reports none when no entity has it |
| World.Renumber | core/entity.py:194-195 | after renumbering, registry r has ids 1..n and the other registries keep theirs |
| World.GetInAll | core/entity.py:179-195 | every registry's members are registered entities |
| World.AddKeepsValid | core/entity.py:182-184 | appending an unregistered entity whose id is the new length keeps ids dense and registries disjoint |
| World.DenseAppend | core/entity.py:182-184 | an entity whose id is the new length extends ids 1..n to 1..n+1 |
| World.RemKeepsValid | core/entity.py:186-195 | removing and renumbering one registry keeps all registries valid |
| TileMap.CheckCol | core/map.py:63-70 | off the map the answer is none; an error exactly when the pixel is on the map and the layer index is outside numpy's range; a found class is one of the table's values |
| TileMap.AsLookup | core/entity.py:97-98 | the lookup an entity reads gives `check_col`'s class on layers 0 and 1 |
| TileMap.LookupReadsCheckCol | core/entity.py:97-100 | an entity reads class c at a pixel exactly when `check_col` gives c on layer 0 or 1; off the map no pixel reads a class |
| TileMap.PixelTileBounds | core/map.py:64-67 | the floor-divided tile index is in range exactly when the pixel lies within the map's pixel extent |
| TileMap.SameTileSameAnswer | core/map.py:63-69 | any two pixels of one tile give the same answer |
| TileMap.InsideReadsTile | core/map.py:67-69 | inside the map on an existing layer the answer is the collision class of the tile's id, or none for an id the table lacks |
| TileMap.NegativeLayerCountsFromEnd | core/map.py:68 | a negative layer index reads the layer counted from the end |
| ServerMap.FloorDiv | server/models/map.js:91-92 | `Math.floor(a / b)`, none for a zero divisor, otherwise the floor quotient (for either sign of divisor) |
| ServerMap.ClassAt | server/models/map.js:96-97 | a non-zero class comes from an in-range cell whose id the table has |
| ServerMap.CheckCol | server/models/map.js:90-101 | a number exactly when the tile is on the map and the layer exists; a non-zero answer is one of the table's classes |
| ServerMap.CollisionMatrix | server/models/map.js:108-127 | a height by width grid whose cell is 1 exactly when some layer's tile id has a truthy class |
| ServerMap.BlockedMatchesCheckCol | server/models/map.js:90-127 | a cell of the matrix is blocked exactly when `check_col` at the tile's top-left pixel is non-zero on some layer |
| ServerMap.NegativePixelIsNull | server/models/map.js:94-100 | every negative tile coordinate reads `null` |
| BehaviorTree.Run | core/condition_nodes.py:1-34 | a condition node answers what its condition says and leaves the state; an action node runs its action and answers true; sequences and selectors run their children in order |
| BehaviorTree.SequenceAppend | core/condition_nodes.py:21-25 | a sequence over `a + b` runs `b` from the state `a` left only when every child of `a` passed; a failure in `a` runs nothing of `b` |
| BehaviorTree.SelectorAppend | core/condition_nodes.py:30-34 | a selector over `a + b` runs `b` only when every child of `a` failed; a success in `a` runs nothing of `b` |
| BehaviorTree.SequenceFailsAtFirst | core/condition_nodes.py:21-25 | a failing sequence failed at one child k: all children before k passed, k failed, and no later child ran |
| BehaviorTree.SelectorSucceedsAtFirst | core/condition_nodes.py:30-34 | a succeeding selector succeeded at one child k: all children before k failed, k succeeded, and no later child ran |
| BehaviorTree.SequenceFlattens | core/condition_nodes.py:21-25 | a sequence nested first in a sequence behaves as its children spliced in |
| BehaviorTree.SelectorFlattens | core/condition_nodes.py:30-34 | a selector nested first in a selector behaves as its children spliced in |
| BehaviorTree.Check | core/condition_nodes.py:35-40 | `Condition.check()` calls the wrapped function with no arguments and answers with it |
| BehaviorTree.SequenceOfChecks | core/condition_nodes.py:21-40 | a sequence of condition leaves passes exactly when every condition checks true, and leaves the state |
| BehaviorTree.SelectorOfChecks | core/condition_nodes.py:30-40 | a selector of condition leaves passes exactly when some condition checks true, and leaves the state |
| BehaviorTree.Finish | assets/classes/entities.py:66-70 | the load succeeds exactly when no token raised and exactly one node is left, and that node is the root; otherwise the first error, or "not one root" |
| BehaviorTree.LoadBehavior | assets/classes/entities.py:15-70 | no stored row gives no tree; otherwise the tokens are folded in order and the single node left is the root |
| BehaviorTree.FoldAppend | assets/classes/entities.py:29-64 | folding `a + c` folds `a`, then `c` from where `a` left off, unless `a` raised |
| BehaviorTree.IgnoredToken | assets/classes/entities.py:32-37 | an unknown key, or a structure other than Sequence or Selector, changes nothing |
| BehaviorTree.UnknownNameRaises | assets/classes/entities.py:38-50 | an unknown condition or action name raises ValueError naming it, whatever comes after |
| BehaviorTree.EmptyStackRaises | assets/classes/entities.py:52-57 | `block_start` or `block_end` with no open structure raises IndexError |
| BehaviorTree.SecondBlockStartDrops | assets/classes/entities.py:52-54 | a second `block_start` on the same frame drops the children the first one stored |
| BehaviorTree.InstantiateAll | assets/classes/entities.py:38-64 | a list of trees gives as many nodes |
| BehaviorTree.FoldTree | assets/classes/entities.py:29-64 | a canonical tree's tokens leave the stack as it was and put the tree in the buffer, absorbing the siblings already there as its first children |
| BehaviorTree.FoldOpen | assets/classes/entities.py:32-36 | a structure's opening tokens push its frame holding the buffer and empty the buffer |
| BehaviorTree.FoldClose | assets/classes/entities.py:56-64 | `block_end` pops the frame and leaves one node of the frame's kind over its stored children and the buffer |
| BehaviorTree.FoldChildren | assets/classes/entities.py:29-64 | a canonical child list folded from an empty buffer leaves the stack as it was and the children's nodes in the buffer |
| BehaviorTree.FoldLeaves | assets/classes/entities.py:38-50 | known leaves are appended to the buffer in order |
| BehaviorTree.RoundTrip | assets/classes/entities.py:15-70 | round trip: the token list the editor saves for a canonical tree with known names loads back as that tree's nodes |
| BehaviorTree.StructureAbsorbsSibling | assets/classes/entities.py:52-59 | a condition written before a sequence becomes that sequence's first child |
| Behaviors.Sign | assets/behaviors/actions.py:27 | the unit step is 1 for a positive offset and -1 otherwise |
| Behaviors.StepsAlongAxis | assets/behaviors/actions.py:26-42 | each call takes one pixel off the x offset while it lasts, then off the y offset |
| Behaviors.LegLasts32 | assets/behaviors/actions.py:15-29 | each 32-pixel leg lasts exactly 32 calls |
| Behaviors.Wander.constructor | assets/behaviors/actions.py:6 | no entity has an offset yet |
| Behaviors.Wander.Current | assets/behaviors/actions.py:13-24 | the working offset is never spent: the stored one, or a new leg when none is stored or it is spent |
| Behaviors.Wander.A1Fun | assets/behaviors/actions.py:8-50 | an entity at hp 0 or less is killed and the call goes on; the offset loses one pixel on x, else on y, with the facing set to match |
| Behaviors.Wander.KillThenWalk | assets/behaviors/actions.py:9-10 | the kill branch removes the entity from its registry and it still takes its step |
| Behaviors.Wander.Walk | assets/behaviors/actions.py:24-50 | one pixel along the working offset, the stored offset written back after the move |
| Behaviors.UnitStep | assets/behaviors/actions.py:26-48 | the step is along x while the x offset lasts, else along y |
| Behaviors.AnimBombastic | assets/behaviors/actions.py:55-60 | animation row 1 facing left, 0 facing right, unchanged otherwise |
| Behaviors.RunAction | assets/behaviors/actions.py:62-65 | looking a name up finds exactly "andar" and "animBombastic"; a missing name changes nothing |
| Behaviors.Stamp | assets/behaviors/conditions.py:12 | the recorded stamp of an id, or 0 for an id never seen |
| Behaviors.Monostable | assets/behaviors/conditions.py:7-18 | after firing at now1 the timer fires again exactly when at least 2 s have passed, and other ids are unaffected |
| Behaviors.Timers.constructor | assets/behaviors/conditions.py:5 | no timer has fired yet |
| Behaviors.Timers.Timer2s | assets/behaviors/conditions.py:7-18 | false for no entity; otherwise it fires exactly when 2 s have passed since the id's stamp, and only then records the new stamp |
| Behaviors.Default | assets/behaviors/conditions.py:21-22 | always true |
| Behaviors.RunCondition | assets/behaviors/conditions.py:20-27 | looking a name up finds exactly "timer-andar" and "sem-condicao"; only "timer-andar" touches the stamps |
| Events.GridSpot | core/event.py:69-73 | the i-th spawn spot lies in the three-wide column band from (x, y), and the first row is at y |
| Events.GridSpotsDistinct | core/event.py:69-73 | two mobs of one spawn share a spot exactly when they are the same index |
| Events.Ids | core/entity.py:182-184 | the ids n appends to a registry of length base receive are base + 1 .. base + n |
| Events.WallCells | core/event.py:89-95 | one wall gives quantx times quanty cells, none when either count is not positive |
| Events.WallCellsInBlock | core/event.py:89-95 | every wall cell lies on the 32 px lattice of its wall's block |
| Events.GateStep | core/event.py:30-62 | the first call only records the time; otherwise the action runs exactly when the condition held without raising, the cooldown has passed, and the event loops or has not run yet; a run records the time |
| Events.GateRun | core/event.py:30-62 | over a series of calls the action runs at most once per call |
| Events.OneShotAtMostOnce | core/event.py:58-62 | a one-shot event runs its action at most once over any series of calls, and never once it has |
| Events.LoopSpacing | core/event.py:54-57 | two consecutive runs of a looping event are at least the cooldown apart |
| Events.Event.constructor | core/event.py:8-28 | a new event has id 0 and has never been activated |
| Events.Event.Gate | core/event.py:30-62 | the decision of `run` is the one `GateStep` makes |
| Events.MakeMob | assets/classes/entities.py:71-95 | a spawned mob is at the spot with its creature's size and stats at full hp, or size 0 and zero stats when the creature is missing |
| Events.MobKind | assets/classes/entities.py:87 | a mob has type "mob" exactly when its creature was found |
| Events.SpawnMobs | core/event.py:65-79 | n mobs (none for n <= 0) join EControl after the ones there, in order, and receive the next ids |
| Events.SpawnOne | core/event.py:74-75 | one mob made at its spot joins EControl with id n + 1 |
| Events.AddBreakables | core/event.py:89-95 | a breakable per cell joins BrControl in order, and the ids returned are the next ids |
| Events.PlaceBreakable | core/event.py:94 | one breakable made at its cell joins BrControl with id n + 1 |
| Events.NewRaid | core/event.py:167-175 | a wave keeps its position and count, takes its number and starts with nothing spawned |
| Events.Waves | core/event.py:101-104 | the waves of a lock room are numbered base, base + 1, ... in order |
| Events.DenseIdPresent | core/event.py:218-222 | with ids 1..n an id is present exactly when it is in 1..n |
| Events.Survivors | core/event.py:230-231 | the filter keeps at most the breakables it was given |
| Events.RaidControl.constructor | core/event.py:178-183 | no waves, cursor 0, inactive, never activated, no lock walls |
| Events.RaidControl.Add | core/event.py:185-187 | a wave is numbered by its position and appended |
| Events.RaidControl.AddAll | core/event.py:101-104 | the waves are appended in order, numbered by position |
| Events.RaidControl.SpawnCurrent | core/event.py:199-209 | the current wave, if any, spawns mobs of its creature on the grid from its position and records their ids; past the end nothing happens |
| Events.RaidControl.Arm | core/event.py:96-100 | the lock ids are recorded and the wave list replaced, at cursor 0, inactive |
| Events.RaidControl.StartRaids | core/event.py:194-197 | the sequencer is active at the first wave, which spawns; with no waves nothing is spawned and the registries stay as they were |
| Events.RaidControl.Open | core/event.py:96-105 | the lock ids are recorded, the action's waves replace the list numbered from 0, the sequencer is active at wave 0, and that wave spawns when there is one |
| Events.RaidControl.Run | core/event.py:211-234 | while active, once no recorded id of the current wave is present the cursor moves on; the next wave spawns, or after the last one the sequencer stops and the lock walls leave BrControl |
| Events.RaidControl.Next | core/event.py:224-234 | past a cleared wave the next one spawns, or after the last the sequencer stops and the walls go |
| Events.RaidControl.Finish | core/event.py:228-234 | the last wave's end stops the sequencer, removes the lock walls from BrControl, renumbers the rest and clears the lock list |
| Events.WaveGone | core/event.py:217-222 | the wave is gone exactly when none of its recorded ids is present in EControl |
| Events.RemoveLocks | core/event.py:230-233 | every breakable with a lock id leaves BrControl and the rest are renumbered 1..n in order |
| Events.RenumberSurvivors | core/event.py:232-233 | the survivors renumbered 1..n keep the registries valid |
| Events.Reregister | core/event.py:230-233 | the survivors, renumbered 1..n, become BrControl; the registries stay valid and no other registry changes |
| Events.Unlocked | core/event.py:230-231 | the filter keeps, in order, exactly the breakables whose id is not a lock id |
| Events.SurvivorsDistinct | core/event.py:230-231 | the survivors are breakables that were there, without repeats |
| Events.ReplaceKeepsValid | core/event.py:230-233 | a registry replaced by some of its own entities, renumbered, keeps the registries valid |
| Events.LockRoomAction | core/event.py:84-106 | once a lock room has run, nothing changes; otherwise the state is a `LockedRoom`: one breakable per wall cell at its cell after the ones there, their ids as the lock ids, the action's waves numbered from 0, the first wave's mobs of its creature on its grid with their ids recorded, the sequencer active at wave 0 and the room marked used |
| Events.LockRoom | core/event.py:87-106 | a first lock room ends in `LockedRoom`, as above |
| Events.LockedRoomFrom | core/event.py:84-106 | the walls, the new waves and the first wave's spawn together make a `LockedRoom` |
| Events.LockIdsNameWalls | core/event.py:88-96 | in registries numbered 1..n the lock ids are exactly the ids of the walls placed, in order, and the first wave records exactly its mobs' ids |
| Events.BuildWalls | core/event.py:88-95 | one breakable per cell of every wall joins BrControl after the ones there, at its cell and typed breakable; no other registry changes, and the ids returned are the next ids |
| Events.Execute | core/event.py:64-114 | as `Executed` says per action type: a spawn adds n mobs (none for n <= 0) of its creature to EControl on the grid; a breakable spawn stacks n breakables at one spot in BrControl; a chat or unknown action changes nothing; a lock room changes nothing after the first and otherwise leaves a `LockedRoom`; only a lock room touches the sequencer |
| Events.EventControl.constructor | core/event.py:117-118 | no events |
| Events.EventControl.Add | core/event.py:158-160 | an event is numbered by its 0-based position and appended |
| Events.RunEvent | core/event.py:30-62 | the clock moves as `GateStep` says; when it fires the action does what `Executed` says, otherwise nothing else changes |
| Events.TurnsExtend | core/event.py:162-164 | a turn that starts where the recorded ones ended extends the record |
| Events.NextEvent | core/event.py:162-164 | one pass of the loop: the i-th event runs, the first i + 1 clocks have moved and the rest have not, and the record grows by that event's turn |
| Events.RunEvents | core/event.py:162-164 | every event runs once, in list order: each clock moves as `GateStep` says, and the returned turns record for each event whether its action ran and, if so, what `Executed` says it did, each turn starting from the sequencer and registries the previous one left |
| Stats.NewEffect | assets/classes/status.py:45-51 | a new effect counts down from its full duration and is not applied |
| Stats.UpdateAll | assets/classes/status.py:37-44 | one pass keeps at most the effects it was given and keeps the stat names |
| Stats.UpdateAllStats | assets/classes/status.py:37-44 | a pass keeps only effects it was given, so their stats stay among the known names |
| Stats.RevertShift | assets/classes/status.py:31-44 | reverting an applied effect gives back exactly the shift it made |
| Stats.RevertShiftCommute | assets/classes/status.py:31-44 | a revert and a shift commute |
| Stats.UpdateAllShift | assets/classes/status.py:37-44 | shifting a stat before a pass shifts it by the same amount after it, and the surviving effects are the same |
| Stats.UpdateAllAppend | assets/classes/status.py:37-44 | an effect appended last is processed last |
| Stats.Lifetime | assets/classes/status.py:39-40 | an effect survives its remaining ticks, and at least one pass |
| Stats.EffectRoundTrip | assets/classes/status.py:31-44 | after an effect's lifetime the stats and effect list are exactly those the same passes give without it; before, the effect is still applied and pending |
| Stats.Status.constructor | assets/classes/status.py:2-17 | each stat takes its argument and no effect is active |
| Stats.Status.Get | assets/classes/status.py:23-25 | a known stat's value, or None exactly for an unknown name |
| Stats.Status.Buff | assets/classes/status.py:19-21 | adds to a known stat; an unknown name changes nothing |
| Stats.Status.Set | assets/classes/status.py:27-29 | overwrites a known stat, so that `get` returns the new value; an unknown name changes nothing |
| Stats.Status.AddEffect | assets/classes/status.py:31-35 | a known stat is shifted at once and the effect appended, marked applied; an unknown stat raises before anything changes |
| Stats.Status.UpdateEffects | assets/classes/status.py:37-44 | the pass over a copy of the list skips no effect and leaves the stats and list `UpdateAll` gives |
| Stats.Pass | assets/classes/status.py:38-44 | the loop computes `UpdateAll` |
| Items.AsReal | assets/classes/entities.py:282-389 | a stored value reads as a float exactly when it is a number, with its value |
| Items.Get | assets/classes/entities.py:283-296 | `d.get(key, default)`: the stored entry, or the default when it is missing |
| Items.NewItem | core/item.py:1-8 | a plain item keeps its type tag and starts as one unit |
| Items.NewConsumable | assets/classes/itens.py:51-57 | a consumable is typed "Consumable" and starts as one unit |
| Items.NewEquipment | assets/classes/itens.py:97-113 | an equipment is typed "Equipment" and starts as one unit |
| Items.NewKeyItem | assets/classes/itens.py:155-158 | a key item is typed "KeyItem" and starts as one unit |
| Items.NewWeapon | assets/classes/itens.py:177-192 | a weapon is typed "Weapon", starts ready (cooldown 0) with maximum cooldown `int(120 / speed)`, in the hand its class names; a speed of 120 or more gives at most 1 |
| Items.WeaponSlot | assets/classes/itens.py:196-210 | the second hand exactly for shields ("escudo", "shield", any case), the first hand for every other class |
| Items.SlotOf | assets/classes/itens.py:98-113 | exactly equipment and weapons have a slot, a weapon's being its hand |
| Items.Tag | assets/classes/itens.py:69-245 | each subclass writes its own class name as `item_type`; a plain item writes its tag |
| Items.ToDict | core/item.py:15-22 | the dictionary holds the base entries and exactly the owning subclass's own entries, with no count |
| Items.ToDictWithQuant | assets/classes/entities.py:277-281 | the saved dictionary is `to_dict()` with the stack count added |
| Items.NormalTexture | assets/classes/entities.py:288-294 | None and "" become None, an integer string or a number becomes its integer, anything else is kept |
| Items.NormalAction | assets/classes/entities.py:331-336 | None and "" are kept, an integer string or number becomes its integer, any other string becomes None |
| Items.FromDict | assets/classes/entities.py:282-389 | the item type picks the class, every missing entry takes its default, an unknown type gives a plain item tagged by the type or "Generico", and the count comes from `quant` (1 when missing) |
| Items.Reloaded | assets/classes/itens.py:189 | what a reload gives back: the same item, with a weapon's cooldown reset to 0 |
| Items.SaveLoadRoundTrip | assets/classes/entities.py:277-389 | round trip: loading a saved item rebuilds it, up to the weapon cooldown a fresh weapon resets |
| Items.Use | assets/classes/itens.py:81-90 | each nonzero amount raises its resource to `min(current + amount, max)`; a zero amount leaves it alone |
| Items.Min | assets/classes/itens.py:84 | `min(a, b)` is the smaller of the two |
| Items.Refill | assets/classes/itens.py:83-84 | a nonzero amount is added to its stat and capped, and no other stat changes |
| Items.UpdateCooldown | assets/classes/itens.py:256-258 | a positive cooldown drops by one, anything else stays, and nothing else about the weapon changes |
| Items.CooldownsCountDown | assets/classes/itens.py:256-258 | after n frames a cooldown c >= 0 is max(c - n, 0) |
| Items.Attack | assets/classes/itens.py:247-254 | a weapon fires exactly when its cooldown is 0: the projectile is offset 16 px along the aim, joins EControl, and the cooldown becomes the maximum |
| Items.ReadyAgain | assets/classes/itens.py:247-258 | after firing, a weapon is ready again after exactly `max_cooldown` frames, not one earlier |
| Inventories.Occupied | core/inventory.py:3 | the occupied slots are at most the slots |
| Inventories.OccupiedFill | core/inventory.py:36-39 | filling an empty slot raises the occupancy by one |
| Inventories.OccupiedClear | core/inventory.py:45-48 | emptying an occupied slot lowers it by one |
| Inventories.OccupiedReplace | core/inventory.py:30-32 | replacing an occupied slot's item keeps it |
| Inventories.FirstMatch | core/inventory.py:30-31 | the first slot holding an item with that id, or none |
| Inventories.FirstFree | core/inventory.py:36-37 | the first empty slot, or none |
| Inventories.MatchAtUnique | core/inventory.py:30-31 | the first matching slot is the only one the scan can stop at |
| Inventories.FreeAtUnique | core/inventory.py:36-37 | the first empty slot is the only one the scan can stop at |
| Inventories.Inventory.constructor | core/inventory.py:2-4 | `storage` empty slots (none for a negative size) and the given count |
| Inventories.Inventory.Get | core/inventory.py:28-42 | a consumable stacks onto the first slot with the same id; otherwise the item takes the first empty slot and the count rises; a full inventory is unchanged |
| Inventories.Inventory.Drop | core/inventory.py:44-50 | an occupied slot in range gives up its item, becomes empty and the count drops; any other slot gives None and changes nothing |
| Inventories.Inventory.Describe | core/inventory.py:51-52 | `str` gives a line that reads back as the count and the number of slots |
| Inventories.Summary | core/inventory.py:52 | the line starts "Inventário: " and the count, and has the length of its parts |
| Inventories.ReadSummary | core/inventory.py:52 | reading a summary line: the prefix, the count, a slash, the size and the suffix, or none |
| Inventories.SummaryReadsBack | core/inventory.py:52 | the summary line loses nothing: it reads back as exactly the count and the size it was built from |
| Inventories.EquipSlot | core/inventory.py:70-73 | the slot is the item's `slot` when that names a slot; otherwise the error it raises: no attribute, not a string, or an invalid slot |
| Inventories.EquipOn | core/inventory.py:70-77 | the item goes to its slot and the previous occupant is returned; on an error nothing changes; other slots are untouched |
| Inventories.UnEquipOn | core/inventory.py:79-83 | a known slot is emptied and its occupant returned; an unknown name gives None and changes nothing |
| Inventories.EquipUnEquipRoundTrip | core/inventory.py:70-83 | equipping and then unequipping the slot gives the item back, with the slot empty and the others as they were |
| Inventories.Equiped.constructor | core/inventory.py:58-69 | all eleven slots start empty |
| Inventories.Equiped.Equip | core/inventory.py:70-77 | the slot table and the outcome are those `EquipOn` gives |
| Inventories.Equiped.UnEquip | core/inventory.py:79-83 | the slot table and the outcome are those `UnEquipOn` gives |
| Players.WalkFacing | assets/classes/entities.py:424-441 | a known direction sets the facing to its first component (vertical for a diagonal) and `moving`; anything else clears `moving` and keeps the facing |
| Players.DirIndex | assets/classes/entities.py:474-502 | the column of a facing in every row block, for exactly the four facings |
| Players.AnimRow | assets/classes/entities.py:474-502 | attacking (12-15) wins over dashing (8-11) over moving (4-7) over idle (0-3), with an unknown facing's fallbacks |
| Players.AnimRowDecodes | assets/classes/entities.py:474-502 | for a known facing, `row / 4` is the winning state and `row % 4` the facing |
| Players.AnimRowInjective | assets/classes/entities.py:474-502 | two frames with known facings show the same row exactly when state and facing agree |
| Players.Player.constructor | assets/classes/entities.py:210-219 | never dashed, facing down, standing, not attacking, hand 1 active |
| Players.Player.Walk | assets/classes/entities.py:435-441 | the facing and `moving` are those `WalkFacing` gives |
| Players.Player.Dash | assets/classes/entities.py:463-472 | a dash happens exactly when a second has passed since the last and the player is moving; it adds a 30-tick speed effect of twice the speed and records the time |
| Players.Player.ControlAnimation | assets/classes/entities.py:474-502 | the sprite row is `AnimRow` of the state |
| Players.Player.Run | assets/classes/entities.py:503-523 | the effects tick, the hands' cooldowns tick (a non-weapon in a hand raises), then the attack, dash and sprite state settle |
| Players.Player.Settle | assets/classes/entities.py:515-523 | the attack shows only while its time lasts, `dashing` holds while the dash cooldown runs, and the row follows |
| Players.HandTick | assets/classes/entities.py:509-512 | an empty hand is skipped, a weapon ticks, anything else raises |
| Players.HandsTick | assets/classes/entities.py:509-512 | hand1 ticks first; a hand that raises stops there, keeping what was done; other slots are untouched |
| Players.StatTable | assets/classes/status.py:2-16 | the table has exactly the fourteen stats |
| Players.LoadStats | assets/classes/entities.py:200-208 | the player's stats are the fourteen saved ones by name, or a KeyError exactly when one is missing |
| Players.SaveStats | assets/classes/entities.py:247-262 | `to_dict()["stats"]` holds exactly the fourteen stats with their values |
| Players.SavedStatsLoadBack | assets/classes/entities.py:200-262 | a saved stat table loads back as it was |
| Players.LoadedStatsSaveBack | assets/classes/entities.py:200-262 | loading and saving again keeps the fourteen stats of the file and drops every other key |
| Players.NewMob | assets/classes/entities.py:71-95 | a found creature gives its name, size, tree, type "mob" and full hp, mana and stamina; a missing one gives "Unknown", zero stats and size, no tree and no type |
| Projectiles.View | assets/behaviors/prj.py:13 | the scan sees every entity of the registry, in order |
| Projectiles.Distance | assets/behaviors/prj.py:17 | `abs(a - b)` |
| Projectiles.FirstContact | assets/behaviors/prj.py:13-26 | the index the scan stops at, computed front to back |
| Projectiles.StopsAtUnique | assets/behaviors/prj.py:13-26 | where a scan stops is determined: only `FirstContact` satisfies `StopsAt` |
| Projectiles.Scan | assets/behaviors/prj.py:13-26 | the loop skips the projectile itself and entities already hit, and stops at the first entity within the projectile's size on both axes |
| Projectiles.Projectile.constructor | assets/classes/entities.py:133-163 | the stored flight parameters, with the behaviour of the stored name or none, and no hits yet |
| Projectiles.Projectile.Fun1 | assets/behaviors/prj.py:1-29 | while time lasts the projectile moves by dir times speed, counts down, and strikes the first entity the scan stops at; at time 0 or less it is killed; only the struck mob's stat table changes |
| Projectiles.Projectile.Fly | assets/behaviors/prj.py:6-26 | the move, the countdown, the scan and at most one strike; only the struck mob's stat table changes |
| Projectiles.Projectile.Move | assets/behaviors/prj.py:8-26 | the move and countdown, then the strike at the entity the scan stopped at; only the struck mob's stat table changes |
| Projectiles.Projectile.Hit | assets/behaviors/prj.py:17-26 | a strike at the entity the scan stopped at, if any; only the struck mob's stat table changes |
| Projectiles.Projectile.Advance | assets/behaviors/prj.py:8-10 | the body moves by dir times speed and time drops by one |
| Projectiles.Projectile.Strike | assets/behaviors/prj.py:18-26 | a mob loses `damage` hp, the projectile a penetration, the mob's id is recorded, and at penetration 0 or less the projectile is killed; any other entity only ends the scan; no other stat table changes |
| Projectiles.Projectile.Run | assets/classes/entities.py:189-191 | without a behaviour nothing changes, no stat table included; with one, at time 0 or less the projectile is killed and nothing moves; otherwise it moves, counts down, stops at the first entity the scan meets, and a mob it stops at loses the damage while the projectile loses a penetration, records the mob and is killed at penetration 0 or less; every stat table but the struck mob's keeps its values |
| Projectiles.ScanMovedSelf | assets/behaviors/prj.py:13-15 | moving the projectile itself does not change where the scan stops |
| Ticks.StepMob | core/entity.py:83-113 | `Entity.run` seen through the entity's look before and after: `MobRan` gives its new position, damage timer, blink count, stat values and registries, as `World.Entity.Run` does |
| Ticks.StepShot | assets/classes/entities.py:189-191 | `Projectile.run` seen through the projectile's look before and after: `ShotRan` gives the move, the countdown, where the scan stopped, the struck mob's hp, the penetration, the hit list and the registries, and the struck mob's stat table is the one of the entity at the scan's stop |
| Ticks.RunMob | core/entity.py:197-199 | a mob's turn: `Entity.run` on the entity at the loop index, which holds id index + 1, with its effect as `MobRan` states; afterwards each registry holds only what it held and the list lost nothing, the entity at the loop index, or the entry at that index twice (a death to both abyss and trap) |
| Ticks.RunShot | core/entity.py:197-199 | a projectile's turn: `Projectile.run` on the projectile whose body is at the loop index, with its effect as `ShotRan` states between the registries before and after, and the same bound on what it removes |
| Ticks.RunPass | core/entity.py:197-199 | one turn of the loop dispatches by class: the body of a projectile of `shots` runs `Projectile.run` and any other entity `Entity.run`, and the record of the turn says which ran and what it did |
| Ticks.RunEntities | core/entity.py:197-199 | pass k runs the entity at index k of the list as it then stands, which holds id k + 1. The body of a registered projectile runs `Projectile.run` and any other entity `Entity.run`, and the pass's record states that run's effect (`Recorded`). The records chain from the registries at the start to those at the end (`Chained`). The loop stops when the index passes the end |
| Ticks.NoRemovalRunsAll | core/entity.py:197-199 | when no entity dies, every entity of the list runs once, in order |
| Ticks.NextIsSkipped | core/entity.py:186-199 | when the entity at index k dies in its own turn, the one after it slides into its place and no later pass of the frame runs it |
| Components.ParseTexture | assets/classes/components.py:1166-1176 | a texture number comes only from text that is not empty or "none" in any case and that `int` accepts, and is that number |
| Components.ParseTextureOfInt | assets/classes/components.py:1166-1176 | a texture written as an integer is that number |
| Components.ParseTextureNone | assets/classes/components.py:1170 | "none" in any case gives no texture |
| Components.TupleColor | assets/classes/components.py:1185-1190 | three components get alpha 255, four are kept, any other count is white |
| Components.HexDigit | assets/classes/components.py:1195 | a hexadecimal digit is below 16 |
| Components.ParseHexPair | assets/classes/components.py:1195-1198 | `int(s[i:i+2], 16)` lies between -15 and 255 |
| Components.HexComponents | assets/classes/components.py:1194-1199 | the pairs give one component each |
| Components.NonBlank | assets/classes/components.py:1202 | the kept pieces are stripped and non-empty, no more than there were |
| Components.StripTwice | assets/classes/components.py:1191-1202 | stripping is idempotent |
| Components.ParseAll | assets/classes/components.py:1203 | `list(map(int, parts))` parses every piece, in order |
| Components.ParseColor | assets/classes/components.py:1178-1210 | a list or tuple is read as `TupleColor`; the text cases are stated by the lemmas below |
| Components.HexChar | assets/classes/components.py:1195 | the digit of a value below 16 reads back as that value |
| Components.Hex2 | assets/classes/components.py:1195 | the two-digit spelling of a byte reads back as that byte |
| Components.HexOf | assets/classes/components.py:1194-1199 | the spelling of a byte list reads back as that list |
| Components.HexMatchesTuple | assets/classes/components.py:1192-1199 | `#RRGGBB` and `#RRGGBBAA` give the colour of the tuple of their bytes |
| Components.HexOtherLengthIsWhite | assets/classes/components.py:1200 | `#` followed by other than six or eight characters is white |
| Components.Csv | assets/classes/components.py:1202 | the comma-separated spelling is not empty |
| Components.Spellings | assets/classes/components.py:1202-1203 | the decimal spelling of each integer |
| Components.SplitCsv | assets/classes/components.py:1202 | splitting the spelling on commas gives each integer's spelling |
| Components.ParseSpellings | assets/classes/components.py:1202-1203 | the spellings survive the blank filter and parse back to the integers |
| Components.CsvMatchesTuple | assets/classes/components.py:1201-1208 | `r,g,b` and `r,g,b,a` give the tuple's colour, with nothing clamped to 0-255 |
| Components.CsvColor | assets/classes/components.py:1201-1208 | text not starting with `#` whose pieces parse is a tuple colour |
| Components.TextColor | assets/classes/components.py:157-166 | `Text` normalises a list or tuple as `parse_color` does and anything else to white |
| Components.FarEdgeFlush | assets/classes/components.py:1234-1237 | "right" and "bottom" put the element's far side on the screen's far edge |
| Components.CenterBalanced | assets/classes/components.py:1230-1231 | "center" leaves equal room on both sides, up to one pixel of truncation |
| Components.CoordinateOfInt | assets/classes/components.py:1248-1250 | a coordinate written as an integer is that integer |
| Components.PercentInside | assets/classes/components.py:1240-1243 | a whole percentage from 0 to 100 keeps the element on the screen |
| Components.ShareOfRoom | assets/classes/components.py:1242-1243 | a share of the room left by the element truncates to within that room |
| Components.ParseCoordinate | assets/classes/components.py:1212-1253 | a number truncates toward zero; "left" and "top" give 0; "right" and "bottom" put the element's far side on the screen edge; other text that is no percentage and does not parse as a float gives 0 |
| Components.SlotId | assets/classes/components.py:1031-1037 | a slot index comes only from an action named `slot_...` whose rest parses, and is that number minus 1 |
| Components.SlotIdOfInt | assets/classes/components.py:1033-1035 | `slot_<n>` is the zero-based slot n - 1 |
| Components.ClickOn | assets/classes/components.py:86-108 | a hit exactly when visible with the mouse over and pressed; the action runs exactly on a hit of a released button with a callable action; hidden or unpressed, the button is released |
| Components.Clicks | assets/classes/components.py:86-108 | a hidden button never runs its action |
| Components.HeldStaysQuiet | assets/classes/components.py:98-103 | holding the mouse over a pressed button never runs the action |
| Components.HeldFiresOnce | assets/classes/components.py:98-103 | holding over a released visible button runs the action exactly once |
| Components.ReleaseRearms | assets/classes/components.py:104-106 | press, release, press runs the action twice |
| Components.Button.constructor | assets/classes/components.py:58-84 | a shown, released button |
| Components.Button.IsPressed | assets/classes/components.py:86-108 | the pressed flag, result and action count are those `ClickOn` gives |
| Components.ActionsFor | assets/classes/components.py:845-863 | nothing without an item; drop and unequip for an equipment slot; drop and equip for a weapon or equipment, drop and use for a key item or consumable, drop alone otherwise |
| Components.FirstShown | assets/classes/components.py:917 | the first shown button at or after k |
| Components.MinX | assets/classes/components.py:924 | no button under the parent lies left of the column |
| Components.MinY | assets/classes/components.py:925 | no button under the parent lies above the start |
| Components.Layout | assets/classes/components.py:904-940 | the layout keeps the number of buttons |
| Components.Placed | assets/classes/components.py:928-938 | each button is placed as `PlacedAt` says |
| Components.LayoutKeeps | assets/classes/components.py:904-940 | no button is hidden, shown, resized or re-parented, and hidden ones stay put |
| Components.LayoutColumn | assets/classes/components.py:921-934 | shown buttons share one column at the left edge of their parent's buttons |
| Components.LayoutTop | assets/classes/components.py:925-934 | the first shown button sits at the top |
| Components.AboveNothing | assets/classes/components.py:929 | no height is taken before the first shown button |
| Components.AboveSkips | assets/classes/components.py:932 | hidden buttons take no height |
| Components.LayoutStacked | assets/classes/components.py:928-938 | each shown button sits `sizey + 8` below the previous one |
| Components.ActionButton.constructor | assets/classes/components.py:58-84 | a shown button at its place |
| Components.Views | assets/classes/components.py:910-913 | the layout view of each button |
| Components.ColumnCorner | assets/classes/components.py:921-925 | the column corner is the least x and y under the first shown button's parent |
| Components.FindShown | assets/classes/components.py:917-919 | the loop finds the first shown button |
| Components.LayoutButtons | assets/classes/components.py:904-940 | the buttons end where `Layout` puts them |
| Components.StackColumn | assets/classes/components.py:928-938 | the loop places the shown buttons down the column |
| Components.Revealed | assets/classes/components.py:886-898 | the four groups get their visibility and nothing else changes |
| Components.SelectItem | assets/classes/components.py:811-902 | the groups get the visibility `ActionsFor` gives and the column is laid out again |
| Components.Show | assets/classes/components.py:1805-1827 | an unknown name fails and changes nothing; an overlay pushes the shown interface, otherwise the stack empties; the name becomes current |
| Components.Hide | assets/classes/components.py:1829-1836 | the most recent overlaid interface returns, or nothing is shown |
| Components.OverlayThenHide | assets/classes/components.py:1805-1836 | an overlay shown and hidden again restores the previous state |
| Components.MainThenHide | assets/classes/components.py:1805-1836 | after a main interface, hiding leaves nothing shown |
| Components.InterfaceManager.constructor | assets/classes/components.py:1719-1724 | nothing shown, an empty stack |
| Components.InterfaceManager.ShowInterface | assets/classes/components.py:1805-1827 | the state and result are those `Show` gives |
| Components.InterfaceManager.HideCurrentInterface | assets/classes/components.py:1829-1836 | the state is the one `Hide` gives |
| Common.Lower | assets/classes/itens.py:210 | `str.lower()` on ASCII letters, keeping the length |
| Common.Strip | assets/classes/components.py:1191 | `str.strip()` removes the surrounding whitespace only |
| Common.ParseInt | assets/classes/entities.py:291-294 | `int(s)` in base 10: whitespace around, one sign, a digit group; anything else fails |
| Common.ParseIntRoundTrip | assets/classes/entities.py:291-294 | `int(str(n)) == n` |
| PyText.ReplaceAll | core/game.py:31 | `replace(p, "")` never lengthens the text |
| PyText.ReplaceAbsent | core/game.py:31 | deleting a pattern that does not occur changes nothing |
| PyText.ReplaceLeading | assets/classes/components.py:1035 | a leading occurrence is deleted and the scan goes on after it |
| PyText.Split | assets/classes/components.py:1202 | `split(c)` gives at least one piece, none holding the separator |
| PyText.SplitWhole | assets/classes/components.py:1202 | text without the separator is one piece |
| PyText.SplitFirst | assets/classes/components.py:1202 | the text before the first separator is the first piece, the rest is split on its own |
| PyText.Find | assets/classes/components.py:1242 | the index of the first occurrence, or the length |
| PyText.ParseDecimalOfInt | assets/classes/components.py:1250 | `float(str(n)) == n` |
| PyText.ParseDecimal | assets/classes/components.py:1250 | blank text raises ValueError (none); a parsed value is not positive after a leading minus and not negative otherwise |
| PyText.Trunc | assets/classes/components.py:1243-1250 | `int(x)` truncates toward zero |
| Controls.ClearKeys | utils/input.py:145-147 | every action keeps its held state and press time and loses its one-frame flags |
| Controls.ClearButtons | utils/input.py:151-152 | the three mouse buttons lose their double-click flags and keep the rest |
| Controls.Initial | utils/input.py:5-111 | the starting state is well formed: every bound key names a known action |
| Controls.Begin | utils/input.py:115-152 | the start of `update()` keeps the state well formed |
| Controls.Step | utils/input.py:154-202 | one event keeps the state well formed, the set of actions and the bindings |
| Controls.PressKey | utils/input.py:158-169 | a key-down keeps the state well formed, the actions and the bindings |
| Controls.PressButton | utils/input.py:183-198 | a mouse-button-down changes no key and no binding |
| Controls.Events | utils/input.py:154-202 | the frame's events keep the state well formed, the actions and the bindings |
| Controls.Update | utils/input.py:115-202 | `update()` keeps the state well formed, the actions and the bindings |
| Controls.EndFrame | utils/input.py:331-338 | the wheel and motion are zeroed and one-frame flags cleared; what is held, the press times, the bindings, the mouse position and a quit request stay |
| Controls.BindKey | utils/input.py:377-383 | the key triggers the action; a new action starts released with no press time, a known one keeps its state |
| Controls.KeyDownFresh | utils/input.py:158-169 | a key-down of a bound key not held: held, pressed, time recorded, double-pressed exactly within 0.3 s of the last press; no other action changes |
| Controls.KeyUpReleases | utils/input.py:171-174 | a key-up of a bound key releases its action and keeps its other flags and press time, touching nothing else; an unbound key changes nothing |
| Controls.ButtonDownFresh | utils/input.py:183-193 | a press of button 1-3: held, time recorded, double-clicked exactly when it already was or within 0.3 s of the last press; the keys and the other buttons stay |
| Controls.KeyRepeatIgnored | utils/input.py:161-162 | a key-down of a held key changes nothing |
| Controls.ShouldQuit | utils/input.py:385-386 | the loop is told to quit exactly when the window was closed or the quit key is held |
| Controls.DoublePressAcrossFrames | utils/input.py:145-169 | a second press in a later frame is double exactly when under 0.3 s after the first, and pressed either way |
| Controls.WheelCounts | utils/input.py:195-198 | over a frame the wheel is the number of button-4 presses minus the button-5 presses |
| Controls.WheelFrom | utils/input.py:195-198 | the same count from any starting wheel value |
| Controls.BoundKeyPresses | utils/input.py:377-383 | a key bound to a new action drives it, double only within 0.3 s of time zero |
| Controls.QuitEventQuits | utils/input.py:154-156 | a frame with a quit event asks to quit |
| Controls.QuitSticks | utils/input.py:155-156 | once set in a frame, the quit request stays set in it |
| Controls.Input.constructor | utils/input.py:5-111 | the starting state |
| Controls.Input.Reset | utils/input.py:145-152 | the state is the one `Begin` gives |
| Controls.Input.Handle | utils/input.py:154-202 | the state is the one `Step` gives |
| Controls.Input.UpdateFrame | utils/input.py:115-202 | the state is the one `Update` gives |
| Controls.Input.EndFrameNow | utils/input.py:331-338 | the state is the one `EndFrame` gives |
| Controls.Input.Bind | utils/input.py:377-383 | the state is the one `BindKey` gives |
| Controls.MoveDirection | utils/input.py:607-633 | no direction exactly when no movement key is held; otherwise one of the eight walk directions |
| Controls.KeyboardFacing | utils/input.py:607-633 | a held up key sets the facing, then down, then left, then right |
| Controls.AimFacing | utils/input.py:672-677 | the aim faces sideways exactly when the horizontal offset is at least the vertical, right or down on non-negative offsets |
| Controls.ActiveWeapon | utils/input.py:680-684 | the weapon comes from the active hand's slot, and none when that slot is empty |
| Controls.Heading | utils/input.py:607-633 | no heading exactly when no movement key is held |
| Controls.ChosenHand | utils/input.py:641-644 | key 2 wins over key 1; neither keeps the hand |
| Controls.Movement | utils/input.py:604-639 | the player moves exactly when a movement key is held, walks its direction, sprints by the rule of `Sprints` and dashes on a double press |
| Controls.KeyboardControl | utils/input.py:464-725 | the movement, the chosen hand, a returned dash flag that is set exactly on a double press with the dash ready, and the aim's outcome as `Aim` states it |
| Controls.Aim | utils/input.py:647-725 | holding button 0 while not dashing faces the mouse; then a `Weapon` in the active hand makes `Player.atack` raise TypeError (`anim_row`) and no attack starts, while any other held item starts the 0.3 s attack; without the button the facing and the attack stay |
| Game.AfterWrite | core/game.py:26-34 | text starting with `ACTION:` once stripped is queued without the marker; other text is forwarded stripped with a newline |
| Game.PrintedAction | core/game.py:26-34 | printing `ACTION:name` queues exactly `name` and forwards only the newline |
| Game.ActionCapture.constructor | core/game.py:22-24 | nothing queued, nothing forwarded |
| Game.ActionCapture.Write | core/game.py:26-34 | the state is the one `AfterWrite` gives |
| Game.ActionCapture.GetActions | core/game.py:39-42 | the queued actions, oldest first, and the queue is emptied |
| Game.InterfaceOf | core/game.py:301-378 | the interface of a state is the menu, the HUD or the inventory, the HUD exactly while playing |
| Game.AfterQuitKey | core/game.py:305-326 | Escape opens the menu from the game and returns to the game from the menu or the inventory; the loop and the zoom are kept |
| Game.AfterInventoryKey | core/game.py:329-344 | E opens the inventory from the game and closes it; the menu ignores it |
| Game.ActionsOutcome | core/game.py:366-378 | the loop keeps running exactly when no action is `quit_game`, and the game resumes exactly when some action resumes it |
| Game.AfterActions | core/game.py:366-378 | the captured actions never change the zoom and never restart a stopped loop |
| Game.Handled | core/game.py:301-378 | the interface changes of a frame never change the zoom and never restart a stopped loop |
| Game.HandledConsistent | core/game.py:301-378 | the shown interface always matches the game state |
| Game.ActionsConsistent | core/game.py:366-378 | the captured actions keep the interface matched to the state |
| Game.QuitKeyTwice | core/game.py:305-326 | Escape twice toggles back from the game and the menu; from the inventory it reaches the menu |
| Game.BothKeys | core/game.py:305-344 | Escape and E in one frame: the game ends in the menu, the menu in the inventory, the inventory stays open |
| Game.HalfSteps | core/game.py:177-183 | the zoom stays a positive number of half steps, and unchanged when both or neither key is held |
| Game.Zoomed | core/game.py:177-183 | a zoom of at least 0.1 stays at least 0.1, and zoom-in with zoom-out in one frame cancel |
| Game.ZoomHalfSteps | core/game.py:177-183 | from 2, the zoom never falls below 0.5 |
| Game.FrameConsistent | core/game.py:161-183 | a whole frame keeps the interface matched to the state |
| Game.Frame | core/game.py:161-183 | a frame never restarts a stopped loop, changes the zoom only while playing, and keeps it at least 0.1 |
| Game.EscapeStopsAsWritten | core/game.py:173-174 | as written, the frame in which Escape opens the menu also stops the loop |
| Game.EscapeOpensMenu | core/game.py:173-174 | with a window-close test, Escape opens the menu and the loop goes on |
| Game.EscapeFrame | utils/input.py:158-169 | in the frame Escape goes down, the quit action is held and pressed and nothing else is pressed |
| Game.GameShell.constructor | core/game.py:125-141 | the three interfaces, playing with the HUD shown, zoom 2, running, with the interface matched to the state |
| Game.GameShell.SwitchTo | core/game.py:301-378 | the state is the one `Switch` gives |
| Game.GameShell.HandleInterfaceStateChanges | core/game.py:301-378 | the state is the one `Handled` gives and the captured actions are drained |
| Game.GameShell.QuitKey | core/game.py:305-326 | the state is the one `AfterQuitKey` gives |
| Game.GameShell.InventoryKey | core/game.py:329-344 | the state is the one `AfterInventoryKey` gives |
| Game.GameShell.ApplyActions | core/game.py:366-378 | the state is the one `AfterActions` gives |
| Game.GameShell.RunFrame | core/game.py:161-183 | the input is updated by `Update` and the shell ends as `Frame` says with the intended quit test |
| Aiming.AimAgreesWithServer | utils/input.py:672-677 | the client's and the server's aim agree off the centre; on it the client faces right, the server left |
| ServerEntities.ChainedWithin | server/models/entity.js:35 | JavaScript reads `lo <= v < hi` as `(lo <= v) < hi`, a boolean compared with `hi` as 1 or 0 |
| ServerEntities.ChainedInside | server/models/entity.js:35 | for a point inside the interval the chained test agrees with the intended one exactly when the bound is above 1 |
| ServerEntities.CollidingIsOverlap | server/models/entities/Projectile.js:49-57 | the server's hit test is the client's box overlap, and it is symmetric |
| ServerEntities.SEntity.constructor | server/models/entity.js:3-15 | the given id, position and size |
| ServerEntities.SEntity.Move | server/models/entity.js:16-33 | all or nothing: the step is refused exactly when some pixel of the whole translated box reads class 1 on layer 0 or 1 |
| ServerEntities.SEntity.Collision | server/models/entity.js:34-37 | as written: both chained comparisons read as `(lo <= v) < hi` |
| ServerEntities.SEntity.Contains | server/models/entity.js:34-37 | as intended: the pixel lies in the half-open box |
| ServerEntities.SEntity.Run | server/models/entity.js:38-45 | one `update_effects` when there are stats, and the behaviour runs exactly when there is one |
| ServerEntities.CollisionCounterexample | server/models/entity.js:35 | the point (100, 100) is inside a 10 x 10 entity at the origin as written, and outside as intended |
| ServerEntities.Ids | server/models/entity.js:50-71 | the ids of a list, in order |
| ServerEntities.FirstWithId | server/models/entity.js:59-64 | the first entity with that id, or the length when there is none |
| ServerEntities.SEControl.constructor | server/models/entity.js:51-53 | an empty list |
| ServerEntities.SEControl.Add | server/models/entity.js:54-57 | the new entity's id is the old length, counting from 0, and it is appended |
| ServerEntities.SEControl.Rem | server/models/entity.js:58-65 | the first entity with that id is spliced out with no renumbering; an unknown id changes nothing |
| ServerEntities.SEControl.Run | server/models/entity.js:66-70 | every entity runs once in order: exactly the ones with a behaviour behave, and each one's own stats take one `update_effects` |
| ServerEntities.BehavingExactly | server/models/entity.js:66-70 | the behaving positions below n are exactly those with a behaviour, increasing |
| ServerEntities.FirstIs | server/models/entity.js:59-64 | where the scan stopped is the first entity with that id |
| ServerEntities.AddAfterRemRepeatsId | server/models/entity.js:54-65 | with ids from 0 and no renumbering, removing any entity but the last makes the next `add` repeat the id the last one holds |
| ServerEntities.FirstHit | server/models/entities/Projectile.js:28-46 | the first entry from k on the box hits, skipping the owner, or none when it hits none |
| ServerEntities.SProjectile.constructor | server/models/entities/Projectile.js:4-16 | 16 x 16 at the spot with the flight parameters, nothing travelled or hit |
| ServerEntities.SProjectile.Run | server/models/entities/Projectile.js:18-47 | it moves by dir times speed and adds speed to the distance; the first mob hit, or else the first player other than the owner, is recorded and the projectile marked for removal |
| ServerStatus.NewJsEffect | server/models/Status.js:56-63 | a new effect is not applied |
| ServerStatus.Tock | server/models/Status.js:44-46 | a non-zero duration counts down, a zero one stays |
| ServerStatus.RevertJs | server/models/Status.js:48-50 | an expired effect taken back keeps the stat names |
| ServerStatus.JsUpdateAll | server/models/Status.js:42-54 | one pass keeps at most the effects it was given and keeps the stat names |
| ServerStatus.JsStep | server/models/Status.js:43-53 | one loop body drops at most the effect it visits and keeps the stat names |
| ServerStatus.FromPys | server/models/Status.js:56-63 | the server views of the client effects, one to one |
| ServerStatus.ToPys | server/models/Status.js:56-63 | the client views of the server effects, one to one |
| ServerStatus.FromToPys | server/models/Status.js:56-63 | the two views are inverse on server effects |
| ServerStatus.ViewsAppend | server/models/Status.js:56-63 | both views distribute over appending |
| ServerStatus.StepAgrees | server/models/Status.js:43-53 | the server's loop body does to one effect what the client's does |
| ServerStatus.PassAgrees | server/models/Status.js:42-54 | one server pass does what one client pass does: the same stats, corresponding survivors |
| ServerStatus.TimesAgree | server/models/Status.js:42-54 | n server passes agree with n client passes |
| ServerStatus.JsLifetime | server/models/Status.js:44-47 | an effect of duration d survives d calls, and at least one |
| ServerStatus.AddTo | server/models/Status.js:38 | `(this[stat] || 0) + value`: a missing stat is created from 0 |
| ServerStatus.JsEffectRoundTrip | server/models/Status.js:37-54 | after an effect's lifetime stats and effects are those the same calls give without it, except that a stat it created stays at 0 |
| ServerStatus.JsUpdateAllStats | server/models/Status.js:42-54 | the effects a pass keeps have stats among the given names |
| ServerStatus.JsStatus.constructor | server/models/Status.js:2-19 | the fourteen properties from their arguments, in the constructor's parameter order, and no effect |
| ServerStatus.JsStatus.Get | server/models/Status.js:25-31 | a defined property's value, or null exactly for an undefined one |
| ServerStatus.JsStatus.Buff | server/models/Status.js:20-24 | adds to a defined property; an undefined one stays undefined |
| ServerStatus.JsStatus.Set | server/models/Status.js:32-36 | as written: the statement is a comparison, so nothing changes |
| ServerStatus.JsStatus.Assign | server/models/Status.js:32-36 | as intended: a defined property takes the value, so that `get` returns it |
| ServerStatus.JsStatus.AddEffect | server/models/Status.js:37-41 | the stat (created as 0 when missing) gains the value and the effect is appended, marked applied |
| ServerStatus.JsStatus.UpdateEffects | server/models/Status.js:42-54 | the stats and list after the call are those `JsUpdateAll` gives |
| ServerStatus.JsPass | server/models/Status.js:43-53 | the loop over the list as it was at the start computes `JsUpdateAll` |
| ServerItems.NewItem | server/models/item.js:2-9 | a new item is one unit with its id and type |
| ServerItems.AddBonuses | server/models/items/EquipmentItem.js:17-29 | applying a bonus list keeps the set of stats |
| ServerItems.AddOne | server/models/items/EquipmentItem.js:18-27 | one bonus entry moves only its stat, and only when the table has it |
| ServerItems.AddBonusesAt | server/models/items/EquipmentItem.js:25-29 | each stat the table has moves by the sign times its bonus total |
| ServerItems.BonusRoundTrip | server/models/items/EquipmentItem.js:10-48 | adding a bonus list and subtracting the same list restores the stats |
| ServerItems.Occupant | server/models/items/EquipmentItem.js:14-15 | a null entry and a missing key both read as no occupant |
| ServerItems.ApplyBonuses | server/models/items/EquipmentItem.js:25-29 | the loop applies `AddBonuses` |
| ServerItems.EquipItemOn | server/models/items/EquipmentItem.js:10-34 | succeeds exactly with a player and a slot: the occupant's bonuses are taken back, the item's added, and the item takes the slot |
| ServerItems.UnequipItemFrom | server/models/items/EquipmentItem.js:36-49 | succeeds exactly with a player and a slot: the bonuses are taken back and the slot nulled |
| ServerItems.EquipUnequipRoundTrip | server/models/items/EquipmentItem.js:10-49 | equipping into an empty slot and unequipping restores every stat and nulls the slot |
| ServerItems.MaxKey | server/models/items/ConsumableItem.js:17 | "max" and the stat with its first letter upper-cased: maxHp, maxMana, maxStamina |
| ServerItems.Consumed | server/models/items/ConsumableItem.js:14-20 | drinking changes only its stat |
| ServerItems.ConsumedBounds | server/models/items/ConsumableItem.js:14-20 | the stat never exceeds its ceiling when there is one, gets the whole value otherwise, never gains more than the value, and is not clamped from below |
| ServerItems.UseOn | server/models/items/ConsumableItem.js:9-24 | succeeds exactly with a player and an effect whose stat the table has; then the stat drinks the value, otherwise nothing changes |
| ServerItems.FirstHolding | server/models/Inventory.js:9-13 | the first slot from k on holding an item with that id, or the length |
| ServerItems.FirstFree | server/models/Inventory.js:18-23 | the first empty slot from k on, or the length |
| ServerItems.GetTarget | server/models/Inventory.js:6-28 | the slot `get` writes is in range, or the length when there is none |
| ServerItems.Got | server/models/Inventory.js:6-28 | a consumable stacks its count onto the first held item with its id; otherwise the item with its count takes the first empty slot; a full inventory is unchanged; no other slot changes |
| ServerItems.Dropped | server/models/Inventory.js:30-41 | a held item loses the count and is returned with its new count, emptying the slot at 0 or less; an empty or out-of-range slot returns none and changes nothing |
| ServerItems.GetThenDropPlaced | server/models/Inventory.js:6-41 | placing an item and dropping the same count from its slot empties it again |
| ServerItems.GetThenDropStacked | server/models/Inventory.js:6-41 | stacking a count and dropping the same count restores the slots |
| ServerItems.LoadCount | server/models/Inventory.js:112 | `itemData.quant \|\| 1` is never 0 |
| ServerItems.LoadAll | server/models/Inventory.js:109-114 | loading keeps the number of slots |
| ServerItems.LoadHeldConsumables | server/models/Inventory.js:109-114 | loading consumables already held changes only counts |
| ServerItems.SameIdsSameHolding | server/models/Inventory.js:9-13 | lists with the same ids in the same places find the same first holder |
| ServerItems.At | server/models/Inventory.js:44-59 | the item at an index, none for an empty or out-of-range slot |
| ServerItems.JsInventory.constructor | server/models/Inventory.js:2-4 | every slot starts empty |
| ServerItems.JsInventory.Get | server/models/Inventory.js:6-28 | the slots after the call are those `Got` gives |
| ServerItems.JsInventory.Drop | server/models/Inventory.js:30-41 | the slots and result are those `Dropped` gives |
| ServerItems.JsInventory.UseItem | server/models/Inventory.js:43-56 | refused for an empty slot or a non-consumable; a successful use drops one unit; a failed one changes nothing |
| ServerItems.JsInventory.EquipItem | server/models/Inventory.js:58-71 | refused unless the slot holds an "equipment" item; success equips it and empties the slot |
| ServerItems.JsInventory.UnequipItem | server/models/Inventory.js:73-99 | refused when the slot is empty or the inventory full, with nothing changed; otherwise the item unequips itself and lands in the first empty slot |
| ServerItems.JsInventory.FreeSlot | server/models/Inventory.js:80-86 | the scan finds the first empty slot |
| ServerItems.JsInventory.LoadItems | server/models/Inventory.js:101-115 | nothing without data, factory or array; otherwise `get` of every present entry with its count |
| ServerItems.Equipping | server/models/Equiped.js:15-37 | a "Weapon" goes to an empty hand1, else an empty hand2, else hand1 with the old hand1 moved to hand2 and the old hand2 returned; an "Equipment" item swaps into its slot; anything else changes nothing |
| ServerItems.WeaponConserved | server/models/Equiped.js:16-29 | the hand rotation loses and duplicates no item |
| ServerItems.UnEquipping | server/models/Equiped.js:39-46 | an own slot is nulled and its occupant returned; any other name gives none |
| ServerItems.EquipmentSwapUndone | server/models/Equiped.js:30-46 | swapping equipment in and unequipping its slot gives it back and nulls the slot |
| ServerItems.JsEquiped.constructor | server/models/Equiped.js:2-13 | all ten slots null |
| ServerItems.JsEquiped.Equip | server/models/Equiped.js:15-37 | the table and result are those `Equipping` gives |
| ServerItems.JsEquiped.UnEquip | server/models/Equiped.js:39-46 | the table and result are those `UnEquipping` gives |
| ServerPlayer.StepX | server/models/InputController.js:17-18 | the horizontal step is -1, 0 or 1 |
| ServerPlayer.StepY | server/models/InputController.js:15-16 | the vertical step is -1, 0 or 1 |
| ServerPlayer.StepFacing | server/models/InputController.js:24-28 | a step faces sideways exactly when its horizontal part strictly dominates, so a diagonal faces up or down |
| ServerPlayer.StepsFromKeys | server/models/InputController.js:15-18 | each axis moves by the one key held on it and stays when both or neither are held |
| ServerPlayer.MoveSpeed | server/models/InputController.js:10 | `speed \|\| 2` is never 0, and is 2 when the stats carry no speed |
| ServerPlayer.DisplacementLength | server/models/InputController.js:31-36 | no key, no move; otherwise the step is exactly `speed` long in each of the eight directions, equal on both axes on a diagonal, and for a positive speed each part has its key's sign |
| ServerPlayer.Advance | server/models/InputController.js:31-40 | the position moves by `Displacement` of the key step at the player's speed |
| ServerPlayer.ToggleUi | server/models/InputController.js:52-56 | hud and inventory swap, any other state stays |
| ServerPlayer.Debounce | server/models/InputController.js:50-61 | after a frame the key flag is whether the key is held |
| ServerPlayer.HeldTogglesOnce | server/models/InputController.js:50-61 | holding the key for any number of frames after a release toggles exactly once |
| ServerPlayer.HeldStays | server/models/InputController.js:50-61 | while the key stays held nothing changes |
| ServerPlayer.PressReleasePress | server/models/InputController.js:50-61 | press, release, press toggles twice and brings the state back |
| ServerPlayer.JsAnimRow | server/models/entities/Player.js:121-151 | as written: attacking (12-15) over dashing (8-11) over moving (4-7) over idle (1-4), through the `\|\|` fallbacks |
| ServerPlayer.JsAnimRowAgrees | server/models/entities/Player.js:121-151 | the server's row is the client's everywhere except idle facing right, where `0 \|\| 4` gives 4 |
| ServerPlayer.IdleRightLooksWalking | server/models/entities/Player.js:144-149 | as written an idle player facing right shows the row of one walking right |
| ServerPlayer.SPlayer.constructor | server/models/entities/Player.js:23-63 | at the saved position with the saved stats, facing down and idle at row 0, hud showing, 35 empty inventory slots (the load gets no item factory) and empty equipment |
| ServerPlayer.SPlayer.ControlAnimation | server/models/entities/Player.js:121-151 | the row is `JsAnimRow` of the flags and facing |
| ServerPlayer.SPlayer.Run | server/models/entities/Player.js:156-162 | one `update_effects`, then the row |
| ServerPlayer.HandlePlayerInput | server/models/InputController.js:7-62 | nothing without a payload; else the keys steer and the player moves by `Displacement` of the key step at its speed, a left click throws before the inventory key is looked at, and the inventory key toggles debounced |
| ServerPlayer.Steer | server/models/InputController.js:15-29 | `moving` holds exactly when the summed step is nonzero, and then the facing is that step's |
| ServerPlayer.ToggleInventory | server/models/InputController.js:50-61 | the ui state and key flag are those `Debounce` gives |
| ServerGame.SMob.constructor | server/models/entities/Mob.js:21-36 | the given position, stats and texture, and no attack recorded |
| ServerGame.Keys | server/server.js:149-156 | the keys of an object's entries, in enumeration order |
| ServerGame.Without | server/server.js:235-237 | `delete obj[key]` leaves exactly the entries with another key |
| ServerGame.GameState.constructor | server/server.js:36-39 | no players and no mobs |
| ServerGame.Starts | server/server.js:211-215 | attacks start only at ticks of the run |
| ServerGame.StartsSpaced | server/server.js:211-215 | consecutive attack starts are more than 500 ms apart, the first more than 500 ms after an earlier attack |
| ServerGame.HitDamage | server/server.js:226 | `weapon.damage \|\| 1` is never 0 |
| ServerGame.RespawnHp | server/server.js:240 | `maxHp \|\| 100` is never 0 |
| ServerGame.ProcessDamage | server/server.js:224-249 | as written: a target with hp 0 or missing is not hit; otherwise hp drops by the damage and at 0 or less only a target typed 'mob' is deleted; a player, having no type, stays where it is |
| ServerGame.LethalHitKeepsPlayer | server/server.js:233-243 | a player on hp 3 hit for 5 stays at -2 where it stood, still a target |
| ServerGame.ProcessPlayerDamage | server/server.js:238-243 | as intended for players: a lethal hit restores hp to `maxHp \|\| 100` at (0, 0) |
| ServerGame.AimFacing | server/server.js:204-208 | the aim faces sideways exactly when \|dx\| >= \|dy\|, right exactly for dx > 0 then |
| ServerGame.UpdatePlayer | server/server.js:167-222 | nothing without inputs; the keys steer and the player moves by `Displacement` at its speed; a held button faces the aim and starts a 300 ms attack when 500 ms have passed; an attack ends once its time is up |
| ServerGame.Dist2 | server/server.js:258 | the squared distance is not negative |
| ServerGame.Spots | server/server.js:256-258 | the players' positions, in enumeration order |
| ServerGame.Nearest | server/server.js:253-263 | the scan settles on a player no farther than any other and strictly nearer than every earlier one; none exactly when there are no players |
| ServerGame.FindNearest | server/server.js:253-263 | the loop finds `Nearest` |
| ServerGame.MobDamage | server/server.js:279 | `mob.stats.damage \|\| 5` is never 0 |
| ServerGame.UpdateMob | server/server.js:251-284 | the target is the nearest player, ties to the first; within 50 px and once 1000 ms have passed it is hit for the mob's `damage \|\| 5` and the time is recorded: a living target's hp drops by that, a lethal hit deletes a target typed 'mob' and respawns one typed 'player' at (0, 0), and every other player keeps its stats and position |
| ServerGame.SanitizedState | server/server.js:288-312 | one view per player and per mob under the same keys in the same order; a player's view carries its position, texture, row, stat values and active effects; a mob's view has no stats and no row |

## Left out

- Rendering, sound, fonts, textures and every pygame or canvas call: drawing does not change the modelled state.
- The SQLite database, the JSON and XML files, and the sockets are left out. Their contents are parameters, such as a creature record, an item dictionary or a list of interface names.
- The clock is a parameter. `time.time()` and `Date.now()` become a `now` argument.
- Randomness is left out. `Mob.js` random wandering is not modelled, because its outcome is not determined.
- Floating-point rounding is left out: hp, stats, times and the server's positions are `real`; the client's positions and directions are `int`.
- Movement kinematics are left out on the client: speed scaling, normalised diagonals and per-frame deltas. There the model moves by whole steps.
- ServerPlayer.Advance: `Math.sqrt` is not computed. The length of a key step is 1 along an axis and `root2` on a diagonal, where `root2` is a parameter with `root2 * root2 == 2` standing for `Math.sqrt(2)`; the same goes for `ServerGame.UpdatePlayer`.
- ServerGame.UpdateMob: the chase step, in which the mob moves `speed` pixels along the unit vector towards the player (`server/server.js:265-273`), is not modelled, because it needs square roots of reals; the attack test uses the distance before that step, as the source does.
- Evaluating a condition's code string (`eval`) is left out. Its outcome (true, false or raised) is a parameter.
- The joystick and gamepad branches of `update()` and `control` are left out, with their injected and simulated clicks, along with `set_ui_open`, window focus and the modifier keys. They are alternate input devices.
- `show_interface` prints diagnostics. The prints are left out.
- `load_interface` parses XML. It is left out beyond the set of registered names.
- Parent offsets of interface elements are left out. Buttons carry absolute positions.
- The unreachable fallback in `_layout_action_buttons_column` is left out. When no button is shown it only returns.
- Players.Player.Walk: the map collision test inside `walk` is not modelled. Blocking is modelled in `World.Entity.Move` instead.
- Controls.Aim: of `Player.atack` only the outcome is modelled. With a `Weapon` it passes `anim_row` to `Weapon.atack`, which does not accept it, so the call raises TypeError and `Aim` returns that error; the direction it computes first and the projectile it would fire are not modelled. Any other item has no `atack`, so only a message is printed.
- PyText.ParseDecimal: exponents, `inf`, `nan` and underscores in `float()` are not modelled. The coordinates that reach it are plain decimals.
- Common.Strip: only ASCII whitespace is stripped. The same goes for `Lower` and upper or lower case: only ASCII letters are folded.
- Components.TupleColor: the components of a list colour are taken as integers. Floats in a colour tuple are not modelled.
- Item objects shared between a slot and other holders (aliasing) are not modelled. Items are values, so an update such as `quant +=` replaces the slot.
- In JavaScript a stat name that clashes with an object property is not modelled. A missing stat, which gives `NaN` in arithmetic, is not modelled either. Stats are a map of known names.
- `Player.js` equips through `equip` but reads `equipped`. The model keeps one equipment object.
- `updatePlayer` in `server.js` writes flat keys. Only the modelled fields are updated from them.
- `Weapon.js` on the server is not part of this model.
- Events.MakeMob: states the fresh mob's position, kind, size and hp, but not each of the creature's other stats.
- Controls.Aim: the screen size is a parameter. The 1920x1080 fallback, used when no display surface exists, is not modelled separately.
- Controls.InputState: the per-action dictionaries `keys`, `key_pressed`, `key_double_pressed` and `key_last_pressed_time` are one map of records. Their keys always agree in the source.
- Players.Player.constructor: `sprinting`, which the constructor leaves unset, starts false.
- Players.Player: of `Player(id, file, texture)` and `to_dict`, only the stat table's round trip is modelled (`Players.LoadStats`, `Players.SaveStats`). The inventory's round trip is not: `loadInv` stacks items through `Inventory.get` and `to_dict` drops empty slots, so slots do not come back one for one; the position is copied through, and the equipment goes through `create_item_from_dict` slot by slot.
- The Python subclass constructors (`Mob`, `Projectile`, `Player`, `ItemEntity`, `Breakable`) call `Entity.__init__` without its `type` argument, which Python rejects. Calls with `breakable_id=` (`core/event.py:94,114`, `core/game.py:120-121`) likewise pass a keyword that `Breakable.__init__` lacks. The model takes construction to succeed with the type each subclass then sets.
- `Player.js` and `Mob.js` import `../Entity.js` while the file is `entity.js`. The model takes the import to resolve.
- World.Entity.Run: the closing `self.behavior.run(self, map)` (`core/entity.py:115-116`) is not called. The trees and the mob actions they run are modelled on their own, over a state parameter, in `BehaviorTree` and `Behaviors`.
- Ticks.RunShot: the pass record gives the struck mob's stat values before and after, but only `Ticks.StepShot` ties them to that mob's stat table; the turn and the loop state the change through `ShotRan` alone.
- Ticks.RunEntities: the records of passes before the last are values, tied to the heap only through the registries they chain; an entity's fields are stated by each pass's `MobRan` or `ShotRan`, not re-read after later passes.
- `PControl.run` is modelled per player (`Players.Player.Run`). `Player.run` never kills, so the loop over players removes nothing.
- `PrjControl.run` is left out: nothing in the game adds to `PrjControl`. `Weapon.atack` registers projectiles in `EControl`, where `Ticks.RunEntities` runs them.
- `BrControl.run` is left out, because `Breakable.run` is `pass`.
- `ItControl.run` is left out. An `ItemEntity` runs `Entity.run`, which does nothing to an entity without stats up to the behaviour call, and there raises AttributeError at `self.behavior`, which `ItemEntity` never sets.
- Stats.Status.Get: `hasattr` also accepts the name of a method or any other attribute of the object (`get("buff")` returns the method, `get("active_effects")` the list). The model's answer is a number, so it knows only the fourteen stats and gives None for every other name.
- Stats.Status.Buff: a method or other attribute name passes `hasattr` too, and then `getattr(...) + value` raises TypeError. The model treats every such name as unknown and changes nothing.
- Stats.Status.Set: a method or other attribute name passes `hasattr` too, and `setattr` then replaces that attribute. The model treats every such name as unknown and changes nothing.
- Inventories.EquipSlot: an item whose `slot` names a method of `Equiped` (`equip`, `unEquip`, `__str__`) passes `hasattr`, and so does any dunder name. The model takes such a name as an invalid slot.
- Inventories.EquipOn: for such a slot name the source returns the bound method and replaces it with the item. The model raises "invalid slot" and changes nothing.
- Inventories.UnEquipOn: `unEquip("equip")` and the other method names return the bound method and set that attribute to None. The model gives None and changes nothing for any name that is not one of the eleven slots.
- Items.FromDict: a `quant` that is not an integer and consumable amounts that are not numbers are stored by Python as given. The model's count is an `int` and its amounts are `real`, so it gives None for them.
- Concurrency is left out: socket handlers and timers interleaving, and the server's tick rate. Each operation runs atomically.

## Findings

| source | as written | input that shows it | evidently intended | confidence | as-written member | corrected member |
|---|---|---|---|---|---|---|
| server/models/Status.js:32-36 | `set` compares with `==` instead of assigning, so nothing changes | `set("hp", 5)` on any status leaves hp as it was | assign the value to a defined stat | high, not executed | ServerStatus.JsStatus.Set | ServerStatus.JsStatus.Assign |
| server/models/entity.js:35 | `a <= x < b` chains into `(a <= x) < b`, and a boolean is always less than a width above 1 | the point (100, 100) against a 10 x 10 entity at (0, 0) collides | the point lies inside the half-open box | high, not executed | ServerEntities.CollisionCounterexample | ServerEntities.SEntity.Contains |
| server/models/entities/Player.js:144-149 | the idle row facing right is `0 \|\| 4`, and `0` is falsy, so it is 4, the walking row | an idle player facing right | row 0 for idle facing right, as on the client | high, not executed | ServerPlayer.IdleRightLooksWalking | Players.AnimRow |
| server/server.js:233-243 | a lethal hit deletes targets typed `mob` and respawns targets typed `player`; players have no type, so a dead player stays at hp 0 or below where it stood | a player on hp 3 hit for 5 | respawn the player with `maxHp \|\| 100` at (0, 0) | medium, not executed | ServerGame.LethalHitKeepsPlayer | ServerGame.ProcessPlayerDamage |
| core/game.py:173-174 | `should_quit()` is also true while the Escape (`quit`) key is held, so the frame that opens the menu ends the loop | Escape pressed during the game | only a window-close request stops the loop, as the comment at line 172 says | high, not executed | Game.EscapeStopsAsWritten | Game.EscapeOpensMenu |
