# Maze game core, modelled in Dafny

The game is a first-person walk through a 7 × 35 grid maze in three levels: Easy, Medium and Hard. Puzzle prisms stand in the corridors. Walking into an active prism opens a drag-and-drop code puzzle: code blocks are dropped into slots and the solution is checked.

In Easy and Medium the prisms are red and nothing is at stake. In Hard the prisms are green, and a wrong check or a give-up costs a life and blocks the double-tap sprint. The second lost life inverts the controls. Solving or failing certain puzzles also advances a visual "degradation stage" of the world. A portal in the end room fades out to the next level and back in.

The model follows the source's structure:

- **`Compaction`** (`compaction.dfy`): `greedyMerge`'s row-major scan.
  - It grows a maximal wall rectangle from every uncovered wall cell over an `array2<int>`, with a `used` mask.
  - It then builds the collision boxes, one per rectangle.
  - It is proved to give disjoint, maximal rectangles of wall cells, in scan order, that cover exactly the wall cells.
- **`Levels`** (`levels.dfy`): the three shipped grids and their prism cells.
- **`World`** (`world.dfy`): the globals of World.cpp as a `class World`. Its `State()` projection is a `WorldState` value.
  - Every method is proved against a pure transition function on that value: `KeyDown`, `KeyUp`, `Failed`, `PuzzleSolved`, `DisablePrism`, `Tick`.
  - `TouchedPrismIndex` is the read-only search loop.
- **`WorldProperties`** (`world_properties.dfy`): an invariant every transition keeps, and the properties the game relies on:
  - stage degradation as a maximum;
  - lives and sticky penalties;
  - the sprint double tap;
  - fade timings and the portal's level order;
  - the once-per-entry prism trigger.
- **`Puzzles`** (`puzzles.dfy`): `Block`, `Slot` and `Puzzle` as values. `std::vector` of structs copies like a value, so values fit.
  - Reset, check, lookup, drop and the builders are there, together with the used-block invariant: a block is used exactly when one slot holds it.
  - `class Board` holds the globals of Puzzles.cpp (`g_Puzzles`, `g_ActivePuzzle`, `g_IsOpen` and the result flags). It models `Puzzles_Init`, `Puzzles_OpenForPrism` and the button branches of `Puzzles_DrawImGui`.
  - The buttons return an `Effect`: what they ask of the world.
- **`Game`** (`game.dfy`): how the three source files call one another.
  - The 16 ms timer of main.cpp.
  - A prism entry opening puzzle i.
  - A level load rebuilding the puzzles.
  - A button's effect applied to the world in the source's order: disable, then penalty, then solved.

Inputs the model cannot compute are parameters:

- the pose the motion integrator produces (`moved`);
- the prism proximity test (`near: Cell -> bool`);
- the portal test (`atPortal`);
- the clock for a key press (`now`);
- the timer step (`ms`).

The model keeps these behaviours of the source as written:

- `World_OnSpecialKey` (F1–F3) loads a level even while a puzzle is open. It is not guarded like the other keys, and the model keeps that.
- main.cpp calls `Puzzles_Init(8)` right after `World_Init`. On the easy level this builds the same five easy puzzles through the fallback branch. `Game.OnePuzzlePerPrism` proves this, so the extra call changes nothing.
- A level load keeps stage, lives, sprint block and inverted controls. `World.World.LoadLevelData` changes the scene only.

## Model

| member | source | states |
|---|---|---|
| Compaction.ScanRects | ConsoleApplication3/World.cpp:763-792 | the emitted rectangles lie inside the grid, are made of wall cells, are disjoint, come in row-major order of their origins, are width- then length-maximal as the scan grows them, and cover every wall cell |
| Compaction.GrowWidth | ConsoleApplication3/World.cpp:772-773 | the width grows over free wall cells until the edge, an open cell or a used cell |
| Compaction.GrowLength | ConsoleApplication3/World.cpp:775-785 | the length grows while the whole next row segment is free wall |
| Compaction.BuildWalls | ConsoleApplication3/World.cpp:794-801 | one box per rectangle, in the same order, scaled by CELL and WALL_H |
| Compaction.WallBoxesMatchGrid | ConsoleApplication3/World.cpp:763-801 | the floor squares covered by wall boxes are exactly the wall cells, and none is covered twice |
| Compaction.CompactionIsExactCover | ConsoleApplication3/World.cpp:763-792 | a cell is covered iff it is a wall, and by only one rectangle |
| Levels.PrismsOnFloor | ConsoleApplication3/World.cpp:154-318 | every prism of every level stands on a floor cell inside its grid |
| Levels.CorridorEndsOpen | ConsoleApplication3/World.cpp:154-268 | every grid is open at both ends of column 3, where the corridor enters and leaves |
| World.World.constructor | ConsoleApplication3/World.cpp:1754-1856 | World_Init: the easy level loaded (grid, prisms all active, walls compacted), 3 lives, stage 0, no penalties, nothing held, player at the spawn point, no fade |
| World.World.GreedyMerge | ConsoleApplication3/World.cpp:763-802 | wallRects is a compaction of the maze and walls its boxes; nothing else changes |
| World.World.LoadLevelData | ConsoleApplication3/World.cpp:501-549 | the maze holds the level's grid, prisms and colour are the level's, all prisms are active, walls are rebuilt; progress, input, pose and fade are unchanged |
| World.World.SelectLevel | ConsoleApplication3/World.cpp:1918-1943 | F1/F2/F3 load Easy/Medium/Hard and nothing else changes |
| World.DisablePrism | ConsoleApplication3/World.cpp:1682-1691 | out-of-range index: no change; otherwise only entry i becomes inactive, the flag list growing with `true` when short |
| World.World.DisablePrismAt | ConsoleApplication3/World.cpp:1682-1691 | the world's state after the call is `DisablePrism` of the old scene |
| World.FirstTouched | ConsoleApplication3/World.cpp:1656-1677 | the lowest active prism the player is near, or -1 when none is |
| World.World.TouchedPrismIndex | ConsoleApplication3/World.cpp:1656-1677 | the search loop returns `FirstTouched` |
| World.StageAfter | ConsoleApplication3/World.cpp:1715-1746 | the stage never decreases; indices 2, 4, 6, 7 raise it to at least 1, 2, 3, 4; other indices leave it |
| World.World.OnPuzzleSolved | ConsoleApplication3/World.cpp:1715-1746 | only the stage changes, to `StageAfter` |
| World.PuzzleFailed | ConsoleApplication3/World.cpp:1696-1710 | lives drop by one only when positive; sprint is blocked; controls invert when lives reach 1 and never revert; stage unchanged |
| World.World.OnPuzzleFailed | ConsoleApplication3/World.cpp:1696-1710 | the state becomes `Failed` of the old one (sprint also off) and the new lives are returned |
| World.Press | ConsoleApplication3/World.cpp:1889-1897 | a fresh W press sprints iff sprint is not blocked and it is within 250 ms of the last tap; tap time and W latch change only on a fresh press |
| World.KeyDown | ConsoleApplication3/World.cpp:1874-1904 | with a puzzle open nothing changes; ESC only toggles the pause; otherwise the key is held, with the sprint and jump rules; a key never changes scene, progress, fade or the trigger |
| World.World.OnKeyDown | ConsoleApplication3/World.cpp:1874-1904 | the new state is `KeyDown` of the old one |
| World.KeyUp | ConsoleApplication3/World.cpp:1906-1916 | with a puzzle open nothing changes; otherwise the key is released, and releasing W clears the latch and the sprint; a release never changes scene, progress, fade, pose, pause or the trigger |
| World.World.OnKeyUp | ConsoleApplication3/World.cpp:1906-1916 | the new state is `KeyUp` of the old one |
| World.FadeTick | ConsoleApplication3/World.cpp:1999-2048 | while a fade runs only its timer advances; the end of the fade-out loads the target level, respawns, clears input and starts the fade-in at 0; the end of the fade-in stops the fade; progress is never touched |
| World.World.UpdateFade | ConsoleApplication3/World.cpp:1999-2048 | the new state is `FadeTick` of the old one, and the maze and walls are those of the new level after a swap |
| World.TouchStep | ConsoleApplication3/World.cpp:2107-2126 | a puzzle opens only on a not-touching to touching edge, for the first touched prism, releasing the mouse and clearing the input |
| World.World.TouchPrisms | ConsoleApplication3/World.cpp:2107-2126 | the new state and opened prism are `TouchStep`'s |
| World.PortalStep | ConsoleApplication3/World.cpp:2128-2163 | at the portal, Easy fades out to Medium and Medium to Hard, towards a level other than the current one, with input cleared; Hard does nothing; scene and progress never change |
| World.World.EnterPortal | ConsoleApplication3/World.cpp:2128-2163 | the new state is `PortalStep` of the old one |
| World.SprintHeld | ConsoleApplication3/World.cpp:2056-2057 | sprint stays on only while W is held |
| World.PlayTick | ConsoleApplication3/World.cpp:2049-2163 | with a puzzle open or paused nothing changes; otherwise sprint check, trigger, then portal; scene and progress never change |
| World.Tick | ConsoleApplication3/World.cpp:1997-2163 | an update never changes progress; it opens a puzzle only with none open, outside a fade and without a reload; it reloads only at the end of a fade-out; a running fade takes `FadeTick`, otherwise `PlayTick` |
| World.World.Update | ConsoleApplication3/World.cpp:1997-2163 | the new state, the reload flag and the opened prism are those of `Tick` on the old state |
| WorldProperties.InitialStateInv | ConsoleApplication3/World.cpp:32-80 | the initial globals satisfy the world invariant |
| WorldProperties.KeyDownKeepsInv | ConsoleApplication3/World.cpp:1874-1904 | a key press keeps the invariant and never eases a penalty |
| WorldProperties.KeyUpKeepsInv | ConsoleApplication3/World.cpp:1906-1916 | a key release keeps the invariant and never eases a penalty |
| WorldProperties.FailedKeepsInv | ConsoleApplication3/World.cpp:1696-1710 | a failure keeps the invariant (blocked sprint is off, inverted controls mean at most one life) |
| WorldProperties.SolvedKeepsInv | ConsoleApplication3/World.cpp:1715-1746 | a solved puzzle keeps the stage within 0..4 and never lowers it |
| WorldProperties.DisableKeepsInv | ConsoleApplication3/World.cpp:1682-1691 | disabling keeps one activity flag per prism |
| WorldProperties.LoadKeepsInv | ConsoleApplication3/World.cpp:501-549 | a level load keeps the invariant and leaves stage, lives and penalties as they were |
| WorldProperties.TickKeepsInv | ConsoleApplication3/World.cpp:1997-2163 | an update keeps the invariant and never changes stage, lives or penalties |
| WorldProperties.StageIsMax | ConsoleApplication3/World.cpp:1715-1746 | a solved puzzle sets the stage to max(stage, target(i)), and repeating the call changes nothing |
| WorldProperties.StageAfterAllIsMax | ConsoleApplication3/World.cpp:1715-1746 | after any run of solved puzzles the stage is the maximum of the start and their targets |
| WorldProperties.MaxTargetAppend | ConsoleApplication3/World.cpp:1715-1746 | the highest target of two runs is the maximum of their highest targets |
| WorldProperties.MaxTargetPermutation | ConsoleApplication3/World.cpp:1715-1746 | the highest target of a run depends only on which indices it holds, not on their order |
| WorldProperties.MaxTargetWithout | ConsoleApplication3/World.cpp:1715-1746 | the highest target of a run is the larger of one element's target and the highest target of the rest |
| WorldProperties.MaxTargetBounded | ConsoleApplication3/World.cpp:1715-1746 | no target exceeds stage 4 |
| WorldProperties.StageOrderIndependent | ConsoleApplication3/World.cpp:1715-1746 | any two runs of the same solved puzzles, in any order, leave the same stage, which stays within 0..4 |
| WorldProperties.LivesAfterFailures | ConsoleApplication3/World.cpp:1696-1710 | after n failures from L lives, max(L - n, 0) remain, sprint is blocked, and controls are inverted iff they were or the lives passed through 1 |
| WorldProperties.DoubleTap | ConsoleApplication3/World.cpp:1874-1916 | press, release, press of W sprints iff the presses are at most 250 ms apart and sprint is not blocked |
| WorldProperties.HeldWIsNotATap | ConsoleApplication3/World.cpp:1889-1897 | a repeated press while W is down changes neither the tap time nor the sprint |
| WorldProperties.KeysWhilePuzzleOpen | ConsoleApplication3/World.cpp:1874-1916 | every key is ignored while a puzzle is open, and ESC twice is no change |
| WorldProperties.FadesAdd | ConsoleApplication3/World.cpp:1999-2048 | a + b fade updates are a updates followed by b updates |
| WorldProperties.FadeRuns | ConsoleApplication3/World.cpp:1999-2048 | below the 2000 ms total, n updates only add n·ms to the timer |
| WorldProperties.FadeOutEnds | ConsoleApplication3/World.cpp:2005-2035 | the update that reaches 2000 ms loads the target level, respawns, clears input, starts the fade-in and keeps progress |
| WorldProperties.FadeInEnds | ConsoleApplication3/World.cpp:2039-2044 | the update that reaches 2000 ms ends the fade-in |
| WorldProperties.PortalToNextLevel | ConsoleApplication3/World.cpp:1999-2163 | at 16 ms per update, the portal from Easy or Medium leads, after 125 + 125 updates, to the next level with no fade and the same stage and lives |
| WorldProperties.PortalOrder | ConsoleApplication3/World.cpp:2128-2163 | the portal leads Easy to Medium, Medium to Hard, and does nothing in Hard |
| WorldProperties.FadeFreezesPlay | ConsoleApplication3/World.cpp:1999-2048 | during a fade no prism fires and the trigger, pose and scene stay until the swap |
| WorldProperties.DisabledPrismNeverTriggers | ConsoleApplication3/World.cpp:1656-1691 | a disabled prism is never found by the trigger search, and disabling twice is disabling once |
| WorldProperties.TouchFiresOnce | ConsoleApplication3/World.cpp:2107-2126 | staying in a prism's radius opens its puzzle once, not on every update |
| WorldProperties.LeavingRearms | ConsoleApplication3/World.cpp:2107-2126 | leaving every radius re-arms the trigger |
| WorldProperties.PrismsStandClear | ConsoleApplication3/World.cpp:501-549 | after a level load no wall rectangle covers a prism's cell or either end of column 3 |
| Puzzles.Emptied | ConsoleApplication3/Puzzles.cpp:182-188 | every slot empty, every block unused, lengths, ids and expected ids unchanged |
| Puzzles.ResetPuzzleState | ConsoleApplication3/Puzzles.cpp:182-188 | the two loops produce `Emptied` |
| Puzzles.EmptiedIsConsistent | ConsoleApplication3/Puzzles.cpp:182-188 | a reset well-formed puzzle satisfies the used-block invariant |
| Puzzles.AllSlotsCorrect | ConsoleApplication3/Puzzles.cpp:190-196 | true iff every slot holds its expected block (so true with no slots) |
| Puzzles.SlotsCorrect | ConsoleApplication3/Puzzles.cpp:190-196 | the recursive scan agrees with "every slot holds its expected block" |
| Puzzles.EmptySlotFailsCheck | ConsoleApplication3/Puzzles.cpp:190-196 | a well-formed puzzle with an empty slot never checks as correct |
| Puzzles.FindBlockById | ConsoleApplication3/Puzzles.cpp:198-203 | the first block with that id, or none when no block has it |
| Puzzles.FindBlockFrom | ConsoleApplication3/Puzzles.cpp:198-203 | the recursive scan finds the first match at or after `from` |
| Puzzles.FindByIdIsIndex | ConsoleApplication3/Puzzles.cpp:198-203 | with the builders' ids, lookup by id is lookup by position |
| Puzzles.Dropped | ConsoleApplication3/Puzzles.cpp:226-237 | only slot s changes, to hold b; block ids and count are unchanged |
| Puzzles.DroppedFlags | ConsoleApplication3/Puzzles.cpp:226-237 | a drop sets b's used flag, clears the previous block's and leaves every other flag |
| Puzzles.DropKeepsConsistent | ConsoleApplication3/Puzzles.cpp:226-254 | dropping an unused block, the only kind the palette offers, keeps "used iff some slot holds it" and no block in two slots |
| Puzzles.DropBlock | ConsoleApplication3/Puzzles.cpp:226-237 | the step-by-step drop yields `Dropped` |
| Puzzles.Fresh | ConsoleApplication3/Puzzles.cpp:269-292 | block i has id i and is unused; slot j has id j, expects block j and is empty |
| Puzzles.FreshIsConsistent | ConsoleApplication3/Puzzles.cpp:269-993 | every built puzzle satisfies the used-block invariant and starts unsolved |
| Puzzles.SolvedMeansCorrectBlocksPlaced | ConsoleApplication3/Puzzles.cpp:190-196 | a built puzzle checks as correct iff block j sits in slot j, and then exactly the correct blocks are used |
| Puzzles.BuildPuzzle | ConsoleApplication3/Puzzles.cpp:621-662 | the `add` builder produces `Fresh` of its shape |
| Puzzles.Catalogue | ConsoleApplication3/Puzzles.cpp:1001-1060 | 8 hard puzzles with green prisms; with red prisms 7 for exactly 7 prisms and 5 for any other count |
| Puzzles.BuildAll | ConsoleApplication3/Puzzles.cpp:1001-1056 | one fresh, consistent puzzle per shape, in order |
| Puzzles.OutcomeEffect | ConsoleApplication3/Puzzles.cpp:1509-1743 | red mode: only a correct check disables the prism, and nothing costs a life or advances the stage; hard mode: every button but restart disables, a wrong check or give-up costs a life, and the stage advances on success or for indices 2, 4, 6, 7 |
| Puzzles.Board.constructor | ConsoleApplication3/Puzzles.cpp:40-78 | no puzzles, none active, closed, no pending result |
| Puzzles.Board.Init | ConsoleApplication3/Puzzles.cpp:1001-1060 | the catalogue's puzzles freshly built, none active, closed |
| Puzzles.Board.OpenForPrism | ConsoleApplication3/Puzzles.cpp:1064-1085 | a negative index or no puzzles: no change; otherwise puzzle index mod count is active, open and reset, with all result flags cleared |
| Puzzles.Board.Drop | ConsoleApplication3/Puzzles.cpp:226-254 | only the active puzzle changes, to `Dropped`; the window, index and flags are kept; never while the hard-mode failure popup is up |
| Puzzles.Board.Press | ConsoleApplication3/Puzzles.cpp:1509-1743 | the effect is `OutcomeEffect` of the active puzzle's check; the window closes at once on give-up or a red correct check; restart resets the puzzle; a red wrong check records a failed result and a red restart clears it; in hard mode a check starts the auto-close or the failure popup, and the buttons do nothing while either is up; every other flag keeps its value |
| Puzzles.Board.AutoCloseElapsed | ConsoleApplication3/Puzzles.cpp:1745-1766 | after the success message the hard-mode window closes and the auto-close ends; otherwise nothing changes; the puzzles, the popup and the result flags are kept |
| Puzzles.Board.AcceptFailPopup | ConsoleApplication3/Puzzles.cpp:1769-1827 | accepting the hard-mode failure popup closes the window and the popup; otherwise nothing changes; the puzzles, the auto-close and the result flags are kept |
| Game.ApplyEffect | ConsoleApplication3/Puzzles.cpp:1579-1706 | an effect leaves pose, fade and held keys alone, and changes the scene only by disabling the prism |
| Game.DegradingIsStageTargets | ConsoleApplication3/Puzzles.cpp:1645-1646 | the indices a failure degrades the world for are exactly those with a stage target |
| Game.RedModeIsHarmless | ConsoleApplication3/Puzzles.cpp:1509-1566 | in red mode no button touches progress or input; a correct check only disables the prism, every other button leaves the world alone |
| Game.HardModeOutcomes | ConsoleApplication3/Puzzles.cpp:1572-1743 | in hard mode a check or give-up disables the prism; a correct check costs nothing, a wrong check or give-up costs one life (if any) and blocks sprint |
| Game.FailureDegradesLikeSuccess | ConsoleApplication3/Puzzles.cpp:1638-1706 | in hard mode a wrong check or a give-up leaves the stage exactly where a correct check would |
| Game.EffectKeepsInv | ConsoleApplication3/Puzzles.cpp:1579-1706 | any button effect keeps the world invariant and never eases a penalty |
| Game.TickOpensOnePrism | ConsoleApplication3/World.cpp:2107-2126 | an update opens a puzzle only when none is open, never during a level swap, and only for an active prism of the current level |
| Game.OnePuzzlePerPrism | ConsoleApplication3/Puzzles.cpp:1001-1060 | every shipped level builds exactly one puzzle per prism, and main's extra `Puzzles_Init(8)` builds the same easy puzzles |
| Game.Game.constructor | ConsoleApplication3/main.cpp:166-177 | World_Init then Puzzles_Init(8): the initial world on Easy, with the maze holding Easy's grid and the walls its compaction, and the five fresh easy puzzles, closed |
| Game.Game.Update | ConsoleApplication3/main.cpp:84-89 | the world moves by `Tick` at 16 ms; a level swap loads the new level's maze and compacted walls and rebuilds the puzzles, closed; without a swap the maze and walls are kept; an opened prism i makes puzzle i active, open and reset with every result flag cleared; with neither event the board is unchanged |
| Game.Game.FollowWorld | ConsoleApplication3/World.cpp:2113 | after a level swap the puzzles are rebuilt and closed, flags kept; an entered prism opens its puzzle reset, with the result flags cleared; otherwise the board is untouched |
| Game.Game.Click | ConsoleApplication3/Puzzles.cpp:1509-1743 | the world becomes `ApplyEffect` of the button's effect for the active puzzle's index, with walls kept, and the board moves as `Board.Press` states: the close on give-up or a red correct check, the reset on restart, the hard-mode auto-close and popup; a closed window has no effect |
| Game.Game.ApplyToWorld | ConsoleApplication3/Puzzles.cpp:1579-1706 | the world calls of an effect, disable then penalty then solved, move the state by `ApplyEffect`, keep the invariant, and leave the level, its prisms, maze and walls |
| Game.Game.Drop | ConsoleApplication3/Puzzles.cpp:226-254 | a drop changes only the active puzzle, to `Dropped`; the window stays open on the same puzzle with every flag kept; never while the hard-mode failure popup is up |
| Game.Game.KeyDown | ConsoleApplication3/World.cpp:1874-1904 | key presses reach the world with the puzzle window's open flag as the guard; the walls are kept |
| Game.Game.KeyUp | ConsoleApplication3/World.cpp:1906-1916 | key releases reach the world with the puzzle window's open flag as the guard; the walls are kept |
| Game.Game.SelectLevel | ConsoleApplication3/World.cpp:1918-1943 | a debug level switch loads the level, its maze and its compacted walls, and rebuilds its puzzles fresh from the level's catalogue, closed with none active, flags kept |
| Game.Game.AutoCloseElapsed | ConsoleApplication3/Puzzles.cpp:1745-1766 | in hard mode, once the success message has been shown, the open window closes; otherwise the board is unchanged |
| Game.Game.AcceptFailPopup | ConsoleApplication3/Puzzles.cpp:1769-1827 | in hard mode, accepting the failure popup closes the open window; otherwise the board is unchanged |

## Left out

- Everything drawn with OpenGL/GLU/GLUT: walls, sky, portal, floors, reticle, hearts, the screen fade and the pause overlay. The window, resize, fullscreen and mouse-capture calls are left out too. All of these are presentation.
- Texture loading via stb_image: file I/O.
- The narrator: typewriter text, fades, word wrap and the random line pickers. These depend on wall-clock time, font metrics and a random generator.
- Collision tests, split-axis movement, gravity and the mouse look (World.cpp:2059-2104, 1043-1067, 1966-1995). These are single-precision numerics.
  - Their result enters `World.World.Update` as the `moved` pose.
  - The prism radius test enters as `near` and the portal test as `atPortal`.
- `buildFoyerAndCorridor` and `buildEndRoom`: the float boxes of the foyer and end room are not part of this model. `World.World.LoadLevelData` keeps only the grid walls.
- Block labels, puzzle titles and descriptions, and `DrawPuzzleCode` and the rest of the ImGui layout: text and widgets.
  - A builder is reduced to its shape: the count of correct blocks and of all blocks.
- `Puzzles.Board.AutoCloseElapsed`: the 2500 ms wait on `glutGet` is not modelled. The caller decides when it has elapsed.
- `Puzzles.Board.Press`: the pending-popup flag and the open modal popup are one flag (`failPopup`). While the modal is up ImGui routes no clicks to the window beneath it.
- `World.FadeTick`: the fade timer is integer milliseconds against 2000. The source adds `ms / 1000.0f` to a float, so float rounding is not modelled.
- `WorldProperties.PortalToNextLevel`: counts exactly 125 updates of 16 ms per fade phase. With the source's float sum the last step of a phase may come one update later.
- `World.SpawnPose`: the spawn position is computed in exact reals, not single precision.
- `Compaction.BuildWalls`: box corners are exact real products of the cell indices and `CELL`, not the source's single-precision `float` products.
- The stage's visual effects (clear colour, textures per stage): rendering only.
- main.cpp beyond the 16 ms timer, the key forwarding and the start-up calls: callback registration and ImGui set-up.
