/** The game-state machine of World.cpp: stage degradation, prism activity,
    lives and sticky penalties, sprint double-tap, the level-transition fade,
    prism and portal triggers, and level loading.

    The module-level globals of World.cpp are the fields of class World.
    Each operation is specified by a pure function on WorldState, the value
    of every field except the grid and wall geometry; the class methods are
    proved to move State() exactly as those functions say, and
    WorldProperties proves what the functions promise. */
module World {
  import opened Levels
  import opened Compaction

  /** A keyboard key code (unsigned char). */
  type Key = k: int | 0 <= k < 256

  const KEY_COUNT: int := 256
  const KEY_ESC: Key := 27
  const KEY_SPACE: Key := 32
  const KEY_W_UPPER: Key := 87  // 'W'
  const KEY_W: Key := 119       // 'w'

  const SPRINT_DOUBLE_TAP_MS: int := 250
  /** lastWTapMs before any press of W. */
  const NO_TAP_MS: int := -100000
  /** Length of each fade phase, in milliseconds (2 s). */
  const TRANSITION_TOTAL_MS: int := 2000
  const INITIAL_LIVES: int := 3
  const MAX_STAGE: int := 4
  const JUMP_VEL: real := 6.8
  const PLAYER_Y_EYE: real := 1.62

  /** Puzzle index -> world stage it drives the world to. Other indices do
      not touch the stage. */
  const STAGE_TARGETS: map<int, int> := map[2 := 1, 4 := 2, 6 := 3, 7 := 4]

  datatype Transition = NoTransition | FadingOut | FadingIn

  /** Camera position and orientation, vertical speed, grounded flag. */
  datatype Pose = Pose(x: real, y: real, z: real, yaw: real, pitch: real, velY: real, onGround: bool)

  /** Spawn point at the foyer, looking down the maze, standing still. */
  function SpawnPose(): Pose
  {
    Pose(((MAP_W / 2) as real + 0.5) * CELL, PLAYER_Y_EYE, -8.0 * CELL + 0.25 * (4.0 * CELL),
         0.0, 0.0, 0.0, true)
  }

  /** The loaded level and its prisms. */
  datatype Scene = Scene(level: Level, prismIsRed: bool, prisms: seq<Cell>, prismActive: seq<bool>)

  /** World stage and the penalties of failed puzzles. */
  datatype Progress = Progress(stage: int, lives: int, sprintBlocked: bool, invertControls: bool)

  /** Held keys and the sprint double-tap latch. */
  datatype Input = Input(keys: seq<bool>, sprint: bool, wIsDown: bool, lastWTapMs: int)

  /** The level-transition fade. */
  datatype Fade = Fade(phase: Transition, ms: int, target: Level)

  datatype WorldState = WorldState(
    scene: Scene,
    progress: Progress,
    input: Input,
    pose: Pose,
    fade: Fade,
    paused: bool,
    wasTouching: bool,
    mouseCaptured: bool)

  predicate IsW(k: Key)
  {
    k == KEY_W || k == KEY_W_UPPER
  }

  function NoKeys(): (ks: seq<bool>)
    ensures |ks| == KEY_COUNT && forall k :: 0 <= k < KEY_COUNT ==> !ks[k]
  {
    seq(KEY_COUNT, _ => false)
  }

  // ---------------------------------------------------------------------
  // Level loading and prisms
  // ---------------------------------------------------------------------

  /** The scene LoadLevelData sets up: the level's prisms, all active, red
      outside Hard. */
  function LoadedScene(level: Level): (sc: Scene)
    ensures sc.level == level && sc.prisms == Prisms(level) && sc.prismIsRed == (level != Hard)
    ensures |sc.prismActive| == |sc.prisms| && forall i :: 0 <= i < |sc.prismActive| ==> sc.prismActive[i]
  {
    Scene(level, level != Hard, Prisms(level), seq(|Prisms(level)|, _ => true))
  }

  /** Prism i counts as active unless the activity list has an entry for it
      that is false. */
  predicate IsActive(active: seq<bool>, i: int)
  {
    !(0 <= i < |active| && !active[i])
  }

  /** World_DisablePrism on the scene. */
  function DisablePrism(sc: Scene, i: int): (t: Scene)
    ensures i < 0 || i >= |sc.prisms| ==> t == sc
    ensures 0 <= i < |sc.prisms| ==>
              && t == sc.(prismActive := t.prismActive)
              && |t.prismActive| == (if i < |sc.prismActive| then |sc.prismActive| else |sc.prisms|)
              && !IsActive(t.prismActive, i)
              && forall j :: 0 <= j < |t.prismActive| && j != i ==> t.prismActive[j] == IsActive(sc.prismActive, j)
  {
    if i < 0 || i >= |sc.prisms| then sc
    else
      var grown := if i < |sc.prismActive| then sc.prismActive
                   else sc.prismActive + seq(|sc.prisms| - |sc.prismActive|, _ => true);
      sc.(prismActive := grown[i := false])
  }

  /** Prism i is active and the player is within its trigger radius. */
  predicate Touches(prisms: seq<Cell>, active: seq<bool>, near: Cell -> bool, i: int)
    requires 0 <= i < |prisms|
  {
    IsActive(active, i) && near(prisms[i])
  }

  /** World_GetTouchedPrismIndex: the lowest active prism the player is near,
      or -1.  `near` stands for the planar distance test against the prism's
      cell centre. */
  function FirstTouched(prisms: seq<Cell>, active: seq<bool>, near: Cell -> bool): (i: int)
    ensures -1 <= i < |prisms|
    ensures i >= 0 ==> Touches(prisms, active, near, i)
    ensures forall j :: 0 <= j < |prisms| && (i == -1 || j < i) ==> !Touches(prisms, active, near, j)
  {
    FirstTouchedFrom(prisms, active, near, 0)
  }

  function FirstTouchedFrom(prisms: seq<Cell>, active: seq<bool>, near: Cell -> bool, from: nat): (i: int)
    requires from <= |prisms|
    ensures i == -1 || from <= i < |prisms|
    ensures i >= 0 ==> Touches(prisms, active, near, i)
    ensures forall j :: from <= j < |prisms| && (i == -1 || j < i) ==> !Touches(prisms, active, near, j)
    decreases |prisms| - from
  {
    if from == |prisms| then -1
    else if Touches(prisms, active, near, from) then from
    else FirstTouchedFrom(prisms, active, near, from + 1)
  }

  // ---------------------------------------------------------------------
  // Puzzle outcomes
  // ---------------------------------------------------------------------

  /** The stage after World_OnPuzzleSolved(i). */
  function StageAfter(stage: int, i: int): (r: int)
    ensures r >= stage
    ensures i in STAGE_TARGETS ==> r >= STAGE_TARGETS[i] && (r == stage || r == STAGE_TARGETS[i])
    ensures i !in STAGE_TARGETS ==> r == stage
  {
    if i in STAGE_TARGETS && STAGE_TARGETS[i] > stage then STAGE_TARGETS[i] else stage
  }

  /** World_OnPuzzleSolved: only the stage changes, and never downwards. */
  function PuzzleSolved(p: Progress, i: int): (t: Progress)
    ensures t == p.(stage := t.stage) && t.stage >= p.stage
  {
    p.(stage := StageAfter(p.stage, i))
  }

  /** World_OnPuzzleFailed on the progress record: lose a life if any is
      left, block sprint for good, and invert the controls once the lives
      reach 1. */
  function PuzzleFailed(p: Progress): (t: Progress)
    ensures t.stage == p.stage && t.sprintBlocked
    ensures t.lives == (if p.lives > 0 then p.lives - 1 else p.lives)
    ensures p.lives >= 0 ==> t.lives >= 0
    ensures t.invertControls <==> p.invertControls || t.lives == 1
  {
    var lives := if p.lives > 0 then p.lives - 1 else p.lives;
    p.(lives := lives, sprintBlocked := true, invertControls := p.invertControls || lives == 1)
  }

  /** World_OnPuzzleFailed: the penalties, and sprint is switched off. */
  function Failed(s: WorldState): (t: WorldState)
    ensures t.progress == PuzzleFailed(s.progress) && !t.input.sprint
    ensures t.input == s.input.(sprint := false) && t.scene == s.scene && t.pose == s.pose && t.fade == s.fade
  {
    s.(progress := PuzzleFailed(s.progress), input := s.input.(sprint := false))
  }

  // ---------------------------------------------------------------------
  // Keyboard
  // ---------------------------------------------------------------------

  /** The input part of pressing k at `now` (ms), given whether sprint is
      blocked: the key is held, and a fresh press of W within the double-tap
      window of the previous one starts sprinting. */
  function Press(inp: Input, k: Key, now: int, blocked: bool): (t: Input)
    requires |inp.keys| == KEY_COUNT
    ensures t.keys == inp.keys[k := true]
    ensures t.sprint <==> inp.sprint || (IsW(k) && !inp.wIsDown && !blocked && now - inp.lastWTapMs <= SPRINT_DOUBLE_TAP_MS)
    ensures IsW(k) && !inp.wIsDown ==> t.lastWTapMs == now && t.wIsDown
    ensures !IsW(k) || inp.wIsDown ==> t.lastWTapMs == inp.lastWTapMs && t.wIsDown == inp.wIsDown
  {
    var held := inp.(keys := inp.keys[k := true]);
    if IsW(k) && !held.wIsDown then
      held.(sprint := held.sprint || (!blocked && now - held.lastWTapMs <= SPRINT_DOUBLE_TAP_MS),
            lastWTapMs := now, wIsDown := true)
    else held
  }

  /** Jumping: Space while standing gives the jump speed and leaves the
      ground. */
  function Jump(p: Pose, k: Key): (t: Pose)
    ensures k == KEY_SPACE && p.onGround ==> t == p.(velY := JUMP_VEL, onGround := false)
    ensures k != KEY_SPACE || !p.onGround ==> t == p
  {
    if k == KEY_SPACE && p.onGround then p.(velY := JUMP_VEL, onGround := false) else p
  }

  /** World_OnKeyDown at time `now` (ms). */
  function KeyDown(s: WorldState, k: Key, now: int, puzzleOpen: bool): (t: WorldState)
    requires |s.input.keys| == KEY_COUNT
    ensures t.scene == s.scene && t.progress == s.progress && t.fade == s.fade && t.wasTouching == s.wasTouching
    ensures puzzleOpen ==> t == s
    ensures !puzzleOpen && k == KEY_ESC ==> t == s.(paused := !s.paused)
    ensures !puzzleOpen && k != KEY_ESC ==>
              t == s.(input := Press(s.input, k, now, s.progress.sprintBlocked), pose := Jump(s.pose, k))
  {
    if puzzleOpen then s
    else if k == KEY_ESC then s.(paused := !s.paused)
    else s.(input := Press(s.input, k, now, s.progress.sprintBlocked), pose := Jump(s.pose, k))
  }

  /** The input part of releasing k: releasing W ends sprint. */
  function Release(inp: Input, k: Key): (t: Input)
    requires |inp.keys| == KEY_COUNT
    ensures t.keys == inp.keys[k := false] && t.lastWTapMs == inp.lastWTapMs
    ensures IsW(k) ==> !t.wIsDown && !t.sprint
    ensures !IsW(k) ==> t.wIsDown == inp.wIsDown && t.sprint == inp.sprint
  {
    var released := inp.(keys := inp.keys[k := false]);
    if IsW(k) then released.(wIsDown := false, sprint := false) else released
  }

  /** World_OnKeyUp. */
  function KeyUp(s: WorldState, k: Key, puzzleOpen: bool): (t: WorldState)
    requires |s.input.keys| == KEY_COUNT
    ensures t.scene == s.scene && t.progress == s.progress && t.fade == s.fade && t.pose == s.pose
    ensures t.paused == s.paused && t.wasTouching == s.wasTouching
    ensures puzzleOpen ==> t == s
    ensures !puzzleOpen ==> t == s.(input := Release(s.input, k))
  {
    if puzzleOpen then s else s.(input := Release(s.input, k))
  }

  // ---------------------------------------------------------------------
  // World_Update
  // ---------------------------------------------------------------------

  /** Held keys, sprint and the W latch all cleared. */
  function Cleared(inp: Input): (t: Input)
    ensures t.keys == NoKeys() && !t.sprint && !t.wIsDown && t.lastWTapMs == inp.lastWTapMs
  {
    inp.(keys := NoKeys(), sprint := false, wIsDown := false)
  }

  datatype TickResult = TickResult(state: WorldState, reloaded: bool, openPrism: int)

  /** One update while a fade is running: advance the timer by `ms`; at the
      end of the fade-out swap to the target level and respawn; at the end of
      the fade-in stop. */
  function FadeTick(s: WorldState, ms: int): (r: TickResult)
    requires s.fade.phase != NoTransition
    ensures r.openPrism == -1
    ensures r.reloaded <==> s.fade.phase == FadingOut && s.fade.ms + ms >= TRANSITION_TOTAL_MS
    ensures r.reloaded ==>
              && r.state.scene == LoadedScene(s.fade.target) && r.state.pose == SpawnPose()
              && r.state.input == Cleared(s.input) && r.state.fade == Fade(FadingIn, 0, s.fade.target)
    ensures !r.reloaded ==> r.state == s.(fade := r.state.fade)
    ensures s.fade.phase == FadingIn && s.fade.ms + ms >= TRANSITION_TOTAL_MS ==>
              r.state.fade == s.fade.(phase := NoTransition, ms := 0)
    ensures s.fade.ms + ms < TRANSITION_TOTAL_MS ==> r.state.fade == s.fade.(ms := s.fade.ms + ms)
    ensures r.state.progress == s.progress && r.state.paused == s.paused
  {
    var time := s.fade.ms + ms;
    if s.fade.phase == FadingOut then
      if time >= TRANSITION_TOTAL_MS then
        TickResult(s.(scene := LoadedScene(s.fade.target), pose := SpawnPose(), input := Cleared(s.input),
                      fade := Fade(FadingIn, 0, s.fade.target)), true, -1)
      else TickResult(s.(fade := s.fade.(ms := time)), false, -1)
    else
      if time >= TRANSITION_TOTAL_MS then TickResult(s.(fade := s.fade.(phase := NoTransition, ms := 0)), false, -1)
      else TickResult(s.(fade := s.fade.(ms := time)), false, -1)
  }

  /** The level the portal leads to, if any. */
  function NextLevel(level: Level): Level
  {
    match level
    case Easy => Medium
    case Medium => Hard
    case Hard => Hard
  }

  /** The sprint check at the start of a play update: no W held, no sprint. */
  function SprintHeld(inp: Input): (t: Input)
    requires |inp.keys| == KEY_COUNT
    ensures t == inp.(sprint := t.sprint)
    ensures t.sprint <==> inp.sprint && (inp.keys[KEY_W] || inp.keys[KEY_W_UPPER])
  {
    if !(inp.keys[KEY_W] || inp.keys[KEY_W_UPPER]) then inp.(sprint := false) else inp
  }

  /** The prism edge trigger after the player moved to `moved`: on entering
      an active prism's radius, report it, release the mouse, clear the input
      and stop vertical motion. */
  function TouchStep(s: WorldState, near: Cell -> bool, moved: Pose): (r: TickResult)
    ensures var i := FirstTouched(s.scene.prisms, s.scene.prismActive, near);
            && r.state.wasTouching == (i >= 0)
            && r.openPrism == (if i >= 0 && !s.wasTouching then i else -1)
    ensures r.openPrism >= 0 ==>
              r.state == s.(input := Cleared(s.input), pose := moved.(velY := 0.0), wasTouching := true,
                            mouseCaptured := false)
    ensures r.openPrism < 0 ==> r.state == s.(pose := moved, wasTouching := r.state.wasTouching)
    ensures !r.reloaded
  {
    var i := FirstTouched(s.scene.prisms, s.scene.prismActive, near);
    if i >= 0 && !s.wasTouching then
      TickResult(s.(input := Cleared(s.input), pose := moved.(velY := 0.0), wasTouching := true,
                    mouseCaptured := false), false, i)
    else TickResult(s.(pose := moved, wasTouching := i >= 0), false, -1)
  }

  /** The portal at the end room: from Easy or Medium start fading out
      towards the next level, clearing the input; from Hard nothing. */
  function PortalStep(s: WorldState, atPortal: bool): (t: WorldState)
    ensures t.scene == s.scene && t.progress == s.progress && t.wasTouching == s.wasTouching
    ensures t.fade.phase == FadingOut <==> s.fade.phase == FadingOut || (atPortal && s.scene.level != Hard)
    ensures atPortal && s.scene.level != Hard ==> t.fade.target != s.scene.level
    ensures atPortal && s.scene.level != Hard ==>
              t == s.(fade := Fade(FadingOut, 0, NextLevel(s.scene.level)), input := Cleared(s.input),
                      pose := s.pose.(velY := 0.0))
    ensures !atPortal || s.scene.level == Hard ==> t == s
  {
    if atPortal && s.scene.level != Hard then
      s.(fade := Fade(FadingOut, 0, NextLevel(s.scene.level)), input := Cleared(s.input),
         pose := s.pose.(velY := 0.0))
    else s
  }

  /** One update with no fade running.  `moved` is the pose the motion
      integrator produces, `near` and `atPortal` the proximity tests at that
      pose. */
  function PlayTick(s: WorldState, puzzleOpen: bool, near: Cell -> bool, atPortal: bool, moved: Pose): (r: TickResult)
    requires |s.input.keys| == KEY_COUNT
    ensures !r.reloaded && r.state.progress == s.progress && r.state.scene == s.scene
    ensures puzzleOpen || s.paused ==> r == TickResult(s, false, -1)
    ensures !puzzleOpen && !s.paused ==>
              var touched := TouchStep(s.(input := SprintHeld(s.input)), near, moved);
              r == TickResult(PortalStep(touched.state, atPortal), false, touched.openPrism)
  {
    if puzzleOpen || s.paused then TickResult(s, false, -1)
    else
      var touched := TouchStep(s.(input := SprintHeld(s.input)), near, moved);
      TickResult(PortalStep(touched.state, atPortal), false, touched.openPrism)
  }

  /** World_Update(ms). */
  function Tick(s: WorldState, ms: int, puzzleOpen: bool, near: Cell -> bool, atPortal: bool, moved: Pose): (r: TickResult)
    requires |s.input.keys| == KEY_COUNT
    ensures r.state.progress == s.progress
    ensures r.openPrism >= 0 ==> !puzzleOpen && !r.reloaded && s.fade.phase == NoTransition
    ensures r.reloaded ==> s.fade.phase == FadingOut
    ensures s.fade.phase != NoTransition ==> r == FadeTick(s, ms)
    ensures s.fade.phase == NoTransition ==> r == PlayTick(s, puzzleOpen, near, atPortal, moved)
  {
    if s.fade.phase != NoTransition then FadeTick(s, ms)
    else PlayTick(s, puzzleOpen, near, atPortal, moved)
  }

  /** The globals after World_Init: the easy level loaded, three lives,
      stage 0, no penalties, nothing held, the player at the spawn point, no
      fade, the mouse captured. */
  function InitialState(): WorldState
  {
    WorldState(LoadedScene(Easy), Progress(0, INITIAL_LIVES, false, false),
               Input(NoKeys(), false, false, NO_TAP_MS), SpawnPose(),
               Fade(NoTransition, 0, Easy), false, false, true)
  }

  // ---------------------------------------------------------------------
  // The globals of World.cpp
  // ---------------------------------------------------------------------

  class World {
    var level: Level
    var prismIsRed: bool
    var prisms: seq<Cell>
    var prismActive: seq<bool>
    const maze: array2<int>
    var wallRects: seq<Rect>
    var walls: seq<Box>
    var stage: int
    var lives: int
    var sprintBlocked: bool
    var invertControls: bool
    const keys: array<bool>
    var sprint: bool
    var wIsDown: bool
    var lastWTapMs: int
    var pose: Pose
    var transition: Transition
    var transitionMs: int
    var target: Level
    var paused: bool
    var wasTouching: bool
    var mouseCaptured: bool

    ghost predicate Valid()
    {
      keys.Length == KEY_COUNT && maze.Length0 == MAP_H && maze.Length1 == MAP_W
    }

    function SceneNow(): Scene
      reads this
    {
      Scene(level, prismIsRed, prisms, prismActive)
    }

    function ProgressNow(): Progress
      reads this
    {
      Progress(stage, lives, sprintBlocked, invertControls)
    }

    function InputNow(): Input
      reads this, keys
    {
      Input(keys[..], sprint, wIsDown, lastWTapMs)
    }

    /** Every global except the grid and the wall geometry. */
    function State(): WorldState
      reads this, keys
    {
      WorldState(SceneNow(), ProgressNow(), InputNow(), pose, Fade(transition, transitionMs, target),
                 paused, wasTouching, mouseCaptured)
    }

    /** The maze buffer holds the grid of `lvl`. */
    ghost predicate MazeIs(lvl: Level)
      reads this, maze
      requires Valid()
    {
      forall z, x :: 0 <= z < MAP_H && 0 <= x < MAP_W ==> maze[z, x] == Row(lvl, z)[x]
    }

    /** The rectangles compact the maze and the walls are their boxes. */
    ghost predicate GeometryOk()
      reads this, maze
    {
      IsCompaction(maze, wallRects) &&
      |walls| == |wallRects| && forall k :: 0 <= k < |wallRects| ==> walls[k] == BoxOf(wallRects[k])
    }

    /** World_Init: the initial globals, the easy level loaded, the player
        at the spawn point. */
    constructor ()
      ensures Valid() && MazeIs(Easy) && GeometryOk()
      ensures State() == InitialState()
    {
      level := Easy;
      prismIsRed := false;
      prisms := [];
      prismActive := [];
      maze := new int[MAP_H, MAP_W];
      wallRects := [];
      walls := [];
      stage := 0;
      lives := INITIAL_LIVES;
      sprintBlocked := false;
      invertControls := false;
      keys := new bool[KEY_COUNT](_ => false);
      sprint := false;
      wIsDown := false;
      lastWTapMs := NO_TAP_MS;
      pose := SpawnPose();
      transition := NoTransition;
      transitionMs := 0;
      target := Easy;
      paused := false;
      wasTouching := false;
      mouseCaptured := true;
      new;
      assert keys[..] == NoKeys();
      LoadLevelData();
    }

    /** greedyMerge: compact the maze into rectangles, then one wall box per
        rectangle. */
    method GreedyMerge()
      requires Valid()
      modifies this
      ensures GeometryOk()
      ensures State() == old(State())
    {
      wallRects := ScanRects(maze);
      walls := BuildWalls(wallRects);
    }

    /** LoadLevelData: copy the level's grid into the maze buffer, reset the
        prisms to all active, and rebuild the walls.  Nothing else changes. */
    method LoadLevelData()
      requires Valid()
      modifies this, maze
      ensures MazeIs(level) && GeometryOk()
      ensures State() == old(State()).(scene := LoadedScene(old(level)))
    {
      prisms := Prisms(level);
      prismIsRed := level != Hard;
      forall z, x | 0 <= z < MAP_H && 0 <= x < MAP_W {
        maze[z, x] := Row(level, z)[x];
      }
      prismActive := seq(|prisms|, _ => true);
      GreedyMerge();
    }

    /** The debug keys F1, F2 and F3 of World_OnSpecialKey: switch to a level
        and reload it. */
    method SelectLevel(lvl: Level)
      requires Valid()
      modifies this, maze
      ensures MazeIs(lvl) && GeometryOk()
      ensures State() == old(State()).(scene := LoadedScene(lvl))
    {
      level := lvl;
      LoadLevelData();
    }

    method DisablePrismAt(i: int)
      modifies this
      ensures State() == old(State()).(scene := DisablePrism(old(SceneNow()), i))
      ensures wallRects == old(wallRects) && walls == old(walls)
    {
      if i < 0 || i >= |prisms| {
        return;
      }
      if i >= |prismActive| {
        prismActive := prismActive + seq(|prisms| - |prismActive|, _ => true);
      }
      prismActive := prismActive[i := false];
    }

    method OnPuzzleFailed() returns (remaining: int)
      modifies this
      ensures State() == Failed(old(State()))
      ensures remaining == lives
      ensures wallRects == old(wallRects) && walls == old(walls)
    {
      if lives > 0 {
        lives := lives - 1;
      }
      sprintBlocked := true;
      sprint := false;
      if lives == 1 {
        invertControls := true;
      }
      remaining := lives;
    }

    method OnPuzzleSolved(i: int)
      modifies this
      ensures State() == old(State()).(progress := PuzzleSolved(old(ProgressNow()), i))
      ensures wallRects == old(wallRects) && walls == old(walls)
    {
      var desired := stage;
      if i == 2 {
        desired := if desired < 1 then 1 else desired;
      } else if i == 4 {
        desired := if desired < 2 then 2 else desired;
      } else if i == 6 {
        desired := if desired < 3 then 3 else desired;
      } else if i == 7 {
        desired := if desired < 4 then 4 else desired;
      }
      if desired != stage {
        stage := desired;
      }
    }

    method OnKeyDown(k: Key, now: int, puzzleOpen: bool)
      requires Valid()
      modifies this, keys
      ensures State() == KeyDown(old(State()), k, now, puzzleOpen)
      ensures wallRects == old(wallRects) && walls == old(walls)
    {
      if puzzleOpen {
        return;
      }
      if k == KEY_ESC {
        paused := !paused;
        return;
      }
      keys[k] := true;
      if IsW(k) {
        if !wIsDown {
          if !sprintBlocked && now - lastWTapMs <= SPRINT_DOUBLE_TAP_MS {
            sprint := true;
          }
          lastWTapMs := now;
          wIsDown := true;
        }
      }
      if k == KEY_SPACE && pose.onGround {
        pose := pose.(velY := JUMP_VEL, onGround := false);
      }
    }

    method OnKeyUp(k: Key, puzzleOpen: bool)
      requires Valid()
      modifies this, keys
      ensures State() == KeyUp(old(State()), k, puzzleOpen)
      ensures wallRects == old(wallRects) && walls == old(walls)
    {
      if puzzleOpen {
        return;
      }
      keys[k] := false;
      if IsW(k) {
        wIsDown := false;
        sprint := false;
      }
    }

    /** World_GetTouchedPrismIndex. */
    method TouchedPrismIndex(near: Cell -> bool) returns (i: int)
      ensures i == FirstTouched(prisms, prismActive, near)
    {
      var k := 0;
      while k < |prisms|
        invariant 0 <= k <= |prisms|
        invariant forall j :: 0 <= j < k ==> !Touches(prisms, prismActive, near, j)
      {
        if !(k < |prismActive| && !prismActive[k]) && near(prisms[k]) {
          assert Touches(prisms, prismActive, near, k);
          return k;
        }
        k := k + 1;
      }
      return -1;
    }

    /** memset of the key table, and sprint and the W latch off. */
    method ClearInput()
      requires Valid()
      modifies this, keys
      ensures State() == old(State()).(input := Cleared(old(InputNow())))
      ensures wallRects == old(wallRects) && walls == old(walls)
    {
      forall k | 0 <= k < KEY_COUNT {
        keys[k] := false;
      }
      assert keys[..] == NoKeys();
      sprint := false;
      wIsDown := false;
    }

    /** World_Update(ms) without the motion integrator: `moved` is the pose it
        would produce.  Reports whether the level was reloaded and which
        prism's puzzle to open (-1 for none). */
    method Update(ms: int, puzzleOpen: bool, near: Cell -> bool, atPortal: bool, moved: Pose)
      returns (reloaded: bool, openPrism: int)
      requires Valid()
      modifies this, keys, maze
      ensures TickResult(State(), reloaded, openPrism) == Tick(old(State()), ms, puzzleOpen, near, atPortal, moved)
      ensures reloaded ==> MazeIs(level) && GeometryOk()
      ensures !reloaded ==> wallRects == old(wallRects) && walls == old(walls) && unchanged(maze)
    {
      if transition != NoTransition {
        reloaded := UpdateFade(ms);
        openPrism := -1;
        return;
      }
      reloaded, openPrism := false, -1;
      if puzzleOpen || paused {
        return;
      }
      if !(keys[KEY_W] || keys[KEY_W_UPPER]) {
        sprint := false;
      }
      openPrism := TouchPrisms(near, moved);
      EnterPortal(atPortal);
    }

    /** The prism edge trigger of World_Update, after the motion integrator
        has moved the player to `moved`. */
    method TouchPrisms(near: Cell -> bool, moved: Pose) returns (openPrism: int)
      requires Valid()
      modifies this, keys
      ensures TickResult(State(), false, openPrism) == TouchStep(old(State()), near, moved)
      ensures wallRects == old(wallRects) && walls == old(walls)
    {
      openPrism := -1;
      pose := moved;
      var i := TouchedPrismIndex(near);
      var touching := i >= 0;
      if touching && !wasTouching {
        openPrism := i;
        mouseCaptured := false;
        ClearInput();
        pose := pose.(velY := 0.0);
      }
      wasTouching := touching;
    }

    /** The portal check of World_Update. */
    method EnterPortal(atPortal: bool)
      requires Valid()
      modifies this, keys
      ensures State() == PortalStep(old(State()), atPortal)
      ensures wallRects == old(wallRects) && walls == old(walls)
    {
      if atPortal {
        if level == Easy {
          target := Medium;
        } else if level == Medium {
          target := Hard;
        } else {
          return;
        }
        transition := FadingOut;
        transitionMs := 0;
        ClearInput();
        pose := pose.(velY := 0.0);
      }
    }

    /** The fade branch of World_Update. */
    method UpdateFade(ms: int) returns (reloaded: bool)
      requires Valid() && transition != NoTransition
      modifies this, keys, maze
      ensures TickResult(State(), reloaded, -1) == FadeTick(old(State()), ms)
      ensures reloaded ==> MazeIs(level) && GeometryOk()
      ensures !reloaded ==> wallRects == old(wallRects) && walls == old(walls) && unchanged(maze)
    {
      reloaded := false;
      transitionMs := transitionMs + ms;
      if transition == FadingOut {
        if transitionMs >= TRANSITION_TOTAL_MS {
          level := target;
          LoadLevelData();
          pose := SpawnPose();
          ClearInput();
          transition := FadingIn;
          transitionMs := 0;
          reloaded := true;
        }
      } else if transition == FadingIn {
        if transitionMs >= TRANSITION_TOTAL_MS {
          transition := NoTransition;
          transitionMs := 0;
        }
      }
    }
  }
}
