/** How World.cpp, Puzzles.cpp and main.cpp call each other: the update
    timer, the prism trigger opening a puzzle, level loads rebuilding the
    puzzles, and the puzzle buttons feeding their outcome back to the world. */
module Game {
  import opened Levels
  import opened World
  import W = World
  import opened Puzzles
  import opened WorldProperties

  /** main.cpp runs World_Update every 16 ms. */
  const UPDATE_MS: int := 16

  /** The world calls a puzzle outcome makes, in the order the window makes
      them: disable the prism, apply the penalty, report the puzzle solved. */
  function ApplyEffect(s: WorldState, e: Effect, i: int): (t: WorldState)
    ensures t.pose == s.pose && t.fade == s.fade && t.input.keys == s.input.keys
    ensures t.scene == (if e.disablePrism then DisablePrism(s.scene, i) else s.scene)
  {
    var disabled := if e.disablePrism then s.(scene := DisablePrism(s.scene, i)) else s;
    var punished := if e.penalty then Failed(disabled) else disabled;
    if e.solvedEvent then punished.(progress := PuzzleSolved(punished.progress, i)) else punished
  }

  /** The indices Puzzles.cpp lets a failure degrade the world for are the
      ones World_OnPuzzleSolved has a stage for. */
  lemma DegradingIsStageTargets()
    ensures DEGRADING == STAGE_TARGETS.Keys
  {
  }

  /** Red (easy and medium) mode never touches lives, stage or sprint: a
      correct check only disables the prism; a wrong check, a restart or a
      give-up leave the world as it is. */
  lemma RedModeIsHarmless(s: WorldState, action: Action, correct: bool, i: int)
    ensures var t := ApplyEffect(s, OutcomeEffect(true, action, correct, i), i);
            && t.progress == s.progress && t.input == s.input
            && (action == Verify && correct ==> t.scene == DisablePrism(s.scene, i))
            && (!(action == Verify && correct) ==> t == s)
  {
  }

  /** Hard mode: every outcome but a restart disables the prism, so each
      puzzle is played once; a wrong check and a give-up cost a life and
      block sprint. */
  lemma HardModeOutcomes(s: WorldState, action: Action, correct: bool, i: int)
    requires action != Restart
    ensures var t := ApplyEffect(s, OutcomeEffect(false, action, correct, i), i);
            && t.scene == DisablePrism(s.scene, i)
            && (action == Verify && correct ==> t.progress.lives == s.progress.lives && t.input == s.input)
            && (!(action == Verify && correct) ==>
                  && t.progress.lives == (if s.progress.lives > 0 then s.progress.lives - 1 else s.progress.lives)
                  && t.progress.sprintBlocked && !t.input.sprint)
  {
  }

  /** In hard mode the world degrades the same whether a puzzle is solved,
      failed or given up. */
  lemma FailureDegradesLikeSuccess(s: WorldState, correct: bool, i: int)
    ensures ApplyEffect(s, OutcomeEffect(false, Verify, correct, i), i).progress.stage
         == ApplyEffect(s, OutcomeEffect(false, Verify, true, i), i).progress.stage
    ensures ApplyEffect(s, OutcomeEffect(false, GiveUp, correct, i), i).progress.stage
         == ApplyEffect(s, OutcomeEffect(false, Verify, true, i), i).progress.stage
  {
    if i !in DEGRADING {
      assert StageAfter(s.progress.stage, i) == s.progress.stage;
    }
  }

  /** Whatever a puzzle window asks of the world keeps the world invariant
      and moves the penalties only one way. */
  lemma EffectKeepsInv(s: WorldState, e: Effect, i: int)
    requires Inv(s)
    ensures Inv(ApplyEffect(s, e, i)) && Monotone(s, ApplyEffect(s, e, i))
  {
    var disabled := if e.disablePrism then s.(scene := DisablePrism(s.scene, i)) else s;
    DisableKeepsInv(s, i);
    var punished := if e.penalty then Failed(disabled) else disabled;
    FailedKeepsInv(disabled);
    SolvedKeepsInv(punished, i);
  }

  /** An update opens a puzzle only when none is open, never while
      reloading, and always for one of the current level's prisms; without a
      reload the prisms stay those of the level. */
  lemma TickOpensOnePrism(s: WorldState, ms: int, puzzleOpen: bool, near: Cell -> bool, atPortal: bool, moved: Pose)
    requires Inv(s)
    ensures var r := Tick(s, ms, puzzleOpen, near, atPortal, moved);
            && (r.openPrism >= 0 ==> !puzzleOpen && !r.reloaded && r.openPrism < |s.scene.prisms|
                                     && IsActive(s.scene.prismActive, r.openPrism))
            && (r.openPrism < 0 ==> r.openPrism == -1)
            && (!r.reloaded ==> r.state.scene == s.scene)
  {
    if s.fade.phase == NoTransition && !puzzleOpen && !s.paused {
      var held := s.(input := SprintHeld(s.input));
      assert held.scene == s.scene;
      var touched := TouchStep(held, near, moved);
      assert touched.state.scene == s.scene;
    }
  }

  /** Each shipped level gets exactly one puzzle per prism, so prism i
      opens puzzle i; main.cpp's extra Puzzles_Init(8) on the easy level
      builds the same puzzles as the world's own call. */
  lemma OnePuzzlePerPrism(level: Level)
    ensures |Catalogue(level != Hard, |Prisms(level)|)| == |Prisms(level)|
    ensures Catalogue(true, 8) == Catalogue(true, |Prisms(Easy)|)
  {
  }

  class Game {
    const world: World
    const board: Board

    /** Both halves valid, the maze and the wall boxes those of the
        world's level, one puzzle per prism. */
    ghost predicate Valid()
      reads this, world, world.keys, world.maze, board
    {
      && world.Valid() && board.Valid() && Inv(world.State())
      && world.MazeIs(world.level) && world.GeometryOk()
      && |board.puzzles| == |world.prisms|
    }

    /** main(): World_Init (whose level load runs Puzzles_Init with the
        prism count), then Puzzles_Init(8). */
    constructor ()
      ensures Valid() && world.State() == InitialState()
      ensures world.level == Easy && world.MazeIs(Easy) && world.GeometryOk()
      ensures |board.puzzles| == 5 && !board.isOpen
      ensures forall k :: 0 <= k < 5 ==> board.puzzles[k] == Fresh(EASY_SHAPES[k])
    {
      world := new World();
      board := new Board();
      new;
      board.Init(world.prismIsRed, |world.prisms|);
      board.Init(world.prismIsRed, 8);
      InitialStateInv();
    }

    /** The 16 ms timer: World_Update, with Puzzles_Init on a level swap and
        Puzzles_OpenForPrism on a prism entered. */
    method Update(near: Cell -> bool, atPortal: bool, moved: Pose) returns (reloaded: bool, openPrism: int)
      requires Valid()
      modifies world, world.keys, world.maze, board
      ensures Valid()
      ensures TickResult(world.State(), reloaded, openPrism)
           == Tick(old(world.State()), UPDATE_MS, old(board.isOpen), near, atPortal, moved)
      ensures reloaded ==> world.MazeIs(world.level) && world.GeometryOk()
      ensures !reloaded ==> world.wallRects == old(world.wallRects) && world.walls == old(world.walls) && unchanged(world.maze)
      ensures reloaded ==> !board.isOpen && forall k :: 0 <= k < |board.puzzles| ==>
                board.puzzles[k] == Fresh(Catalogue(world.prismIsRed, |world.prisms|)[k])
      ensures reloaded ==> board.active == -1
      ensures openPrism >= 0 ==>
                && board.isOpen && board.active == openPrism
                && board.puzzles == old(board.puzzles)[openPrism := Emptied(old(board.puzzles)[openPrism])]
                && !board.waitingAutoClose && !board.failPopup && !board.lastCheckWasOk && !board.hasCheckResult
      ensures !reloaded && openPrism < 0 ==>
                board.puzzles == old(board.puzzles) && board.isOpen == old(board.isOpen) && board.active == old(board.active)
      ensures openPrism < 0 ==>
                && board.waitingAutoClose == old(board.waitingAutoClose) && board.failPopup == old(board.failPopup)
                && board.lastCheckWasOk == old(board.lastCheckWasOk) && board.hasCheckResult == old(board.hasCheckResult)
    {
      ghost var s := world.State();
      TickKeepsInv(s, UPDATE_MS, board.isOpen, near, atPortal, moved);
      TickOpensOnePrism(s, UPDATE_MS, board.isOpen, near, atPortal, moved);
      reloaded, openPrism := world.Update(UPDATE_MS, board.isOpen, near, atPortal, moved);
      FollowWorld(reloaded, openPrism);
    }

    /** The puzzle calls World_Update's outcome leads to: rebuild the
        puzzles after a level swap, open the entered prism's puzzle. */
    method FollowWorld(reloaded: bool, openPrism: int)
      requires world.Valid() && board.Valid() && Inv(world.State())
      requires world.MazeIs(world.level) && world.GeometryOk()
      requires !reloaded ==> |board.puzzles| == |world.prisms|
      requires -1 <= openPrism < |world.prisms| && (openPrism >= 0 ==> !reloaded)
      modifies board
      ensures Valid()
      ensures reloaded ==> !board.isOpen && forall k :: 0 <= k < |board.puzzles| ==>
                board.puzzles[k] == Fresh(Catalogue(world.prismIsRed, |world.prisms|)[k])
      ensures reloaded ==> board.active == -1
      ensures openPrism >= 0 ==>
                && board.isOpen && board.active == openPrism
                && board.puzzles == old(board.puzzles)[openPrism := Emptied(old(board.puzzles)[openPrism])]
                && !board.waitingAutoClose && !board.failPopup && !board.lastCheckWasOk && !board.hasCheckResult
      ensures !reloaded && openPrism < 0 ==>
                board.puzzles == old(board.puzzles) && board.isOpen == old(board.isOpen) && board.active == old(board.active)
      ensures openPrism < 0 ==>
                && board.waitingAutoClose == old(board.waitingAutoClose) && board.failPopup == old(board.failPopup)
                && board.lastCheckWasOk == old(board.lastCheckWasOk) && board.hasCheckResult == old(board.hasCheckResult)
    {
      if reloaded {
        board.Init(world.prismIsRed, |world.prisms|);
        OnePuzzlePerPrism(world.level);
      }
      if openPrism >= 0 {
        board.OpenForPrism(openPrism);
      }
    }

    /** A button of the puzzle window; the world then applies its effect to
        the active puzzle's prism. */
    method Click(action: Action) returns (e: Effect)
      requires Valid()
      modifies world, board
      ensures Valid()
      ensures world.State() == ApplyEffect(old(world.State()), e, old(board.active))
      ensures world.wallRects == old(world.wallRects) && world.walls == old(world.walls)
      ensures old(board.isOpen) && (world.prismIsRed || (!old(board.waitingAutoClose) && !old(board.failPopup))) ==>
                e == OutcomeEffect(world.prismIsRed, action, AllSlotsCorrect(old(board.puzzles)[old(board.active)]),
                                   old(board.active))
      ensures !old(board.isOpen) ==> e == NO_EFFECT
      ensures board.Pressed(world.prismIsRed, action, e)
    {
      var i := board.active;
      e := board.Press(world.prismIsRed, action);
      ApplyToWorld(e, i);
    }

    /** The world calls of a button's effect for puzzle i, in the window's
        order: disable the prism, apply the penalty, report it solved.  The
        level, its maze and its walls stay. */
    method ApplyToWorld(e: Effect, i: int)
      requires world.Valid() && Inv(world.State()) && world.MazeIs(world.level) && world.GeometryOk()
      modifies world
      ensures world.Valid() && Inv(world.State()) && world.MazeIs(world.level) && world.GeometryOk()
      ensures world.State() == ApplyEffect(old(world.State()), e, i)
      ensures world.level == old(world.level) && world.prisms == old(world.prisms)
      ensures world.prismIsRed == old(world.prismIsRed)
      ensures world.wallRects == old(world.wallRects) && world.walls == old(world.walls)
    {
      EffectKeepsInv(world.State(), e, i);
      if e.disablePrism {
        world.DisablePrismAt(i);
      }
      if e.penalty {
        var _ := world.OnPuzzleFailed();
      }
      if e.solvedEvent {
        world.OnPuzzleSolved(i);
      }
    }

    /** Dropping an unused palette block on a slot of the open puzzle. */
    method Drop(s: nat, b: int)
      requires Valid() && board.isOpen && (world.prismIsRed || !board.failPopup)
      requires s < |board.puzzles[board.active].slots| && 0 <= b < |board.puzzles[board.active].blocks|
      requires !board.puzzles[board.active].blocks[b].used
      modifies board
      ensures Valid()
      ensures board.puzzles == old(board.puzzles)[old(board.active) := Dropped(old(board.puzzles)[old(board.active)], s, b)]
      ensures board.active == old(board.active) && board.isOpen
      ensures board.waitingAutoClose == old(board.waitingAutoClose) && board.failPopup == old(board.failPopup)
      ensures board.lastCheckWasOk == old(board.lastCheckWasOk) && board.hasCheckResult == old(board.hasCheckResult)
    {
      board.Drop(world.prismIsRed, s, b);
    }

    method KeyDown(k: Key, now: int)
      requires Valid()
      modifies world, world.keys
      ensures Valid()
      ensures world.State() == W.KeyDown(old(world.State()), k, now, board.isOpen)
      ensures world.wallRects == old(world.wallRects) && world.walls == old(world.walls)
    {
      KeyDownKeepsInv(world.State(), k, now, board.isOpen);
      world.OnKeyDown(k, now, board.isOpen);
    }

    method KeyUp(k: Key)
      requires Valid()
      modifies world, world.keys
      ensures Valid()
      ensures world.State() == W.KeyUp(old(world.State()), k, board.isOpen)
      ensures world.wallRects == old(world.wallRects) && world.walls == old(world.walls)
    {
      KeyUpKeepsInv(world.State(), k, board.isOpen);
      world.OnKeyUp(k, board.isOpen);
    }

    /** F1, F2, F3: load a level and its puzzles. */
    method SelectLevel(level: Level)
      requires Valid()
      modifies world, world.maze, board
      ensures Valid()
      ensures world.State() == old(world.State()).(scene := LoadedScene(level))
      ensures world.MazeIs(level) && world.GeometryOk()
      ensures !board.isOpen && board.active == -1
      ensures forall k :: 0 <= k < |board.puzzles| ==>
                board.puzzles[k] == Fresh(Catalogue(world.prismIsRed, |world.prisms|)[k])
      ensures board.waitingAutoClose == old(board.waitingAutoClose) && board.failPopup == old(board.failPopup)
      ensures board.lastCheckWasOk == old(board.lastCheckWasOk) && board.hasCheckResult == old(board.hasCheckResult)
    {
      LoadKeepsInv(world.State(), level);
      world.SelectLevel(level);
      board.Init(world.prismIsRed, |world.prisms|);
      OnePuzzlePerPrism(level);
    }

    /** Hard mode, the success message's delay over: the window closes;
        anywhere else nothing happens. */
    method AutoCloseElapsed()
      requires Valid()
      modifies board
      ensures Valid() && board.puzzles == old(board.puzzles) && board.failPopup == old(board.failPopup)
      ensures board.lastCheckWasOk == old(board.lastCheckWasOk) && board.hasCheckResult == old(board.hasCheckResult)
      ensures old(board.isOpen) && !world.prismIsRed && old(board.waitingAutoClose) && !old(board.failPopup) ==>
                !board.isOpen && board.active == -1 && !board.waitingAutoClose
      ensures !(old(board.isOpen) && !world.prismIsRed && old(board.waitingAutoClose) && !old(board.failPopup)) ==>
                && board.isOpen == old(board.isOpen) && board.active == old(board.active)
                && board.waitingAutoClose == old(board.waitingAutoClose)
    {
      board.AutoCloseElapsed(world.prismIsRed);
    }

    /** Hard mode, Accept on the failure popup: the window closes; anywhere
        else nothing happens. */
    method AcceptFailPopup()
      requires Valid()
      modifies board
      ensures Valid() && board.puzzles == old(board.puzzles) && board.waitingAutoClose == old(board.waitingAutoClose)
      ensures board.lastCheckWasOk == old(board.lastCheckWasOk) && board.hasCheckResult == old(board.hasCheckResult)
      ensures old(board.isOpen) && !world.prismIsRed && old(board.failPopup) ==>
                !board.isOpen && board.active == -1 && !board.failPopup
      ensures !(old(board.isOpen) && !world.prismIsRed && old(board.failPopup)) ==>
                board.isOpen == old(board.isOpen) && board.active == old(board.active) && board.failPopup == old(board.failPopup)
    {
      board.AcceptFailPopup(world.prismIsRed);
    }
  }
}
