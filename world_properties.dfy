/** What the transitions of World promise: the world invariant every
    operation keeps, penalties that stick, stage degradation as a maximum,
    the sprint double-tap, the fade timings, the portal's level order and the
    prism trigger. */
module WorldProperties {
  import opened Levels
  import opened Compaction
  import opened World

  // ---------------------------------------------------------------------
  // The world invariant
  // ---------------------------------------------------------------------

  /** Facts every reachable state keeps. */
  ghost predicate Inv(s: WorldState)
  {
    && |s.input.keys| == KEY_COUNT
    && 0 <= s.progress.stage <= MAX_STAGE
    && 0 <= s.progress.lives <= INITIAL_LIVES
    && (s.progress.sprintBlocked ==> !s.input.sprint)
    && (s.progress.invertControls ==> s.progress.lives <= 1)
    && s.scene.prisms == Prisms(s.scene.level)
    && s.scene.prismIsRed == (s.scene.level != Hard)
    && |s.scene.prismActive| == |s.scene.prisms|
    && 0 <= s.fade.ms < TRANSITION_TOTAL_MS
    && (s.fade.phase == NoTransition ==> s.fade.ms == 0)
  }

  /** How any operation may move the penalties: stage up, lives down, and
      the sticky flags never cleared. */
  ghost predicate Monotone(s: WorldState, t: WorldState)
  {
    && t.progress.stage >= s.progress.stage
    && t.progress.lives <= s.progress.lives
    && (s.progress.sprintBlocked ==> t.progress.sprintBlocked)
    && (s.progress.invertControls ==> t.progress.invertControls)
  }

  lemma InitialStateInv()
    ensures Inv(InitialState())
  {
  }

  lemma KeyDownKeepsInv(s: WorldState, k: Key, now: int, puzzleOpen: bool)
    requires Inv(s)
    ensures Inv(KeyDown(s, k, now, puzzleOpen)) && Monotone(s, KeyDown(s, k, now, puzzleOpen))
  {
  }

  lemma KeyUpKeepsInv(s: WorldState, k: Key, puzzleOpen: bool)
    requires Inv(s)
    ensures Inv(KeyUp(s, k, puzzleOpen)) && Monotone(s, KeyUp(s, k, puzzleOpen))
  {
  }

  lemma FailedKeepsInv(s: WorldState)
    requires Inv(s)
    ensures Inv(Failed(s)) && Monotone(s, Failed(s))
  {
  }

  lemma SolvedKeepsInv(s: WorldState, i: int)
    requires Inv(s)
    ensures Inv(s.(progress := PuzzleSolved(s.progress, i)))
    ensures Monotone(s, s.(progress := PuzzleSolved(s.progress, i)))
  {
  }

  lemma DisableKeepsInv(s: WorldState, i: int)
    requires Inv(s)
    ensures Inv(s.(scene := DisablePrism(s.scene, i))) && Monotone(s, s.(scene := DisablePrism(s.scene, i)))
  {
  }

  /** Loading a level (at start, after a fade, or by a debug key) keeps the
      invariant and resets no penalty. */
  lemma LoadKeepsInv(s: WorldState, level: Level)
    requires Inv(s)
    ensures Inv(s.(scene := LoadedScene(level))) && Monotone(s, s.(scene := LoadedScene(level)))
    ensures s.(scene := LoadedScene(level)).progress == s.progress
  {
  }

  lemma TickKeepsInv(s: WorldState, ms: int, puzzleOpen: bool, near: Cell -> bool, atPortal: bool, moved: Pose)
    requires Inv(s) && ms >= 0
    ensures var t := Tick(s, ms, puzzleOpen, near, atPortal, moved).state;
            Inv(t) && Monotone(s, t) && t.progress == s.progress
  {
  }

  // ---------------------------------------------------------------------
  // Stage degradation
  // ---------------------------------------------------------------------

  /** The stage a puzzle index drives the world to; 0 for the others. */
  function Target(i: int): nat
  {
    if i in STAGE_TARGETS then STAGE_TARGETS[i] else 0
  }

  function Max(a: int, b: int): int
  {
    if a >= b then a else b
  }

  /** The stage after World_OnPuzzleSolved for each index of xs in turn. */
  function StageAfterAll(stage: int, xs: seq<int>): int
    decreases |xs|
  {
    if |xs| == 0 then stage else StageAfterAll(StageAfter(stage, xs[0]), xs[1..])
  }

  /** The highest target among xs (0 if none). */
  function MaxTarget(xs: seq<int>): nat
  {
    if |xs| == 0 then 0 else Max(Target(xs[0]), MaxTarget(xs[1..]))
  }

  /** World_OnPuzzleSolved(i) sets the stage to max(stage, target(i)). */
  lemma StageIsMax(stage: int, i: int)
    requires stage >= 0
    ensures StageAfter(stage, i) == Max(stage, Target(i))
    ensures StageAfter(StageAfter(stage, i), i) == StageAfter(stage, i)
  {
  }

  /** Any run of solved puzzles leaves the stage at the maximum of the start
      and their targets. */
  lemma {:induction false} StageAfterAllIsMax(stage: int, xs: seq<int>)
    requires stage >= 0
    ensures StageAfterAll(stage, xs) == Max(stage, MaxTarget(xs))
    decreases |xs|
  {
    if |xs| > 0 {
      StageIsMax(stage, xs[0]);
      StageAfterAllIsMax(StageAfter(stage, xs[0]), xs[1..]);
    }
  }

  lemma {:induction false} MaxTargetAppend(xs: seq<int>, ys: seq<int>)
    ensures MaxTarget(xs + ys) == Max(MaxTarget(xs), MaxTarget(ys))
    decreases |xs|
  {
    if |xs| == 0 {
      assert xs + ys == ys;
    } else {
      assert (xs + ys)[1..] == xs[1..] + ys;
      MaxTargetAppend(xs[1..], ys);
    }
  }

  /** Removing the element at k removes one copy of it from the multiset. */
  lemma Without(s: seq<int>, k: nat)
    requires k < |s|
    ensures multiset(s[..k] + s[k+1..]) == multiset(s) - multiset{s[k]}
  {
    assert s == s[..k] + [s[k]] + s[k+1..];
    forall y ensures multiset(s[..k] + s[k+1..])[y] == (multiset(s) - multiset{s[k]})[y] {
      assert multiset(s)[y] == multiset(s[..k])[y] + multiset{s[k]}[y] + multiset(s[k+1..])[y];
    }
  }

  /** The highest target depends only on which indices were solved, how
      often, not on their order. */
  lemma {:induction false} MaxTargetPermutation(xs: seq<int>, ys: seq<int>)
    requires multiset(xs) == multiset(ys)
    ensures MaxTarget(xs) == MaxTarget(ys)
    decreases |xs|
  {
    if |xs| == 0 {
      assert |ys| == |multiset(ys)| == 0;
    } else {
      assert xs[0] in multiset(ys) by {
        assert xs == [xs[0]] + xs[1..];
      }
      var k :| 0 <= k < |ys| && ys[k] == xs[0];
      Without(xs, 0);
      Without(ys, k);
      assert xs[..0] + xs[1..] == xs[1..];
      MaxTargetPermutation(xs[1..], ys[..k] + ys[k+1..]);
      MaxTargetWithout(ys, k);
    }
  }

  /** The highest target is the larger of one element's and the rest's. */
  lemma {:induction false} MaxTargetWithout(ys: seq<int>, k: nat)
    requires k < |ys|
    ensures MaxTarget(ys) == Max(Target(ys[k]), MaxTarget(ys[..k] + ys[k+1..]))
  {
    var pre, tail := ys[..k], ys[k+1..];
    var mid := [ys[k]] + tail;
    assert ys == pre + mid;
    assert mid[1..] == tail;
    assert MaxTarget(mid) == Max(Target(ys[k]), MaxTarget(tail));
    MaxTargetAppend(pre, mid);
    MaxTargetAppend(pre, tail);
  }

  /** The order in which puzzles are solved does not matter: any two runs
      of the same solved indices leave the same stage, which never leaves
      0..4. */
  lemma StageOrderIndependent(stage: int, xs: seq<int>, ys: seq<int>)
    requires 0 <= stage <= MAX_STAGE
    requires multiset(xs) == multiset(ys)
    ensures StageAfterAll(stage, xs) == StageAfterAll(stage, ys)
    ensures stage <= StageAfterAll(stage, xs) <= MAX_STAGE
  {
    StageAfterAllIsMax(stage, xs);
    StageAfterAllIsMax(stage, ys);
    MaxTargetPermutation(xs, ys);
    MaxTargetBounded(xs);
  }

  lemma {:induction false} MaxTargetBounded(xs: seq<int>)
    ensures MaxTarget(xs) <= MAX_STAGE
    decreases |xs|
  {
    if |xs| > 0 {
      MaxTargetBounded(xs[1..]);
    }
  }

  // ---------------------------------------------------------------------
  // Lives and sticky penalties
  // ---------------------------------------------------------------------

  /** n failures in a row. */
  function FailN(p: Progress, n: nat): Progress
  {
    if n == 0 then p else PuzzleFailed(FailN(p, n - 1))
  }

  /** After n failures from L >= 0 lives there are max(L - n, 0) left, sprint
      is blocked (for n > 0), and the controls are inverted exactly when they
      already were or the lives passed through 1. */
  lemma {:induction false} LivesAfterFailures(p: Progress, n: nat)
    requires p.lives >= 0
    ensures FailN(p, n).lives == (if p.lives >= n then p.lives - n else 0)
    ensures FailN(p, n).stage == p.stage
    ensures n > 0 ==> FailN(p, n).sprintBlocked
    ensures n == 0 ==> FailN(p, n).sprintBlocked == p.sprintBlocked
    ensures FailN(p, n).invertControls <==> p.invertControls || (p.lives >= 2 && n >= p.lives - 1)
  {
    if n > 0 {
      LivesAfterFailures(p, n - 1);
    }
  }

  // ---------------------------------------------------------------------
  // Sprint double-tap
  // ---------------------------------------------------------------------

  /** Press W at t1, release, press W again at t2: the player sprints exactly
      when the presses are at most 250 ms apart, provided sprint is not
      blocked. */
  lemma DoubleTap(s: WorldState, k1: Key, k2: Key, t1: int, t2: int)
    requires |s.input.keys| == KEY_COUNT && IsW(k1) && IsW(k2) && !s.input.wIsDown
    ensures var a := KeyUp(KeyDown(s, k1, t1, false), k1, false);
            var b := KeyDown(a, k2, t2, false);
            && (b.input.sprint <==> !s.progress.sprintBlocked && t2 - t1 <= SPRINT_DOUBLE_TAP_MS)
            && b.input.lastWTapMs == t2 && b.input.wIsDown
  {
  }

  /** Holding W (key repeat) changes neither the tap time nor the sprint. */
  lemma HeldWIsNotATap(s: WorldState, k: Key, now: int)
    requires |s.input.keys| == KEY_COUNT && IsW(k) && s.input.wIsDown
    ensures KeyDown(s, k, now, false).input == s.input.(keys := s.input.keys[k := true])
  {
  }

  /** Every key is ignored while a puzzle is open, and Escape only toggles
      the pause. */
  lemma KeysWhilePuzzleOpen(s: WorldState, k: Key, now: int)
    requires |s.input.keys| == KEY_COUNT
    ensures KeyDown(s, k, now, true) == s && KeyUp(s, k, true) == s
    ensures KeyDown(KeyDown(s, KEY_ESC, now, false), KEY_ESC, now, false) == s
  {
  }

  // ---------------------------------------------------------------------
  // The level-transition fade
  // ---------------------------------------------------------------------

  /** n updates of `ms` each while a fade is running (stops once it ends). */
  function Fades(s: WorldState, ms: int, n: nat): WorldState
    decreases n
  {
    if n == 0 || s.fade.phase == NoTransition then s else Fades(FadeTick(s, ms).state, ms, n - 1)
  }

  lemma {:induction false} FadesAdd(s: WorldState, ms: int, a: nat, b: nat)
    ensures Fades(s, ms, a + b) == Fades(Fades(s, ms, a), ms, b)
    decreases a
  {
    if a > 0 && s.fade.phase != NoTransition {
      FadesAdd(FadeTick(s, ms).state, ms, a - 1, b);
    }
  }

  /** While the total is not reached, an update only advances the timer. */
  lemma {:induction false} FadeRuns(s: WorldState, ms: nat, n: nat)
    requires s.fade.phase != NoTransition && s.fade.ms + n * ms < TRANSITION_TOTAL_MS
    ensures Fades(s, ms, n) == s.(fade := s.fade.(ms := s.fade.ms + n * ms))
  {
    if n > 0 {
      FadeRuns(s, ms, n - 1);
      var t := Fades(s, ms, n - 1);
      assert t.fade.ms + ms == s.fade.ms + n * ms;
      FadesAdd(s, ms, n - 1, 1);
    }
  }

  /** The update that reaches the total ends the fade-out: the target level
      is loaded with all prisms active, the player respawns, input is cleared
      and the fade-in starts from 0.  Penalties are untouched. */
  lemma FadeOutEnds(s: WorldState, ms: nat, n: nat)
    requires s.fade.phase == FadingOut
    requires s.fade.ms + n * ms < TRANSITION_TOTAL_MS <= s.fade.ms + (n + 1) * ms
    ensures var t := Fades(s, ms, n + 1);
            && t.scene == LoadedScene(s.fade.target) && t.pose == SpawnPose()
            && t.input == Cleared(s.input) && t.fade == Fade(FadingIn, 0, s.fade.target)
            && t.progress == s.progress
  {
    FadeRuns(s, ms, n);
    FadesAdd(s, ms, n, 1);
  }

  /** The update that reaches the total ends the fade-in. */
  lemma FadeInEnds(s: WorldState, ms: nat, n: nat)
    requires s.fade.phase == FadingIn
    requires s.fade.ms + n * ms < TRANSITION_TOTAL_MS <= s.fade.ms + (n + 1) * ms
    ensures Fades(s, ms, n + 1) == s.(fade := s.fade.(phase := NoTransition, ms := 0))
  {
    FadeRuns(s, ms, n);
    FadesAdd(s, ms, n, 1);
  }

  /** The portal from Easy or Medium, with the game's 16 ms updates: 125
      updates of fade-out, the next level loaded, 125 of fade-in, then play
      resumes on the next level with the same stage and lives. */
  lemma PortalToNextLevel(s: WorldState, near: Cell -> bool, moved: Pose)
    requires Inv(s) && s.fade.phase == NoTransition && !s.paused && s.scene.level != Hard
    ensures var entered := Tick(s, 16, false, near, true, moved).state;
            && entered.fade == Fade(FadingOut, 0, NextLevel(s.scene.level))
            && var t := Fades(entered, 16, 250);
               && t.fade.phase == NoTransition
               && t.scene == LoadedScene(NextLevel(s.scene.level))
               && t.progress == s.progress && t.pose == SpawnPose()
  {
    var entered := Tick(s, 16, false, near, true, moved).state;
    FadeOutEnds(entered, 16, 124);
    var mid := Fades(entered, 16, 125);
    FadeInEnds(mid, 16, 124);
    FadesAdd(entered, 16, 125, 125);
  }

  /** In Hard the portal does nothing; elsewhere it leads one level on. */
  lemma PortalOrder(s: WorldState, near: Cell -> bool, moved: Pose)
    requires Inv(s) && s.fade.phase == NoTransition && !s.paused
    ensures var t := Tick(s, 16, false, near, true, moved).state;
            && (s.scene.level == Hard ==> t.fade.phase == NoTransition)
            && (s.scene.level == Easy ==> t.fade.target == Medium && t.fade.phase == FadingOut)
            && (s.scene.level == Medium ==> t.fade.target == Hard && t.fade.phase == FadingOut)
  {
  }

  /** During a fade nothing but the fade moves: no prism fires, the pose and
      the prism trigger stay as they are until the level swap. */
  lemma FadeFreezesPlay(s: WorldState, ms: int, puzzleOpen: bool, near: Cell -> bool, atPortal: bool, moved: Pose)
    requires |s.input.keys| == KEY_COUNT && s.fade.phase != NoTransition
    ensures var r := Tick(s, ms, puzzleOpen, near, atPortal, moved);
            && r.openPrism == -1 && r.state.wasTouching == s.wasTouching
            && (!r.reloaded ==> r.state.pose == s.pose && r.state.scene == s.scene)
  {
  }

  // ---------------------------------------------------------------------
  // Prisms and the puzzle trigger
  // ---------------------------------------------------------------------

  /** A disabled prism never triggers a puzzle again, and disabling twice is
      disabling once. */
  lemma DisabledPrismNeverTriggers(sc: Scene, i: int, near: Cell -> bool)
    requires 0 <= i < |sc.prisms|
    ensures var t := DisablePrism(sc, i);
            && FirstTouched(t.prisms, t.prismActive, near) != i
            && DisablePrism(t, i) == t
  {
  }

  /** A puzzle opens only on entering a prism's radius: an update that finds
      the player still touching some prism after one that did opens
      nothing. */
  lemma TouchFiresOnce(s: WorldState, near: Cell -> bool, m1: Pose, m2: Pose)
    requires |s.input.keys| == KEY_COUNT && s.fade.phase == NoTransition && !s.paused
    requires FirstTouched(s.scene.prisms, s.scene.prismActive, near) >= 0
    ensures var r1 := Tick(s, 16, false, near, false, m1);
            && r1.openPrism == (if s.wasTouching then -1 else FirstTouched(s.scene.prisms, s.scene.prismActive, near))
            && Tick(r1.state, 16, false, near, false, m2).openPrism == -1
  {
  }

  /** Leaving every radius re-arms the trigger. */
  lemma LeavingRearms(s: WorldState, far: Cell -> bool, near: Cell -> bool, m1: Pose, m2: Pose)
    requires |s.input.keys| == KEY_COUNT && s.fade.phase == NoTransition && !s.paused
    requires FirstTouched(s.scene.prisms, s.scene.prismActive, far) == -1
    requires FirstTouched(s.scene.prisms, s.scene.prismActive, near) >= 0
    ensures var r1 := Tick(s, 16, false, far, false, m1);
            Tick(r1.state, 16, false, near, false, m2).openPrism == FirstTouched(s.scene.prisms, s.scene.prismActive, near)
  {
  }

  // ---------------------------------------------------------------------
  // Loaded geometry
  // ---------------------------------------------------------------------

  /** Once a level is loaded its prisms stand in open corridor and both
      ends of column 3 are open: no wall rectangle of the compaction covers
      any of those cells, so no wall box stands on them. */
  lemma PrismsStandClear(w: World)
    requires w.Valid() && w.MazeIs(w.level) && w.GeometryOk() && w.prisms == Prisms(w.level)
    ensures forall i :: 0 <= i < |w.prisms| ==> !Covered(w.wallRects, w.prisms[i].z, w.prisms[i].x)
    ensures !Covered(w.wallRects, 0, 3) && !Covered(w.wallRects, ROWS - 1, 3)
  {
    PrismsOnFloor(w.level);
    CorridorEndsOpen(w.level);
    forall i | 0 <= i < |w.prisms|
      ensures !Covered(w.wallRects, w.prisms[i].z, w.prisms[i].x)
    {
      CompactionIsExactCover(w.maze, w.wallRects, w.prisms[i].z, w.prisms[i].x);
    }
    CompactionIsExactCover(w.maze, w.wallRects, 0, 3);
    CompactionIsExactCover(w.maze, w.wallRects, ROWS - 1, 3);
  }
}
