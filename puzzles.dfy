/** The slot/block puzzle board of Puzzles.cpp.

    A puzzle is a list of blocks and a list of slots; the player drags
    unused blocks into slots and asks for a check.  Block, Slot and Puzzle
    are values (the source keeps them in std::vector, copied by value);
    the board globals (the puzzle list, the active puzzle, the open flag and
    the result flags) are the fields of class Board.  Block labels, puzzle
    titles and descriptions are text only and are not modelled. */
module Puzzles {

  datatype Option<T> = None | Some(value: T)

  /** currentBlockId of an empty slot. */
  const EMPTY: int := -1

  /** Puzzle indices whose failure also advances the world stage. */
  const DEGRADING: set<int> := {2, 4, 6, 7}

  datatype Block = Block(id: int, used: bool)
  datatype Slot = Slot(id: int, expected: int, current: int)
  datatype Puzzle = Puzzle(blocks: seq<Block>, slots: seq<Slot>)

  /** Some slot of p holds block b. */
  predicate Holds(p: Puzzle, b: int)
  {
    exists j :: 0 <= j < |p.slots| && p.slots[j].current == b
  }

  /** The shape every builder produces: block ids are their positions, and
      every expected and current block id is a block index (or EMPTY). */
  predicate WellFormed(p: Puzzle)
  {
    && (forall i :: 0 <= i < |p.blocks| ==> p.blocks[i].id == i)
    && (forall j :: 0 <= j < |p.slots| ==> 0 <= p.slots[j].expected < |p.blocks|)
    && (forall j :: 0 <= j < |p.slots| ==> p.slots[j].current == EMPTY || 0 <= p.slots[j].current < |p.blocks|)
  }

  /** The board invariant: a block is marked used exactly when some slot
      holds it, and no block sits in two slots. */
  predicate Consistent(p: Puzzle)
  {
    && WellFormed(p)
    && (forall i :: 0 <= i < |p.blocks| ==> (p.blocks[i].used <==> Holds(p, i)))
    && (forall j1, j2 :: 0 <= j1 < j2 < |p.slots| && p.slots[j1].current != EMPTY ==>
          p.slots[j1].current != p.slots[j2].current)
  }

  // ---------------------------------------------------------------------
  // ResetPuzzleState
  // ---------------------------------------------------------------------

  /** p with every slot emptied and every block unused. */
  function Emptied(p: Puzzle): (q: Puzzle)
    ensures |q.slots| == |p.slots| && |q.blocks| == |p.blocks|
    ensures forall j :: 0 <= j < |q.slots| ==> q.slots[j] == p.slots[j].(current := EMPTY)
    ensures forall i :: 0 <= i < |q.blocks| ==> q.blocks[i] == p.blocks[i].(used := false)
  {
    Puzzle(seq(|p.blocks|, i requires 0 <= i < |p.blocks| => p.blocks[i].(used := false)),
           seq(|p.slots|, j requires 0 <= j < |p.slots| => p.slots[j].(current := EMPTY)))
  }

  /** ResetPuzzleState: two passes, slots then blocks. */
  method ResetPuzzleState(p: Puzzle) returns (q: Puzzle)
    ensures q == Emptied(p)
  {
    var slots := p.slots;
    var j := 0;
    while j < |slots|
      invariant 0 <= j <= |slots| == |p.slots|
      invariant forall k :: 0 <= k < j ==> slots[k] == p.slots[k].(current := EMPTY)
      invariant forall k :: j <= k < |slots| ==> slots[k] == p.slots[k]
    {
      slots := slots[j := slots[j].(current := EMPTY)];
      j := j + 1;
    }
    var blocks := p.blocks;
    var i := 0;
    while i < |blocks|
      invariant 0 <= i <= |blocks| == |p.blocks|
      invariant forall k :: 0 <= k < i ==> blocks[k] == p.blocks[k].(used := false)
      invariant forall k :: i <= k < |blocks| ==> blocks[k] == p.blocks[k]
    {
      blocks := blocks[i := blocks[i].(used := false)];
      i := i + 1;
    }
    q := Puzzle(blocks, slots);
  }

  /** A reset puzzle satisfies the board invariant. */
  lemma EmptiedIsConsistent(p: Puzzle)
    requires WellFormed(p)
    ensures Consistent(Emptied(p))
  {
    var q := Emptied(p);
    assert forall i :: 0 <= i < |q.blocks| ==> !Holds(q, i);
  }

  // ---------------------------------------------------------------------
  // AllSlotsCorrect and FindBlockById
  // ---------------------------------------------------------------------

  /** Every slot of `slots` holds its expected block. */
  function SlotsCorrect(slots: seq<Slot>): (ok: bool)
    ensures ok <==> forall j :: 0 <= j < |slots| ==> slots[j].current == slots[j].expected
  {
    if |slots| == 0 then true
    else slots[0].current == slots[0].expected && SlotsCorrect(slots[1..])
  }

  /** AllSlotsCorrect: a scan that fails at the first wrong slot. */
  function AllSlotsCorrect(p: Puzzle): (ok: bool)
    ensures ok <==> forall j :: 0 <= j < |p.slots| ==> p.slots[j].current == p.slots[j].expected
  {
    SlotsCorrect(p.slots)
  }

  /** A well-formed puzzle with an empty slot never checks as correct, so a
      reset puzzle with a slot is never already solved. */
  lemma EmptySlotFailsCheck(p: Puzzle, j: int)
    requires WellFormed(p) && 0 <= j < |p.slots| && p.slots[j].current == EMPTY
    ensures !AllSlotsCorrect(p)
  {
    assert p.slots[j].current != p.slots[j].expected;
  }

  /** FindBlockById on blocks[from..]: the first block with that id. */
  function FindBlockFrom(blocks: seq<Block>, id: int, from: nat): (r: Option<nat>)
    requires from <= |blocks|
    ensures r.Some? ==> from <= r.value < |blocks| && blocks[r.value].id == id
    ensures forall i :: from <= i < |blocks| && (r.None? || i < r.value) ==> blocks[i].id != id
    decreases |blocks| - from
  {
    if from == |blocks| then None
    else if blocks[from].id == id then Some(from)
    else FindBlockFrom(blocks, id, from + 1)
  }

  /** FindBlockById: the position of the first block whose id is `id`, or
      None (the null pointer). */
  function FindBlockById(blocks: seq<Block>, id: int): (r: Option<nat>)
    ensures r.Some? ==> r.value < |blocks| && blocks[r.value].id == id
    ensures r.Some? ==> forall i :: 0 <= i < r.value ==> blocks[i].id != id
    ensures r.None? <==> forall i :: 0 <= i < |blocks| ==> blocks[i].id != id
  {
    FindBlockFrom(blocks, id, 0)
  }

  /** With the builders' ids, lookup by id is lookup by position. */
  lemma FindByIdIsIndex(p: Puzzle, id: int)
    requires WellFormed(p)
    ensures 0 <= id < |p.blocks| ==> FindBlockById(p.blocks, id) == Some(id)
    ensures !(0 <= id < |p.blocks|) ==> FindBlockById(p.blocks, id) == None
  {
    var r := FindBlockById(p.blocks, id);
    if 0 <= id < |p.blocks| {
      assert p.blocks[id].id == id;
    }
  }

  // ---------------------------------------------------------------------
  // Dropping a block into a slot
  // ---------------------------------------------------------------------

  /** blocks with the block found at `at`, if any, marked `used`. */
  function Mark(blocks: seq<Block>, at: Option<nat>, used: bool): (r: seq<Block>)
    ensures |r| == |blocks|
    ensures forall i :: 0 <= i < |r| ==> r[i].id == blocks[i].id
    ensures forall i :: 0 <= i < |r| ==> r[i].used == (if at == Some(i) then used else blocks[i].used)
  {
    if at.Some? && at.value < |blocks| then blocks[at.value := blocks[at.value].(used := used)] else blocks
  }

  /** The drop handler of RenderSlotButton: release the slot's previous
      block, put b in the slot, mark b used. */
  function Dropped(p: Puzzle, s: nat, b: int): (q: Puzzle)
    requires s < |p.slots|
    ensures q.slots == p.slots[s := p.slots[s].(current := b)]
    ensures |q.blocks| == |p.blocks| && forall i :: 0 <= i < |q.blocks| ==> q.blocks[i].id == p.blocks[i].id
  {
    var previous := p.slots[s].current;
    var released := if previous != EMPTY then Mark(p.blocks, FindBlockById(p.blocks, previous), false) else p.blocks;
    Puzzle(Mark(released, FindBlockById(released, b), true), p.slots[s := p.slots[s].(current := b)])
  }

  /** In a well-formed puzzle a drop flips exactly two used flags: the new
      block's on and the previous block's off; nothing else changes. */
  lemma DroppedFlags(p: Puzzle, s: nat, b: int)
    requires WellFormed(p) && s < |p.slots| && 0 <= b < |p.blocks|
    ensures var q := Dropped(p, s, b);
            forall i :: 0 <= i < |q.blocks| ==>
              q.blocks[i].used == (if i == b then true
                                   else if i == p.slots[s].current then false
                                   else p.blocks[i].used)
  {
    var previous := p.slots[s].current;
    var released := if previous != EMPTY then Mark(p.blocks, FindBlockById(p.blocks, previous), false) else p.blocks;
    FindByIdIsIndex(p, previous);
    FindByIdIsIndex(p, b);
    assert FindBlockById(released, b) == Some(b) by {
      FindByIdIsIndex(Puzzle(released, p.slots), b);
    }
  }

  /** Only unused blocks are offered for dragging; dropping one keeps the
      board invariant. */
  lemma DropKeepsConsistent(p: Puzzle, s: nat, b: int)
    requires Consistent(p) && s < |p.slots| && 0 <= b < |p.blocks| && !p.blocks[b].used
    ensures Consistent(Dropped(p, s, b))
  {
    var q := Dropped(p, s, b);
    DroppedFlags(p, s, b);
    assert !Holds(p, b);
    forall i | 0 <= i < |q.blocks|
      ensures q.blocks[i].used <==> Holds(q, i)
    {
      if i == b {
        assert q.slots[s].current == b;
      } else if i != p.slots[s].current {
        if Holds(p, i) {
          var j :| 0 <= j < |p.slots| && p.slots[j].current == i;
          assert q.slots[j].current == i;
        }
        if Holds(q, i) {
          var j :| 0 <= j < |q.slots| && q.slots[j].current == i;
          assert p.slots[j].current == i;
        }
      }
    }
    forall j1, j2 | 0 <= j1 < j2 < |q.slots| && q.slots[j1].current != EMPTY
      ensures q.slots[j1].current != q.slots[j2].current
    {
      if j1 == s {
        assert q.slots[j2] == p.slots[j2];
        assert !Holds(p, b);
      } else if j2 == s {
        assert q.slots[j1] == p.slots[j1];
        assert !Holds(p, b);
      }
    }
  }

  /** The drop handler, step by step. */
  method DropBlock(p: Puzzle, s: nat, b: int) returns (q: Puzzle)
    requires s < |p.slots|
    ensures q == Dropped(p, s, b)
  {
    var slot := p.slots[s];
    var blocks := p.blocks;
    if slot.current != EMPTY {
      var previous := FindBlockById(blocks, slot.current);
      if previous.Some? {
        blocks := blocks[previous.value := blocks[previous.value].(used := false)];
      }
    }
    var slots := p.slots[s := slot.(current := b)];
    var placed := FindBlockById(blocks, b);
    if placed.Some? {
      blocks := blocks[placed.value := blocks[placed.value].(used := true)];
    }
    q := Puzzle(blocks, slots);
  }

  // ---------------------------------------------------------------------
  // Builders
  // ---------------------------------------------------------------------

  /** What a builder fixes besides text: how many correct blocks (one per
      slot, added first) and how many blocks in all. */
  datatype Shape = Shape(correct: nat, total: nat)

  /** The puzzle a builder of shape sh produces: block i has id i; slot j
      has id j, expects block j and starts empty. */
  function Fresh(sh: Shape): (p: Puzzle)
    ensures |p.blocks| == sh.total && |p.slots| == sh.correct
    ensures forall i :: 0 <= i < |p.blocks| ==> p.blocks[i] == Block(i, false)
    ensures forall j :: 0 <= j < |p.slots| ==> p.slots[j] == Slot(j, j, EMPTY)
  {
    Puzzle(seq(sh.total, i => Block(i, false)), seq(sh.correct, j => Slot(j, j, EMPTY)))
  }

  /** A freshly built puzzle is consistent and, having a slot, unsolved. */
  lemma FreshIsConsistent(sh: Shape)
    requires sh.correct <= sh.total
    ensures Consistent(Fresh(sh))
    ensures sh.correct > 0 ==> !AllSlotsCorrect(Fresh(sh))
  {
    var p := Fresh(sh);
    assert WellFormed(p);
    assert Emptied(p) == p;
    EmptiedIsConsistent(p);
    if sh.correct > 0 {
      EmptySlotFailsCheck(p, 0);
    }
  }

  /** A built puzzle checks as correct exactly when block j sits in slot j
      for every slot; then, if consistent, the used blocks are exactly the
      correct ones and every distractor is unused. */
  lemma SolvedMeansCorrectBlocksPlaced(sh: Shape, p: Puzzle)
    requires sh.correct <= sh.total
    requires |p.blocks| == sh.total
    requires |p.slots| == sh.correct && forall j :: 0 <= j < |p.slots| ==> p.slots[j].expected == j
    requires Consistent(p)
    ensures AllSlotsCorrect(p) <==> forall j :: 0 <= j < |p.slots| ==> p.slots[j].current == j
    ensures AllSlotsCorrect(p) ==> forall i :: 0 <= i < |p.blocks| ==> (p.blocks[i].used <==> i < sh.correct)
  {
    if AllSlotsCorrect(p) {
      forall i | 0 <= i < |p.blocks|
        ensures p.blocks[i].used <==> i < sh.correct
      {
        if i < sh.correct {
          assert p.slots[i].current == i;
        }
        if Holds(p, i) {
          var j :| 0 <= j < |p.slots| && p.slots[j].current == i;
          assert p.slots[j].current == j;
        }
      }
    }
  }

  /** A builder: `add` each block with id = current block count, correct
      blocks first, then one slot per correct block, then a reset. */
  method BuildPuzzle(sh: Shape) returns (p: Puzzle)
    requires sh.correct <= sh.total
    ensures p == Fresh(sh)
  {
    var blocks: seq<Block> := [];
    while |blocks| < sh.total
      invariant |blocks| <= sh.total
      invariant forall i :: 0 <= i < |blocks| ==> blocks[i] == Block(i, false)
    {
      blocks := blocks + [Block(|blocks|, false)];
    }
    var slots: seq<Slot> := [];
    while |slots| < sh.correct
      invariant |slots| <= sh.correct
      invariant forall j :: 0 <= j < |slots| ==> slots[j] == Slot(j, j, EMPTY)
    {
      slots := slots + [Slot(|slots|, |slots|, EMPTY)];
    }
    p := ResetPuzzleState(Puzzle(blocks, slots));
  }

  /** The five easy builders, InitEasyPuzzle0 to InitEasyPuzzle4. */
  const EASY_SHAPES: seq<Shape> := [Shape(1, 4), Shape(1, 4), Shape(3, 3), Shape(1, 4), Shape(1, 4)]
  /** The seven medium builders, InitMediumPuzzle0 to InitMediumPuzzle6. */
  const MEDIUM_SHAPES: seq<Shape> :=
    [Shape(1, 4), Shape(1, 4), Shape(2, 4), Shape(1, 4), Shape(3, 5), Shape(1, 4), Shape(1, 4)]
  /** The eight hard builders, InitPuzzle0 to InitPuzzle7. */
  const HARD_SHAPES: seq<Shape> :=
    [Shape(4, 9), Shape(6, 10), Shape(4, 8), Shape(7, 11), Shape(8, 12), Shape(5, 8), Shape(7, 10), Shape(5, 9)]

  /** Puzzles_Init's choice of builders: hard ones with green prisms,
      otherwise medium ones for exactly 7 prisms and easy ones for any other
      count. */
  function Catalogue(red: bool, numPrisms: int): (shapes: seq<Shape>)
    ensures |shapes| == (if !red then 8 else if numPrisms == 7 then 7 else 5)
    ensures forall k :: 0 <= k < |shapes| ==> 1 <= shapes[k].correct <= shapes[k].total
  {
    if !red then HARD_SHAPES
    else if numPrisms <= 5 then EASY_SHAPES
    else if numPrisms == 7 then MEDIUM_SHAPES
    else EASY_SHAPES
  }

  /** Run the builder of every shape, in order. */
  method BuildAll(shapes: seq<Shape>) returns (built: seq<Puzzle>)
    requires forall k :: 0 <= k < |shapes| ==> shapes[k].correct <= shapes[k].total
    ensures |built| == |shapes|
    ensures forall k :: 0 <= k < |built| ==> built[k] == Fresh(shapes[k]) && Consistent(built[k])
  {
    built := [];
    while |built| < |shapes|
      invariant |built| <= |shapes|
      invariant forall k :: 0 <= k < |built| ==> built[k] == Fresh(shapes[k]) && Consistent(built[k])
    {
      var p := BuildPuzzle(shapes[|built|]);
      FreshIsConsistent(shapes[|built|]);
      built := built + [p];
    }
  }

  // ---------------------------------------------------------------------
  // Outcomes
  // ---------------------------------------------------------------------

  /** The buttons of the puzzle window. */
  datatype Action = Verify | Restart | GiveUp

  /** What a button asks of the world: disable the prism of the active
      puzzle, apply the failure penalty, report the puzzle as solved. */
  datatype Effect = Effect(disablePrism: bool, penalty: bool, solvedEvent: bool)

  const NO_EFFECT: Effect := Effect(false, false, false)

  /** The outcome branches of Puzzles_DrawImGui, for puzzle index i, in red
      (easy/medium) or hard mode, given whether the slots are correct. */
  function OutcomeEffect(red: bool, action: Action, correct: bool, i: int): (e: Effect)
    ensures red ==> !e.penalty && !e.solvedEvent
    ensures red ==> (e.disablePrism <==> action == Verify && correct)
    ensures !red ==> (e.disablePrism <==> action != Restart)
    ensures !red ==> (e.penalty <==> e.disablePrism && !(action == Verify && correct))
    ensures !red ==> (e.solvedEvent <==> (action == Verify && correct) || (action != Restart && i in DEGRADING))
  {
    match action
    case Verify =>
      if red then Effect(correct, false, false)
      else if correct then Effect(true, false, true)
      else Effect(true, true, i in DEGRADING)
    case Restart => NO_EFFECT
    case GiveUp =>
      if red then NO_EFFECT else Effect(true, true, i in DEGRADING)
  }

  /** Whether a button closes the window at once: a correct check in red
      mode, and giving up in either mode. */
  predicate ClosesNow(red: bool, action: Action, correct: bool)
  {
    action == GiveUp || (red && action == Verify && correct)
  }

  // ---------------------------------------------------------------------
  // The globals of Puzzles.cpp
  // ---------------------------------------------------------------------

  class Board {
    var puzzles: seq<Puzzle>
    var active: int
    var isOpen: bool
    var waitingAutoClose: bool
    /** A failure popup is pending or showing; while it is, the buttons of
        the window underneath cannot be pressed. */
    var failPopup: bool
    var lastCheckWasOk: bool
    var hasCheckResult: bool

    /** An open board has a valid active puzzle, a closed one none, and
        every puzzle keeps the used-block invariant. */
    ghost predicate Valid()
      reads this
    {
      && (isOpen ==> 0 <= active < |puzzles|)
      && (!isOpen ==> active == -1)
      && forall k :: 0 <= k < |puzzles| ==> Consistent(puzzles[k])
    }

    constructor ()
      ensures Valid() && puzzles == [] && active == -1 && !isOpen
      ensures !waitingAutoClose && !failPopup && !lastCheckWasOk && !hasCheckResult
    {
      puzzles := [];
      active := -1;
      isOpen := false;
      waitingAutoClose := false;
      failPopup := false;
      lastCheckWasOk := false;
      hasCheckResult := false;
    }

    /** Puzzles_Init: build the catalogue's puzzles, none active, closed.
        The auto-close and popup flags are left as they are. */
    method Init(red: bool, numPrisms: int)
      modifies this
      ensures Valid()
      ensures |puzzles| == |Catalogue(red, numPrisms)|
      ensures forall k :: 0 <= k < |puzzles| ==> puzzles[k] == Fresh(Catalogue(red, numPrisms)[k])
      ensures active == -1 && !isOpen
      ensures waitingAutoClose == old(waitingAutoClose) && failPopup == old(failPopup)
      ensures lastCheckWasOk == old(lastCheckWasOk) && hasCheckResult == old(hasCheckResult)
    {
      puzzles := BuildAll(Catalogue(red, numPrisms));
      active := -1;
      isOpen := false;
    }

    /** Puzzles_OpenForPrism: prism i opens puzzle i mod count, reset, with
        all result flags cleared; a negative index or an empty list does
        nothing. */
    method OpenForPrism(index: int)
      requires Valid()
      modifies this
      ensures Valid()
      ensures index < 0 || |puzzles| == 0 ==>
                && puzzles == old(puzzles) && active == old(active) && isOpen == old(isOpen)
                && waitingAutoClose == old(waitingAutoClose) && failPopup == old(failPopup)
                && lastCheckWasOk == old(lastCheckWasOk) && hasCheckResult == old(hasCheckResult)
      ensures index >= 0 && |old(puzzles)| > 0 ==>
                var idx := index % |old(puzzles)|;
                && isOpen && active == idx
                && puzzles == old(puzzles)[idx := Emptied(old(puzzles)[idx])]
                && !waitingAutoClose && !failPopup && !lastCheckWasOk && !hasCheckResult
    {
      if index < 0 || |puzzles| == 0 {
        return;
      }
      var idx := index % |puzzles|;
      active := idx;
      isOpen := true;
      var reset := ResetPuzzleState(puzzles[active]);
      EmptiedIsConsistent(puzzles[active]);
      puzzles := puzzles[active := reset];
      waitingAutoClose := false;
      failPopup := false;
      lastCheckWasOk := false;
      hasCheckResult := false;
    }

    /** Dropping palette block b on slot s of the open puzzle, in red or
        hard mode.  The palette offers only the unused blocks, each by its
        id; in hard mode the failure popup is modal and takes every drag. */
    method Drop(red: bool, s: nat, b: int)
      requires Valid() && isOpen && (red || !failPopup)
      requires s < |puzzles[active].slots| && 0 <= b < |puzzles[active].blocks| && !puzzles[active].blocks[b].used
      modifies this
      ensures Valid()
      ensures puzzles == old(puzzles)[old(active) := Dropped(old(puzzles)[old(active)], s, b)]
      ensures active == old(active) && isOpen && waitingAutoClose == old(waitingAutoClose)
      ensures failPopup == old(failPopup) && lastCheckWasOk == old(lastCheckWasOk) && hasCheckResult == old(hasCheckResult)
    {
      var q := DropBlock(puzzles[active], s, b);
      DropKeepsConsistent(puzzles[active], s, b);
      puzzles := puzzles[active := q];
    }

    /** The board after a button of the window, against the board before
        it.  A closed window, or in hard mode a window showing the success
        message or the failure popup, has no buttons: nothing changes.
        Otherwise the effect is the branch's outcome; giving up and a red
        correct check close the window; a restart resets the puzzle; a red
        wrong check records a failed result, a red restart clears the
        result; a hard check starts the auto-close or the failure popup;
        every other flag keeps its value. */
    twostate predicate Pressed(red: bool, action: Action, e: Effect)
      requires old(Valid())
      reads this
    {
      && (!old(isOpen) || (!red && (old(waitingAutoClose) || old(failPopup))) ==>
          && e == NO_EFFECT
          && puzzles == old(puzzles) && active == old(active) && isOpen == old(isOpen)
          && waitingAutoClose == old(waitingAutoClose) && failPopup == old(failPopup)
          && lastCheckWasOk == old(lastCheckWasOk) && hasCheckResult == old(hasCheckResult))
      && (old(isOpen) && (red || (!old(waitingAutoClose) && !old(failPopup))) ==>
          var correct := AllSlotsCorrect(old(puzzles)[old(active)]);
          && e == OutcomeEffect(red, action, correct, old(active))
          && (ClosesNow(red, action, correct) ==> !isOpen && active == -1)
          && (!ClosesNow(red, action, correct) ==> isOpen && active == old(active))
          && (action == Restart ==> puzzles == old(puzzles)[old(active) := Emptied(old(puzzles)[old(active)])])
          && (action != Restart ==> puzzles == old(puzzles))
          && (red && action == Verify && !correct ==> hasCheckResult && !lastCheckWasOk)
          && (red && action == Restart ==> !hasCheckResult)
          && (!red && action == Verify ==> (waitingAutoClose <==> correct) && (failPopup <==> !correct))
          && (red || action != Verify ==> waitingAutoClose == old(waitingAutoClose) && failPopup == old(failPopup))
          && (!(red && action == Verify && !correct) ==> lastCheckWasOk == old(lastCheckWasOk))
          && (!(red && action == Verify && !correct) && !(red && action == Restart) ==>
                hasCheckResult == old(hasCheckResult)))
    }

    /** A button of the open puzzle's window, in red or hard mode.  Returns
        what the world must do for the active puzzle (the caller applies it
        in the order disable, penalty, solved).  In hard mode the buttons
        are not there while the success message or the failure popup is
        up. */
    method Press(red: bool, action: Action) returns (e: Effect)
      requires Valid()
      modifies this
      ensures Valid()
      ensures Pressed(red, action, e)
    {
      e := NO_EFFECT;
      if !isOpen {
        return;
      }
      if red {
        if action == Verify {
          var ok := AllSlotsCorrect(puzzles[active]);
          if ok {
            e := Effect(true, false, false);
            isOpen := false;
            active := -1;
            return;
          } else {
            lastCheckWasOk := false;
            hasCheckResult := true;
          }
        } else if action == Restart {
          var reset := ResetPuzzleState(puzzles[active]);
          EmptiedIsConsistent(puzzles[active]);
          puzzles := puzzles[active := reset];
          hasCheckResult := false;
        } else {
          isOpen := false;
          active := -1;
        }
        return;
      }
      if !waitingAutoClose && !failPopup {
        if action == Verify {
          var ok := AllSlotsCorrect(puzzles[active]);
          if ok {
            e := Effect(true, false, true);
            waitingAutoClose := true;
          } else {
            e := Effect(true, true, active in DEGRADING);
            failPopup := true;
          }
        } else if action == Restart {
          var reset := ResetPuzzleState(puzzles[active]);
          EmptiedIsConsistent(puzzles[active]);
          puzzles := puzzles[active := reset];
        } else {
          e := Effect(true, true, active in DEGRADING);
          isOpen := false;
          active := -1;
        }
      }
    }

    /** The success message has been shown for its delay: close. */
    method AutoCloseElapsed(red: bool)
      requires Valid()
      modifies this
      ensures Valid() && puzzles == old(puzzles) && failPopup == old(failPopup)
      ensures lastCheckWasOk == old(lastCheckWasOk) && hasCheckResult == old(hasCheckResult)
      ensures old(isOpen) && !red && old(waitingAutoClose) && !old(failPopup) ==>
                !isOpen && active == -1 && !waitingAutoClose
      ensures !(old(isOpen) && !red && old(waitingAutoClose) && !old(failPopup)) ==>
                isOpen == old(isOpen) && active == old(active) && waitingAutoClose == old(waitingAutoClose)
    {
      if isOpen && !red && waitingAutoClose && !failPopup {
        isOpen := false;
        active := -1;
        waitingAutoClose := false;
      }
    }

    /** Accept on the failure popup: close the puzzle. */
    method AcceptFailPopup(red: bool)
      requires Valid()
      modifies this
      ensures Valid() && puzzles == old(puzzles) && waitingAutoClose == old(waitingAutoClose)
      ensures lastCheckWasOk == old(lastCheckWasOk) && hasCheckResult == old(hasCheckResult)
      ensures old(isOpen) && !red && old(failPopup) ==> !isOpen && active == -1 && !failPopup
      ensures !(old(isOpen) && !red && old(failPopup)) ==>
                isOpen == old(isOpen) && active == old(active) && failPopup == old(failPopup)
    {
      if isOpen && !red && failPopup {
        isOpen := false;
        active := -1;
        failPopup := false;
      }
    }
  }
}
