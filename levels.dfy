/** The three shipped levels: their occupancy grids and the cells of their
    puzzle prisms (mazeEasy, mazeMedium, mazeHard and greenPrismsEasy,
    greenPrismsMedium, greenPrismsHard in World.cpp). */
module Levels {

  datatype Level = Easy | Medium | Hard

  /** A grid cell: column x, row z. */
  datatype Cell = Cell(x: int, z: int)

  const ROWS: int := 35
  const COLS: int := 7

  /** Row z of the easy level (row 34 for every z outside 0..33): 1 is a wall, 0 is floor. */
  function EasyRow(z: int): (row: seq<int>)
    ensures |row| == COLS
  {
    match z
    case 0 => [1, 1, 1, 0, 1, 1, 1]
    case 1 => [1, 1, 1, 0, 1, 1, 1]
    case 2 => [1, 0, 0, 0, 0, 0, 1]
    case 3 => [1, 0, 1, 0, 1, 0, 1]
    case 4 => [1, 0, 0, 0, 0, 0, 1]
    case 5 => [1, 1, 1, 0, 1, 1, 1]
    case 6 => [1, 0, 0, 0, 0, 0, 1]
    case 7 => [1, 0, 1, 1, 1, 0, 1]
    case 8 => [1, 0, 0, 0, 1, 0, 1]
    case 9 => [1, 1, 1, 0, 1, 0, 1]
    case 10 => [1, 0, 0, 0, 0, 0, 1]
    case 11 => [1, 0, 1, 1, 1, 1, 1]
    case 12 => [1, 0, 1, 0, 0, 0, 1]
    case 13 => [1, 0, 1, 0, 1, 0, 1]
    case 14 => [1, 0, 0, 0, 1, 0, 1]
    case 15 => [1, 1, 1, 1, 1, 0, 1]
    case 16 => [1, 0, 0, 0, 0, 0, 1]
    case 17 => [1, 0, 1, 1, 1, 1, 1]
    case 18 => [1, 0, 0, 0, 1, 1, 1]
    case 19 => [1, 1, 1, 0, 1, 1, 1]
    case 20 => [1, 1, 1, 0, 0, 0, 1]
    case 21 => [1, 1, 1, 1, 1, 0, 1]
    case 22 => [1, 1, 1, 1, 1, 0, 1]
    case 23 => [1, 1, 1, 1, 1, 0, 1]
    case 24 => [1, 1, 1, 1, 1, 0, 1]
    case 25 => [1, 0, 0, 0, 0, 0, 1]
    case 26 => [1, 0, 1, 1, 1, 1, 1]
    case 27 => [1, 0, 0, 0, 1, 1, 1]
    case 28 => [1, 1, 1, 0, 1, 1, 1]
    case 29 => [1, 0, 0, 0, 1, 1, 1]
    case 30 => [1, 0, 1, 1, 1, 1, 1]
    case 31 => [1, 0, 1, 1, 1, 1, 1]
    case 32 => [1, 0, 0, 0, 1, 1, 1]
    case 33 => [1, 1, 1, 0, 1, 1, 1]
    case _ => [1, 1, 1, 0, 1, 1, 1]
  }

  /** Row z of the medium level (row 34 for every z outside 0..33). */
  function MediumRow(z: int): (row: seq<int>)
    ensures |row| == COLS
  {
    match z
    case 0 => [1, 1, 1, 0, 1, 1, 1]
    case 1 => [1, 0, 0, 0, 0, 0, 1]
    case 2 => [1, 0, 1, 1, 1, 0, 1]
    case 3 => [1, 0, 1, 1, 0, 0, 1]
    case 4 => [1, 0, 0, 0, 1, 1, 1]
    case 5 => [1, 1, 1, 0, 1, 1, 1]
    case 6 => [1, 0, 0, 0, 0, 0, 1]
    case 7 => [1, 0, 1, 1, 1, 0, 1]
    case 8 => [1, 0, 0, 0, 1, 0, 1]
    case 9 => [1, 1, 1, 1, 1, 0, 1]
    case 10 => [1, 0, 0, 0, 0, 0, 1]
    case 11 => [1, 0, 1, 0, 1, 1, 1]
    case 12 => [1, 0, 1, 0, 0, 0, 1]
    case 13 => [1, 0, 1, 1, 1, 0, 1]
    case 14 => [1, 0, 0, 0, 1, 0, 1]
    case 15 => [1, 1, 1, 0, 1, 1, 1]
    case 16 => [1, 0, 0, 0, 0, 0, 1]
    case 17 => [1, 0, 1, 1, 1, 0, 1]
    case 18 => [1, 0, 0, 0, 1, 0, 1]
    case 19 => [1, 1, 1, 1, 1, 0, 1]
    case 20 => [1, 0, 0, 0, 0, 0, 1]
    case 21 => [1, 0, 1, 0, 1, 1, 1]
    case 22 => [1, 0, 1, 0, 1, 0, 1]
    case 23 => [1, 0, 1, 0, 0, 0, 1]
    case 24 => [1, 1, 1, 1, 1, 0, 1]
    case 25 => [1, 0, 0, 0, 0, 0, 1]
    case 26 => [1, 0, 1, 1, 1, 0, 1]
    case 27 => [1, 0, 1, 0, 1, 0, 1]
    case 28 => [1, 0, 1, 0, 1, 0, 1]
    case 29 => [1, 0, 1, 0, 0, 0, 1]
    case 30 => [1, 0, 1, 1, 1, 1, 1]
    case 31 => [1, 0, 0, 0, 0, 0, 1]
    case 32 => [1, 1, 1, 1, 1, 0, 1]
    case 33 => [1, 1, 1, 0, 0, 0, 1]
    case _ => [1, 1, 1, 0, 1, 1, 1]
  }

  /** Row z of the hard level (row 34 for every z outside 0..33): a straight corridor down column 3. */
  function HardRow(z: int): (row: seq<int>)
    ensures |row| == COLS
  {
    match z
    case 0 => [1, 1, 1, 0, 1, 1, 1]
    case 1 => [1, 1, 1, 0, 1, 1, 1]
    case 2 => [1, 1, 1, 0, 1, 1, 1]
    case 3 => [1, 1, 1, 0, 1, 1, 1]
    case 4 => [1, 1, 1, 0, 1, 1, 1]
    case 5 => [1, 1, 1, 0, 1, 1, 1]
    case 6 => [1, 1, 1, 0, 1, 1, 1]
    case 7 => [1, 1, 1, 0, 1, 1, 1]
    case 8 => [1, 1, 1, 0, 1, 1, 1]
    case 9 => [1, 1, 1, 0, 1, 1, 1]
    case 10 => [1, 1, 1, 0, 1, 1, 1]
    case 11 => [1, 1, 1, 0, 1, 1, 1]
    case 12 => [1, 1, 1, 0, 1, 1, 1]
    case 13 => [1, 1, 1, 0, 1, 1, 1]
    case 14 => [1, 1, 1, 0, 1, 1, 1]
    case 15 => [1, 1, 1, 0, 1, 1, 1]
    case 16 => [1, 1, 1, 0, 1, 1, 1]
    case 17 => [1, 1, 1, 0, 1, 1, 1]
    case 18 => [1, 1, 1, 0, 1, 1, 1]
    case 19 => [1, 1, 1, 0, 1, 1, 1]
    case 20 => [1, 1, 1, 0, 1, 1, 1]
    case 21 => [1, 1, 1, 0, 1, 1, 1]
    case 22 => [1, 1, 1, 0, 1, 1, 1]
    case 23 => [1, 1, 1, 0, 1, 1, 1]
    case 24 => [1, 1, 1, 0, 1, 1, 1]
    case 25 => [1, 1, 1, 0, 1, 1, 1]
    case 26 => [1, 1, 1, 0, 1, 1, 1]
    case 27 => [1, 1, 1, 0, 1, 1, 1]
    case 28 => [1, 1, 1, 0, 1, 1, 1]
    case 29 => [1, 1, 1, 0, 1, 1, 1]
    case 30 => [1, 1, 1, 0, 1, 1, 1]
    case 31 => [1, 1, 1, 0, 1, 1, 1]
    case 32 => [1, 1, 1, 0, 1, 1, 1]
    case 33 => [1, 1, 1, 0, 1, 1, 1]
    case _ => [1, 1, 1, 0, 1, 1, 1]
  }

  /** Row z (0 <= z < ROWS) of a level's grid. */
  function Row(level: Level, z: int): (row: seq<int>)
    ensures |row| == COLS
  {
    match level
    case Easy => EasyRow(z)
    case Medium => MediumRow(z)
    case Hard => HardRow(z)
  }

  /** Prism cells, in trigger order. */
  function Prisms(level: Level): seq<Cell>
  {
    match level
    case Easy => [Cell(3, 4), Cell(2, 10), Cell(5, 16), Cell(5, 22), Cell(3, 29)]
    case Medium => [Cell(3, 1), Cell(3, 6), Cell(3, 10), Cell(3, 14), Cell(3, 20), Cell(5, 25), Cell(2, 31)]
    case Hard => [Cell(3, 0), Cell(3, 4), Cell(3, 9), Cell(3, 14), Cell(3, 19), Cell(3, 24), Cell(3, 29), Cell(3, 34)]
  }

  predicate OnFloor(level: Level, c: Cell)
  {
    0 <= c.z < ROWS && 0 <= c.x < COLS && Row(level, c.z)[c.x] == 0
  }

  /** Every grid has floor at both ends of column 3, where the corridor from
      the foyer enters and the exit to the end room leaves. */
  lemma CorridorEndsOpen(level: Level)
    ensures Row(level, 0)[3] == 0 && Row(level, ROWS - 1)[3] == 0
  {
  }

  /** Every prism stands on a floor cell inside its level's grid. */
  lemma PrismsOnFloor(level: Level)
    ensures forall i :: 0 <= i < |Prisms(level)| ==> OnFloor(level, Prisms(level)[i])
  {
  }
}
