/** The blinker scenario on the dense grid: a horizontal line of three live
    cells on a 3x3 non-cyclic grid becomes a vertical line after one BASIC
    step and horizontal again after the next. */
module Scenarios {
  import opened CellCodec
  import opened Life

  const Small := Topology(3, 3, false)
  /** Cells (x, y) = (0, 1), (1, 1), (2, 1) alive: row 1. */
  const Horizontal: Board := [[0, 0, 0], [StateMask, StateMask, StateMask], [0, 0, 0]]
  /** Cells (1, 0), (1, 1), (1, 2) alive: column 1. */
  const Vertical: Board := [[0, StateMask, 0], [0, StateMask, 0], [0, StateMask, 0]]

  // One cell of the result per lemma keeps each proof small.
  lemma TurnCell00()
    ensures GetNextStateBasic(Small, Horizontal, 0, 0) == Vertical[0][0]
  {
  }
  lemma TurnCell01()
    ensures GetNextStateBasic(Small, Horizontal, 0, 1) == Vertical[0][1]
  {
  }
  lemma TurnCell02()
    ensures GetNextStateBasic(Small, Horizontal, 0, 2) == Vertical[0][2]
  {
  }
  lemma TurnCell10()
    ensures GetNextStateBasic(Small, Horizontal, 1, 0) == Vertical[1][0]
  {
  }
  lemma TurnCell11()
    ensures GetNextStateBasic(Small, Horizontal, 1, 1) == Vertical[1][1]
  {
  }
  lemma TurnCell12()
    ensures GetNextStateBasic(Small, Horizontal, 1, 2) == Vertical[1][2]
  {
  }
  lemma TurnCell20()
    ensures GetNextStateBasic(Small, Horizontal, 2, 0) == Vertical[2][0]
  {
  }
  lemma TurnCell21()
    ensures GetNextStateBasic(Small, Horizontal, 2, 1) == Vertical[2][1]
  {
  }
  lemma TurnCell22()
    ensures GetNextStateBasic(Small, Horizontal, 2, 2) == Vertical[2][2]
  {
  }

  lemma BackCell00()
    ensures GetNextStateBasic(Small, Vertical, 0, 0) == Horizontal[0][0]
  {
  }
  lemma BackCell01()
    ensures GetNextStateBasic(Small, Vertical, 0, 1) == Horizontal[0][1]
  {
  }
  lemma BackCell02()
    ensures GetNextStateBasic(Small, Vertical, 0, 2) == Horizontal[0][2]
  {
  }
  lemma BackCell10()
    ensures GetNextStateBasic(Small, Vertical, 1, 0) == Horizontal[1][0]
  {
  }
  lemma BackCell11()
    ensures GetNextStateBasic(Small, Vertical, 1, 1) == Horizontal[1][1]
  {
  }
  lemma BackCell12()
    ensures GetNextStateBasic(Small, Vertical, 1, 2) == Horizontal[1][2]
  {
  }
  lemma BackCell20()
    ensures GetNextStateBasic(Small, Vertical, 2, 0) == Horizontal[2][0]
  {
  }
  lemma BackCell21()
    ensures GetNextStateBasic(Small, Vertical, 2, 1) == Horizontal[2][1]
  {
  }
  lemma BackCell22()
    ensures GetNextStateBasic(Small, Vertical, 2, 2) == Horizontal[2][2]
  {
  }

  lemma BlinkerTurns()
    ensures BasicStep(Small, Horizontal) == Vertical
  {
    forall y, x | InGrid(Small, y, x)
      ensures Vertical[y][x] == GetNextStateBasic(Small, Horizontal, y, x)
    {
      if y == 0 {
        if x == 0 { TurnCell00(); } else if x == 1 { TurnCell01(); } else { TurnCell02(); }
      } else if y == 1 {
        if x == 0 { TurnCell10(); } else if x == 1 { TurnCell11(); } else { TurnCell12(); }
      } else {
        if x == 0 { TurnCell20(); } else if x == 1 { TurnCell21(); } else { TurnCell22(); }
      }
    }
    BasicStepByCells(Small, Horizontal, Vertical);
  }

  lemma BlinkerTurnsBack()
    ensures BasicStep(Small, Vertical) == Horizontal
  {
    forall y, x | InGrid(Small, y, x)
      ensures Horizontal[y][x] == GetNextStateBasic(Small, Vertical, y, x)
    {
      if y == 0 {
        if x == 0 { BackCell00(); } else if x == 1 { BackCell01(); } else { BackCell02(); }
      } else if y == 1 {
        if x == 0 { BackCell10(); } else if x == 1 { BackCell11(); } else { BackCell12(); }
      } else {
        if x == 0 { BackCell20(); } else if x == 1 { BackCell21(); } else { BackCell22(); }
      }
    }
    BasicStepByCells(Small, Vertical, Horizontal);
  }

  /** The blinker has period 2 under BASIC. */
  lemma BlinkerPeriodTwo()
    ensures Run(Small, Basic, Horizontal, 1) == Vertical
    ensures Run(Small, Basic, Horizontal, 2) == Horizontal
  {
    BlinkerTurns();
    BlinkerTurnsBack();
  }
}
