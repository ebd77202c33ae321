/** Proof support for the second pass of BASIC_DIFF and of NEIGHBOURS (grid.h).
    Both visit the cells row by row and, for every cell that flipped, push
    the news to each cell of its 3x3 neighbourhood. A cell (i, j) receives
    the news of its kk-th neighbour p when p is visited at offset 8 - kk,
    so at any point of the pass the state of (i, j) is fixed by which of
    its nine deliveries have already happened. */
module Propagation {
  import opened CellCodec
  import opened Life

  /** A point of the pass: cell (y, x), about to push along offset k. */
  datatype Cursor = Cursor(y: int, x: int, k: int)

  /** Offset k of cell p lies before the cursor in the visit order. */
  predicate Visited(p: Pos, k: int, c: Cursor)
  {
    p.y < c.y || (p.y == c.y && p.x < c.x) || (p.y == c.y && p.x == c.x && k < c.k)
  }

  /** The news of the kk-th neighbour of (i, j) has reached (i, j). */
  predicate Delivered(t: Topology, i: int, j: int, kk: int, c: Cursor)
    requires InGrid(t, i, j) && 0 <= kk < 9
  {
    match Neighbour(t, i, j, kk)
    case None => false
    case Some(p) => Visited(p, 8 - kk, c)
  }

  /** Pushing offset c.k of cell (c.y, c.x) delivers exactly one piece of
      news: to that neighbour, along the opposite offset. */
  lemma DeliveredAdvance(t: Topology, i: int, j: int, kk: int, c: Cursor)
    requires InGrid(t, i, j) && 0 <= kk < 9 && InGrid(t, c.y, c.x) && 0 <= c.k < 9
    ensures Delivered(t, i, j, kk, c.(k := c.k + 1)) ==
      (Delivered(t, i, j, kk, c) || (kk == 8 - c.k && Neighbour(t, c.y, c.x, c.k) == Some(Pos(i, j))))
  {
    NeighbourSymmetric(t, Pos(i, j), Pos(c.y, c.x), kk);
  }

  /** Skipping a cell that did not flip: all its offsets count as visited. */
  lemma DeliveredSkip(t: Topology, i: int, j: int, kk: int, y: int, x: int)
    requires InGrid(t, i, j) && 0 <= kk < 9 && InGrid(t, y, x)
    ensures Delivered(t, i, j, kk, Cursor(y, x + 1, 0)) ==
      (Delivered(t, i, j, kk, Cursor(y, x, 0)) || Neighbour(t, i, j, kk) == Some(Pos(y, x)))
  {
  }

  /** The three shapes of cursor at the end of a cell, of a row, and of the
      pass all agree with the next cell's start. */
  lemma DeliveredBoundaries(t: Topology, i: int, j: int, kk: int, y: int, x: int)
    requires InGrid(t, i, j) && 0 <= kk < 9
    ensures Delivered(t, i, j, kk, Cursor(y, x, 9)) == Delivered(t, i, j, kk, Cursor(y, x + 1, 0))
    ensures Delivered(t, i, j, kk, Cursor(y, t.width, 0)) == Delivered(t, i, j, kk, Cursor(y + 1, 0, 0))
    ensures !Delivered(t, i, j, kk, Cursor(0, 0, 0))
    ensures Delivered(t, i, j, kk, Cursor(t.height, 0, 0)) == Neighbour(t, i, j, kk).Some?
  {
  }

  // ---------------------------------------------------------------------
  // BASIC_DIFF: the check bit.

  /** Some flipped cell of the neighbourhood of (i, j), itself included, has
      already marked (i, j). */
  predicate Marked(t: Topology, b1: Board, i: int, j: int, c: Cursor)
    requires Fits(t, b1) && InGrid(t, i, j)
  {
    MarkedBy(t, b1, i, j, c, 9)
  }

  /** Marked, looking only at the neighbours of offset below n. */
  predicate MarkedBy(t: Topology, b1: Board, i: int, j: int, c: Cursor, n: int)
    requires Fits(t, b1) && InGrid(t, i, j) && 0 <= n <= 9
    decreases n
  {
    n > 0 && (MarkedBy(t, b1, i, j, c, n - 1) || (Delivered(t, i, j, n - 1, c) && ChangedAt(t, b1, i, j, n - 1)))
  }

  /** The news of neighbour kk of (i, j) that marks (i, j) once delivered. */
  predicate MarksFrom(t: Topology, b1: Board, i: int, j: int, kk: int, c: Cursor)
    requires Fits(t, b1) && InGrid(t, i, j) && 0 <= kk < 9
  {
    Delivered(t, i, j, kk, c) && ChangedAt(t, b1, i, j, kk)
  }

  /** Two cursors that agree on the deliveries below n agree on MarkedBy n. */
  lemma {:induction false} MarkedBySame(t: Topology, b1: Board, i: int, j: int, c: Cursor, d: Cursor, n: int)
    requires Fits(t, b1) && InGrid(t, i, j) && 0 <= n <= 9
    requires forall kk :: 0 <= kk < n ==> MarksFrom(t, b1, i, j, kk, c) == MarksFrom(t, b1, i, j, kk, d)
    ensures MarkedBy(t, b1, i, j, c, n) == MarkedBy(t, b1, i, j, d, n)
  {
    if n > 0 {
      MarkedBySame(t, b1, i, j, c, d, n - 1);
      assert MarksFrom(t, b1, i, j, n - 1, c) == MarksFrom(t, b1, i, j, n - 1, d);
    }
  }

  /** MarkedBy n holds exactly when one of the first n offsets marks. */
  lemma {:induction false} MarkedBySome(t: Topology, b1: Board, i: int, j: int, c: Cursor, n: int)
    requires Fits(t, b1) && InGrid(t, i, j) && 0 <= n <= 9
    ensures MarkedBy(t, b1, i, j, c, n) <==> exists kk :: 0 <= kk < n && MarksFrom(t, b1, i, j, kk, c)
  {
    if n > 0 {
      MarkedBySome(t, b1, i, j, c, n - 1);
      if MarksFrom(t, b1, i, j, n - 1, c) {
        assert 0 <= n - 1 < n && MarksFrom(t, b1, i, j, n - 1, c);
      } else if exists kk :: 0 <= kk < n && MarksFrom(t, b1, i, j, kk, c) {
        var kk :| 0 <= kk < n && MarksFrom(t, b1, i, j, kk, c);
        assert kk < n - 1;
      }
    }
  }

  /** One offset of Advance: only the news from neighbour 8 - c.k arrives. */
  lemma MarksFromAdvance(t: Topology, b1: Board, i: int, j: int, kk: int, c: Cursor)
    requires Fits(t, b1) && InGrid(t, i, j) && InGrid(t, c.y, c.x) && 0 <= c.k < 9 && 0 <= kk < 9
    ensures MarksFrom(t, b1, i, j, kk, c.(k := c.k + 1)) ==
      (MarksFrom(t, b1, i, j, kk, c)
       || (kk == 8 - c.k && HasChanged(b1[c.y][c.x]) && Neighbour(t, c.y, c.x, c.k) == Some(Pos(i, j))))
  {
    DeliveredAdvance(t, i, j, kk, c);
    NeighbourSymmetric(t, Pos(c.y, c.x), Pos(i, j), c.k);
  }

  lemma {:induction false} MarkedByAdvance(t: Topology, b1: Board, i: int, j: int, c: Cursor, n: int)
    requires Fits(t, b1) && InGrid(t, i, j) && InGrid(t, c.y, c.x) && 0 <= c.k < 9 && 0 <= n <= 9
    ensures MarkedBy(t, b1, i, j, c.(k := c.k + 1), n) ==
      (MarkedBy(t, b1, i, j, c, n)
       || (8 - c.k < n && HasChanged(b1[c.y][c.x]) && Neighbour(t, c.y, c.x, c.k) == Some(Pos(i, j))))
  {
    if n > 0 {
      MarkedByAdvance(t, b1, i, j, c, n - 1);
      MarksFromAdvance(t, b1, i, j, n - 1, c);
    }
  }

  /** Marking along offset c.k marks exactly that neighbour, and only when
      the marking cell flipped. */
  lemma MarkedAdvance(t: Topology, b1: Board, i: int, j: int, c: Cursor)
    requires Fits(t, b1) && InGrid(t, i, j) && InGrid(t, c.y, c.x) && 0 <= c.k < 9
    ensures Marked(t, b1, i, j, c.(k := c.k + 1)) ==
      (Marked(t, b1, i, j, c) || (HasChanged(b1[c.y][c.x]) && Neighbour(t, c.y, c.x, c.k) == Some(Pos(i, j))))
  {
    MarkedByAdvance(t, b1, i, j, c, 9);
  }

  /** Skipping a cell that did not flip marks nothing. */
  lemma MarkedSkip(t: Topology, b1: Board, i: int, j: int, y: int, x: int)
    requires Fits(t, b1) && InGrid(t, i, j) && InGrid(t, y, x)
    requires !HasChanged(b1[y][x])
    ensures Marked(t, b1, i, j, Cursor(y, x + 1, 0)) == Marked(t, b1, i, j, Cursor(y, x, 0))
  {
    forall kk | 0 <= kk < 9
      ensures MarksFrom(t, b1, i, j, kk, Cursor(y, x + 1, 0)) == MarksFrom(t, b1, i, j, kk, Cursor(y, x, 0))
    {
      DeliveredSkip(t, i, j, kk, y, x);
    }
    MarkedBySame(t, b1, i, j, Cursor(y, x + 1, 0), Cursor(y, x, 0), 9);
  }

  /** The end of a cell is the start of the next one. */
  lemma MarkedCellEnd(t: Topology, b1: Board, i: int, j: int, y: int, x: int)
    requires Fits(t, b1) && InGrid(t, i, j)
    ensures Marked(t, b1, i, j, Cursor(y, x, 9)) == Marked(t, b1, i, j, Cursor(y, x + 1, 0))
  {
    forall kk | 0 <= kk < 9
      ensures MarksFrom(t, b1, i, j, kk, Cursor(y, x, 9)) == MarksFrom(t, b1, i, j, kk, Cursor(y, x + 1, 0))
    {
      DeliveredBoundaries(t, i, j, kk, y, x);
    }
    MarkedBySame(t, b1, i, j, Cursor(y, x, 9), Cursor(y, x + 1, 0), 9);
  }

  /** The end of a row is the start of the next one. */
  lemma MarkedRowEnd(t: Topology, b1: Board, i: int, j: int, y: int)
    requires Fits(t, b1) && InGrid(t, i, j)
    ensures Marked(t, b1, i, j, Cursor(y, t.width, 0)) == Marked(t, b1, i, j, Cursor(y + 1, 0, 0))
  {
    forall kk | 0 <= kk < 9
      ensures MarksFrom(t, b1, i, j, kk, Cursor(y, t.width, 0)) == MarksFrom(t, b1, i, j, kk, Cursor(y + 1, 0, 0))
    {
      DeliveredBoundaries(t, i, j, kk, y, t.width);
    }
    MarkedBySame(t, b1, i, j, Cursor(y, t.width, 0), Cursor(y + 1, 0, 0), 9);
  }

  /** Nothing is marked before the pass. */
  lemma MarkedStart(t: Topology, b1: Board, i: int, j: int)
    requires Fits(t, b1) && InGrid(t, i, j)
    ensures !Marked(t, b1, i, j, Cursor(0, 0, 0))
  {
    forall kk | 0 <= kk < 9
      ensures !MarksFrom(t, b1, i, j, kk, Cursor(0, 0, 0))
    {
      DeliveredBoundaries(t, i, j, kk, 0, 0);
    }
    MarkedBySome(t, b1, i, j, Cursor(0, 0, 0), 9);
  }

  /** After the pass, every flipped neighbour has marked (i, j). */
  lemma MarkedEnd(t: Topology, b1: Board, i: int, j: int)
    requires Fits(t, b1) && InGrid(t, i, j)
    ensures Marked(t, b1, i, j, Cursor(t.height, 0, 0)) == HoodChanged(t, b1, i, j)
  {
    forall kk | 0 <= kk < 9
      ensures MarksFrom(t, b1, i, j, kk, Cursor(t.height, 0, 0)) == ChangedAt(t, b1, i, j, kk)
    {
      DeliveredBoundaries(t, i, j, kk, 0, 0);
    }
    MarkedBySome(t, b1, i, j, Cursor(t.height, 0, 0), 9);
    HoodChangedSome(t, b1, i, j);
  }

  /** HoodChanged is "some offset changed". */
  lemma HoodChangedSome(t: Topology, b: Board, y: int, x: int)
    requires Fits(t, b) && InGrid(t, y, x)
    ensures HoodChanged(t, b, y, x) <==> exists k :: 0 <= k < 9 && ChangedAt(t, b, y, x, k)
  {
    if exists k :: 0 <= k < 9 && ChangedAt(t, b, y, x, k) {
      var k :| 0 <= k < 9 && ChangedAt(t, b, y, x, k);
      assert k == 0 || k == 1 || k == 2 || k == 3 || k == 4 || k == 5 || k == 6 || k == 7 || k == 8;
    }
  }

  // ---------------------------------------------------------------------
  // NEIGHBOURS: the stored count.

  /** What the kk-th neighbour of (i, j) contributes to the stored count:
      its new state once its news has arrived, its old state before. */
  function Contribution(t: Topology, b0: Board, b1: Board, i: int, j: int, kk: int, c: Cursor): (n: nat)
    requires Fits(t, b0) && Fits(t, b1) && InGrid(t, i, j) && 0 <= kk < 9
    ensures n <= 1
  {
    if Delivered(t, i, j, kk, c) then AliveAt(t, b1, i, j, kk) else AliveAt(t, b0, i, j, kk)
  }

  /** The count stored in (i, j) at cursor c. */
  function PartialCount(t: Topology, b0: Board, b1: Board, i: int, j: int, c: Cursor): (n: nat)
    requires Fits(t, b0) && Fits(t, b1) && InGrid(t, i, j)
    ensures n <= 8
  {
    Contribution(t, b0, b1, i, j, 0, c) + Contribution(t, b0, b1, i, j, 1, c)
    + Contribution(t, b0, b1, i, j, 2, c) + Contribution(t, b0, b1, i, j, 3, c)
    + Contribution(t, b0, b1, i, j, 5, c) + Contribution(t, b0, b1, i, j, 6, c)
    + Contribution(t, b0, b1, i, j, 7, c) + Contribution(t, b0, b1, i, j, 8, c)
  }

  /** 1 for a live cell, 0 for a dead one. */
  function Bit(b: Byte): int { if IsAlive(b) then 1 else 0 }

  /** Pushing along offset c.k moves the contribution to (i, j) along kk
      only when (i, j) is that neighbour and kk points back. */
  lemma ContributionAdvance(t: Topology, b0: Board, b1: Board, i: int, j: int, kk: int, c: Cursor)
    requires Fits(t, b0) && Fits(t, b1) && InGrid(t, i, j) && InGrid(t, c.y, c.x)
    requires 0 <= kk < 9 && 0 <= c.k < 9
    ensures Contribution(t, b0, b1, i, j, kk, c.(k := c.k + 1)) ==
      Contribution(t, b0, b1, i, j, kk, c)
      + (if kk == 8 - c.k && Neighbour(t, c.y, c.x, c.k) == Some(Pos(i, j))
         then Bit(b1[c.y][c.x]) - Bit(b0[c.y][c.x]) else 0)
  {
    DeliveredAdvance(t, i, j, kk, c);
    NeighbourSymmetric(t, Pos(c.y, c.x), Pos(i, j), c.k);
  }

  /** Pushing along offset c.k (not the cell itself) moves the count of
      exactly that neighbour, by the change of the pushing cell. */
  lemma PartialCountAdvance(t: Topology, b0: Board, b1: Board, i: int, j: int, c: Cursor)
    requires Fits(t, b0) && Fits(t, b1) && InGrid(t, i, j) && InGrid(t, c.y, c.x)
    requires 0 <= c.k < 9
    ensures PartialCount(t, b0, b1, i, j, c.(k := c.k + 1)) ==
      PartialCount(t, b0, b1, i, j, c)
      + (if c.k != SelfOffset && Neighbour(t, c.y, c.x, c.k) == Some(Pos(i, j))
         then Bit(b1[c.y][c.x]) - Bit(b0[c.y][c.x]) else 0)
  {
    ContributionAdvance(t, b0, b1, i, j, 0, c);
    ContributionAdvance(t, b0, b1, i, j, 1, c);
    ContributionAdvance(t, b0, b1, i, j, 2, c);
    ContributionAdvance(t, b0, b1, i, j, 3, c);
    ContributionAdvance(t, b0, b1, i, j, 5, c);
    ContributionAdvance(t, b0, b1, i, j, 6, c);
    ContributionAdvance(t, b0, b1, i, j, 7, c);
    ContributionAdvance(t, b0, b1, i, j, 8, c);
  }

  /** Skipping a cell that did not flip moves no count. */
  lemma PartialCountSkip(t: Topology, b0: Board, b1: Board, i: int, j: int, y: int, x: int)
    requires Fits(t, b0) && Fits(t, b1) && InGrid(t, i, j) && InGrid(t, y, x)
    requires IsAlive(b1[y][x]) == IsAlive(b0[y][x])
    ensures PartialCount(t, b0, b1, i, j, Cursor(y, x + 1, 0)) == PartialCount(t, b0, b1, i, j, Cursor(y, x, 0))
  {
    forall kk | 0 <= kk < 9 {
      DeliveredSkip(t, i, j, kk, y, x);
    }
  }

  /** The end of a cell is the start of the next one. */
  lemma PartialCountCellEnd(t: Topology, b0: Board, b1: Board, i: int, j: int, y: int, x: int)
    requires Fits(t, b0) && Fits(t, b1) && InGrid(t, i, j)
    ensures PartialCount(t, b0, b1, i, j, Cursor(y, x, 9)) == PartialCount(t, b0, b1, i, j, Cursor(y, x + 1, 0))
  {
    forall kk | 0 <= kk < 9
      ensures Contribution(t, b0, b1, i, j, kk, Cursor(y, x, 9)) == Contribution(t, b0, b1, i, j, kk, Cursor(y, x + 1, 0))
    {
      DeliveredBoundaries(t, i, j, kk, y, x);
    }
  }

  /** The end of a row is the start of the next one. */
  lemma PartialCountRowEnd(t: Topology, b0: Board, b1: Board, i: int, j: int, y: int)
    requires Fits(t, b0) && Fits(t, b1) && InGrid(t, i, j)
    ensures PartialCount(t, b0, b1, i, j, Cursor(y, t.width, 0)) == PartialCount(t, b0, b1, i, j, Cursor(y + 1, 0, 0))
  {
    forall kk | 0 <= kk < 9
      ensures Contribution(t, b0, b1, i, j, kk, Cursor(y, t.width, 0)) == Contribution(t, b0, b1, i, j, kk, Cursor(y + 1, 0, 0))
    {
      DeliveredBoundaries(t, i, j, kk, y, t.width);
    }
  }

  /** Before the pass, the count is the one over b0. */
  lemma PartialCountStart(t: Topology, b0: Board, b1: Board, i: int, j: int)
    requires Fits(t, b0) && Fits(t, b1) && InGrid(t, i, j)
    ensures PartialCount(t, b0, b1, i, j, Cursor(0, 0, 0)) == LiveNeighbours(t, b0, i, j)
  {
    forall kk | 0 <= kk < 9
      ensures Contribution(t, b0, b1, i, j, kk, Cursor(0, 0, 0)) == AliveAt(t, b0, i, j, kk)
    {
      DeliveredBoundaries(t, i, j, kk, 0, 0);
    }
  }

  /** After the pass, the count is the one over b1. */
  lemma PartialCountEnd(t: Topology, b0: Board, b1: Board, i: int, j: int)
    requires Fits(t, b0) && Fits(t, b1) && InGrid(t, i, j)
    ensures PartialCount(t, b0, b1, i, j, Cursor(t.height, 0, 0)) == LiveNeighbours(t, b1, i, j)
  {
    forall kk | 0 <= kk < 9
      ensures Contribution(t, b0, b1, i, j, kk, Cursor(t.height, 0, 0)) == AliveAt(t, b1, i, j, kk)
    {
      DeliveredBoundaries(t, i, j, kk, 0, 0);
    }
  }

  // ---------------------------------------------------------------------
  // Both passes replayed step by step, as the loops perform them, and
  // shown to reach the closed forms above.

  /** The cursors a pass goes through: inside a row (offset 9 ends a cell),
      at the end of a row, or at the end of the pass. */
  predicate OnPass(t: Topology, y: int, x: int, k: int)
  {
    (0 <= y < t.height && 0 <= x < t.width && 0 <= k <= 9)
    || (0 <= y < t.height && x == t.width && k == 0)
    || (y == t.height && x == 0 && k == 0)
  }

  /** BASIC_DIFF's second pass up to cursor (y, x, k): has a flipped cell
      marked (i, j)? Cells that did not flip are passed over whole. */
  predicate MarkedReplay(t: Topology, b1: Board, i: int, j: int, y: int, x: int, k: int)
    requires Fits(t, b1) && InGrid(t, i, j) && OnPass(t, y, x, k)
    decreases y, x, k
  {
    if k > 0 then
      MarkedReplay(t, b1, i, j, y, x, k - 1)
      || (HasChanged(b1[y][x]) && Neighbour(t, y, x, k - 1) == Some(Pos(i, j)))
    else if x > 0 then
      if HasChanged(b1[y][x - 1]) then MarkedReplay(t, b1, i, j, y, x - 1, 9)
      else MarkedReplay(t, b1, i, j, y, x - 1, 0)
    else if y > 0 then MarkedReplay(t, b1, i, j, y - 1, t.width, 0)
    else false
  }

  lemma {:induction false} MarkedReplayCloses(t: Topology, b1: Board, i: int, j: int, y: int, x: int, k: int)
    requires Fits(t, b1) && InGrid(t, i, j) && OnPass(t, y, x, k)
    ensures MarkedReplay(t, b1, i, j, y, x, k) == Marked(t, b1, i, j, Cursor(y, x, k))
    decreases y, x, k, 3
  {
    if k > 0 {
      MarkedReplayCloses(t, b1, i, j, y, x, k - 1);
      MarkedClosesOffset(t, b1, i, j, y, x, k);
    } else {
      MarkedReplayClosesAtCell(t, b1, i, j, y, x);
    }
  }

  /** MarkedReplayCloses at the start of a cell. */
  lemma {:induction false} MarkedReplayClosesAtCell(t: Topology, b1: Board, i: int, j: int, y: int, x: int)
    requires Fits(t, b1) && InGrid(t, i, j) && OnPass(t, y, x, 0)
    ensures MarkedReplay(t, b1, i, j, y, x, 0) == Marked(t, b1, i, j, Cursor(y, x, 0))
    decreases y, x, 0, 2
  {
    if x > 0 {
      MarkedReplayClosesAfterCell(t, b1, i, j, y, x);
    } else if y > 0 {
      MarkedReplayClosesAfterRow(t, b1, i, j, y, x);
    } else {
      MarkedReplayClosesFirst(t, b1, i, j, y, x);
    }
  }

  /** MarkedReplayCloses at the very start of the pass. */
  lemma MarkedReplayClosesFirst(t: Topology, b1: Board, i: int, j: int, y: int, x: int)
    requires Fits(t, b1) && InGrid(t, i, j) && y == 0 && x == 0
    ensures MarkedReplay(t, b1, i, j, y, x, 0) == Marked(t, b1, i, j, Cursor(y, x, 0))
  {
    MarkedStart(t, b1, i, j);
  }

  /** MarkedReplayCloses at the start of a cell that follows another in its row. */
  lemma {:induction false} MarkedReplayClosesAfterCell(t: Topology, b1: Board, i: int, j: int, y: int, x: int)
    requires Fits(t, b1) && InGrid(t, i, j) && 0 <= y < t.height && 0 < x <= t.width
    ensures MarkedReplay(t, b1, i, j, y, x, 0) == Marked(t, b1, i, j, Cursor(y, x, 0))
    decreases y, x, 0, 1
  {
    if HasChanged(b1[y][x - 1]) {
      MarkedReplayCloses(t, b1, i, j, y, x - 1, 9);
      MarkedClosesChanged(t, b1, i, j, y, x);
    } else {
      MarkedReplayCloses(t, b1, i, j, y, x - 1, 0);
      MarkedClosesQuiet(t, b1, i, j, y, x);
    }
  }

  /** MarkedReplayCloses at the start of a row after the first. */
  lemma {:induction false} MarkedReplayClosesAfterRow(t: Topology, b1: Board, i: int, j: int, y: int, x: int)
    requires Fits(t, b1) && InGrid(t, i, j) && 0 < y <= t.height && x == 0
    ensures MarkedReplay(t, b1, i, j, y, x, 0) == Marked(t, b1, i, j, Cursor(y, x, 0))
    decreases y, x, 0, 1
  {
    MarkedReplayCloses(t, b1, i, j, y - 1, t.width, 0);
    MarkedClosesRow(t, b1, i, j, y);
  }

  /** The step of MarkedReplayCloses along one offset. */
  lemma MarkedClosesOffset(t: Topology, b1: Board, i: int, j: int, y: int, x: int, k: int)
    requires Fits(t, b1) && InGrid(t, i, j) && InGrid(t, y, x) && 0 < k <= 9
    requires MarkedReplay(t, b1, i, j, y, x, k - 1) == Marked(t, b1, i, j, Cursor(y, x, k - 1))
    ensures MarkedReplay(t, b1, i, j, y, x, k) == Marked(t, b1, i, j, Cursor(y, x, k))
  {
    MarkedAdvance(t, b1, i, j, Cursor(y, x, k - 1));
  }

  /** The step of MarkedReplayCloses past a cell that flipped. */
  lemma MarkedClosesChanged(t: Topology, b1: Board, i: int, j: int, y: int, x: int)
    requires Fits(t, b1) && InGrid(t, i, j) && 0 <= y < t.height && 0 < x <= t.width
    requires HasChanged(b1[y][x - 1])
    requires MarkedReplay(t, b1, i, j, y, x - 1, 9) == Marked(t, b1, i, j, Cursor(y, x - 1, 9))
    ensures MarkedReplay(t, b1, i, j, y, x, 0) == Marked(t, b1, i, j, Cursor(y, x, 0))
  {
    MarkedCellEnd(t, b1, i, j, y, x - 1);
  }

  /** The step of MarkedReplayCloses past a cell that did not flip. */
  lemma MarkedClosesQuiet(t: Topology, b1: Board, i: int, j: int, y: int, x: int)
    requires Fits(t, b1) && InGrid(t, i, j) && 0 <= y < t.height && 0 < x <= t.width
    requires !HasChanged(b1[y][x - 1])
    requires MarkedReplay(t, b1, i, j, y, x - 1, 0) == Marked(t, b1, i, j, Cursor(y, x - 1, 0))
    ensures MarkedReplay(t, b1, i, j, y, x, 0) == Marked(t, b1, i, j, Cursor(y, x, 0))
  {
    MarkedSkip(t, b1, i, j, y, x - 1);
  }

  /** The step of MarkedReplayCloses from the end of one row to the next. */
  lemma MarkedClosesRow(t: Topology, b1: Board, i: int, j: int, y: int)
    requires Fits(t, b1) && InGrid(t, i, j) && 0 < y <= t.height
    requires MarkedReplay(t, b1, i, j, y - 1, t.width, 0) == Marked(t, b1, i, j, Cursor(y - 1, t.width, 0))
    ensures MarkedReplay(t, b1, i, j, y, 0, 0) == Marked(t, b1, i, j, Cursor(y, 0, 0))
  {
    MarkedRowEnd(t, b1, i, j, y - 1);
  }

  /** At the end of the pass, (i, j) is marked exactly when a cell of its
      neighbourhood, itself included, flipped. */
  lemma MarkedReplayComplete(t: Topology, b1: Board, i: int, j: int)
    requires Fits(t, b1) && InGrid(t, i, j)
    ensures MarkedReplay(t, b1, i, j, t.height, 0, 0) == HoodChanged(t, b1, i, j)
  {
    MarkedReplayCloses(t, b1, i, j, t.height, 0, 0);
    MarkedEnd(t, b1, i, j);
  }

  /** NEIGHBOURS' second pass up to cursor (y, x, k): the count stored in
      (i, j), starting from its count over b0. */
  function CountReplay(t: Topology, b0: Board, b1: Board, i: int, j: int, y: int, x: int, k: int): int
    requires Fits(t, b0) && Fits(t, b1) && InGrid(t, i, j) && OnPass(t, y, x, k)
    decreases y, x, k
  {
    if k > 0 then
      CountReplay(t, b0, b1, i, j, y, x, k - 1)
      + (if k - 1 != SelfOffset && Neighbour(t, y, x, k - 1) == Some(Pos(i, j))
         then Bit(b1[y][x]) - Bit(b0[y][x]) else 0)
    else if x > 0 then
      if HasChanged(b1[y][x - 1]) then CountReplay(t, b0, b1, i, j, y, x - 1, 9)
      else CountReplay(t, b0, b1, i, j, y, x - 1, 0)
    else if y > 0 then CountReplay(t, b0, b1, i, j, y - 1, t.width, 0)
    else LiveNeighbours(t, b0, i, j)
  }

  /** The changed bit of b1 records exactly the cells that flipped since b0. */
  ghost predicate FlipsMarked(t: Topology, b0: Board, b1: Board)
    requires Fits(t, b0) && Fits(t, b1)
  {
    forall i, j :: InGrid(t, i, j) ==> (HasChanged(b1[i][j]) <==> IsAlive(b1[i][j]) != IsAlive(b0[i][j]))
  }

  lemma {:induction false} CountReplayCloses(t: Topology, b0: Board, b1: Board, i: int, j: int, y: int, x: int, k: int)
    requires Fits(t, b0) && Fits(t, b1) && InGrid(t, i, j) && OnPass(t, y, x, k)
    requires FlipsMarked(t, b0, b1)
    ensures CountReplay(t, b0, b1, i, j, y, x, k) == PartialCount(t, b0, b1, i, j, Cursor(y, x, k))
    decreases y, x, k, 3
  {
    if k > 0 {
      CountReplayCloses(t, b0, b1, i, j, y, x, k - 1);
      CountClosesOffset(t, b0, b1, i, j, y, x, k);
    } else {
      CountReplayClosesAtCell(t, b0, b1, i, j, y, x);
    }
  }

  /** CountReplayCloses at the start of a cell. */
  lemma {:induction false} CountReplayClosesAtCell(t: Topology, b0: Board, b1: Board, i: int, j: int, y: int, x: int)
    requires Fits(t, b0) && Fits(t, b1) && InGrid(t, i, j) && OnPass(t, y, x, 0)
    requires FlipsMarked(t, b0, b1)
    ensures CountReplay(t, b0, b1, i, j, y, x, 0) == PartialCount(t, b0, b1, i, j, Cursor(y, x, 0))
    decreases y, x, 0, 2
  {
    if x > 0 {
      CountReplayClosesAfterCell(t, b0, b1, i, j, y, x);
    } else if y > 0 {
      CountReplayClosesAfterRow(t, b0, b1, i, j, y, x);
    } else {
      CountReplayClosesFirst(t, b0, b1, i, j, y, x);
    }
  }

  /** CountReplayCloses at the very start of the pass. */
  lemma CountReplayClosesFirst(t: Topology, b0: Board, b1: Board, i: int, j: int, y: int, x: int)
    requires Fits(t, b0) && Fits(t, b1) && InGrid(t, i, j) && y == 0 && x == 0
    ensures CountReplay(t, b0, b1, i, j, y, x, 0) == PartialCount(t, b0, b1, i, j, Cursor(y, x, 0))
  {
    PartialCountStart(t, b0, b1, i, j);
  }

  /** CountReplayCloses at the start of a cell that follows another in its row. */
  lemma {:induction false} CountReplayClosesAfterCell(t: Topology, b0: Board, b1: Board, i: int, j: int, y: int, x: int)
    requires Fits(t, b0) && Fits(t, b1) && InGrid(t, i, j) && 0 <= y < t.height && 0 < x <= t.width
    requires FlipsMarked(t, b0, b1)
    ensures CountReplay(t, b0, b1, i, j, y, x, 0) == PartialCount(t, b0, b1, i, j, Cursor(y, x, 0))
    decreases y, x, 0, 1
  {
    if HasChanged(b1[y][x - 1]) {
      CountReplayCloses(t, b0, b1, i, j, y, x - 1, 9);
      CountClosesChanged(t, b0, b1, i, j, y, x);
    } else {
      CountReplayCloses(t, b0, b1, i, j, y, x - 1, 0);
      CountClosesQuiet(t, b0, b1, i, j, y, x);
    }
  }

  /** CountReplayCloses at the start of a row after the first. */
  lemma {:induction false} CountReplayClosesAfterRow(t: Topology, b0: Board, b1: Board, i: int, j: int, y: int, x: int)
    requires Fits(t, b0) && Fits(t, b1) && InGrid(t, i, j) && 0 < y <= t.height && x == 0
    requires FlipsMarked(t, b0, b1)
    ensures CountReplay(t, b0, b1, i, j, y, x, 0) == PartialCount(t, b0, b1, i, j, Cursor(y, x, 0))
    decreases y, x, 0, 1
  {
    CountReplayCloses(t, b0, b1, i, j, y - 1, t.width, 0);
    CountClosesRow(t, b0, b1, i, j, y);
  }

  /** The step of CountReplayCloses from the end of one row to the next. */
  lemma CountClosesRow(t: Topology, b0: Board, b1: Board, i: int, j: int, y: int)
    requires Fits(t, b0) && Fits(t, b1) && InGrid(t, i, j) && 0 < y <= t.height
    requires CountReplay(t, b0, b1, i, j, y - 1, t.width, 0) == PartialCount(t, b0, b1, i, j, Cursor(y - 1, t.width, 0))
    ensures CountReplay(t, b0, b1, i, j, y, 0, 0) == PartialCount(t, b0, b1, i, j, Cursor(y, 0, 0))
  {
    PartialCountRowEnd(t, b0, b1, i, j, y - 1);
  }

  /** The step of CountReplayCloses along one offset. */
  lemma CountClosesOffset(t: Topology, b0: Board, b1: Board, i: int, j: int, y: int, x: int, k: int)
    requires Fits(t, b0) && Fits(t, b1) && InGrid(t, i, j) && InGrid(t, y, x) && 0 < k <= 9
    requires CountReplay(t, b0, b1, i, j, y, x, k - 1) == PartialCount(t, b0, b1, i, j, Cursor(y, x, k - 1))
    ensures CountReplay(t, b0, b1, i, j, y, x, k) == PartialCount(t, b0, b1, i, j, Cursor(y, x, k))
  {
    PartialCountAdvance(t, b0, b1, i, j, Cursor(y, x, k - 1));
  }

  /** The step of CountReplayCloses past a cell that flipped. */
  lemma CountClosesChanged(t: Topology, b0: Board, b1: Board, i: int, j: int, y: int, x: int)
    requires Fits(t, b0) && Fits(t, b1) && InGrid(t, i, j) && 0 <= y < t.height && 0 < x <= t.width
    requires HasChanged(b1[y][x - 1])
    requires CountReplay(t, b0, b1, i, j, y, x - 1, 9) == PartialCount(t, b0, b1, i, j, Cursor(y, x - 1, 9))
    ensures CountReplay(t, b0, b1, i, j, y, x, 0) == PartialCount(t, b0, b1, i, j, Cursor(y, x, 0))
  {
    PartialCountCellEnd(t, b0, b1, i, j, y, x - 1);
  }

  /** The step of CountReplayCloses past a cell that did not flip. */
  lemma CountClosesQuiet(t: Topology, b0: Board, b1: Board, i: int, j: int, y: int, x: int)
    requires Fits(t, b0) && Fits(t, b1) && InGrid(t, i, j) && 0 <= y < t.height && 0 < x <= t.width
    requires FlipsMarked(t, b0, b1) && !HasChanged(b1[y][x - 1])
    requires CountReplay(t, b0, b1, i, j, y, x - 1, 0) == PartialCount(t, b0, b1, i, j, Cursor(y, x - 1, 0))
    ensures CountReplay(t, b0, b1, i, j, y, x, 0) == PartialCount(t, b0, b1, i, j, Cursor(y, x, 0))
  {
    PartialCountSkip(t, b0, b1, i, j, y, x - 1);
  }

  /** Mid-pass, a stored count is still a count of at most eight cells. */
  lemma CountReplayBounds(t: Topology, b0: Board, b1: Board, i: int, j: int, y: int, x: int, k: int)
    requires Fits(t, b0) && Fits(t, b1) && InGrid(t, i, j) && OnPass(t, y, x, k)
    requires FlipsMarked(t, b0, b1)
    ensures 0 <= CountReplay(t, b0, b1, i, j, y, x, k) <= 8
  {
    CountReplayCloses(t, b0, b1, i, j, y, x, k);
  }

  /** One offset of a flipped cell's pass: the count at (i, j) moves by one,
      up when the cell was born and down when it died, exactly when (i, j)
      is the cell's neighbour q through offset k. */
  lemma CountReplayStep(t: Topology, b0: Board, b1: Board, i: int, j: int, y: int, x: int, k: int, q: Option<Pos>)
    requires Fits(t, b0) && Fits(t, b1) && InGrid(t, i, j) && InGrid(t, y, x) && 0 <= k < 9
    requires FlipsMarked(t, b0, b1) && HasChanged(b1[y][x]) && q == Neighbour(t, y, x, k)
    ensures CountReplay(t, b0, b1, i, j, y, x, k + 1) == CountReplay(t, b0, b1, i, j, y, x, k)
      + (if k != SelfOffset && q == Some(Pos(i, j)) then (if IsAlive(b1[y][x]) then 1 else -1) else 0)
  {
  }

  /** The same step for one stored byte: a byte holding the count at cursor
      (y, x, k), moved by that step with its flags kept, holds the count at
      (y, x, k + 1). */
  lemma CountReplayStepByte(t: Topology, b0: Board, b1: Board, i: int, j: int, y: int, x: int, k: int, q: Option<Pos>, before: Byte, after: Byte)
    requires Fits(t, b0) && Fits(t, b1) && InGrid(t, i, j) && InGrid(t, y, x) && 0 <= k < 9
    requires FlipsMarked(t, b0, b1) && HasChanged(b1[y][x]) && q == Neighbour(t, y, x, k)
    requires SameFlags(before, b1[i][j]) && Payload(before) == CountReplay(t, b0, b1, i, j, y, x, k)
    requires SameFlags(after, before)
    requires Payload(after) == Payload(before)
      + (if k != SelfOffset && q == Some(Pos(i, j)) then (if IsAlive(b1[y][x]) then 1 else -1) else 0)
    ensures SameFlags(after, b1[i][j]) && Payload(after) == CountReplay(t, b0, b1, i, j, y, x, k + 1)
  {
    CountReplayStep(t, b0, b1, i, j, y, x, k, q);
  }

  /** At the end of the pass, every stored count is the count over b1. */
  lemma CountReplayComplete(t: Topology, b0: Board, b1: Board, i: int, j: int)
    requires Fits(t, b0) && Fits(t, b1) && InGrid(t, i, j)
    requires FlipsMarked(t, b0, b1)
    ensures CountReplay(t, b0, b1, i, j, t.height, 0, 0) == LiveNeighbours(t, b1, i, j)
  {
    CountReplayCloses(t, b0, b1, i, j, t.height, 0, 0);
    PartialCountEnd(t, b0, b1, i, j);
  }
}
