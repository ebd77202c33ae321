/** The dense grid engine (grid.h): a Grid owns two height x width buffers
    of cell bytes, data (the generation shown) and dataPrev (the one before);
    each step writes the next generation over dataPrev and swaps the two. */
module GridEngine {
  import opened CellCodec
  import opened Life
  import opened Propagation

  /** A buffer read as a board value. */
  function Cells(a: array2<Byte>): (b: Board)
    reads a
    ensures |b| == a.Length0 && forall y :: 0 <= y < a.Length0 ==> |b[y]| == a.Length1
    ensures forall y, x :: 0 <= y < a.Length0 && 0 <= x < a.Length1 ==> b[y][x] == a[y, x]
  {
    seq(a.Length0, y requires 0 <= y < a.Length0 reads a =>
      seq(a.Length1, x requires 0 <= x < a.Length1 reads a => a[y, x]))
  }

  /** The first pass of every stepper: each cell of the buffer, row by row,
      overwritten with the per-cell rule f. */
  method FillCells(a: array2<Byte>, f: (int, int) -> Byte)
    modifies a
    ensures forall i, j :: 0 <= i < a.Length0 && 0 <= j < a.Length1 ==> a[i, j] == f(i, j)
  {
    var y := 0;
    while y < a.Length0
      invariant 0 <= y <= a.Length0
      invariant forall i, j :: 0 <= i < y && 0 <= j < a.Length1 ==> a[i, j] == f(i, j)
    {
      var x := 0;
      while x < a.Length1
        invariant 0 <= x <= a.Length1
        invariant forall i, j :: 0 <= i < y && 0 <= j < a.Length1 ==> a[i, j] == f(i, j)
        invariant forall j :: 0 <= j < x ==> a[y, j] == f(y, j)
      {
        a[y, x] := f(y, x);
        x := x + 1;
      }
      y := y + 1;
    }
  }

  // ---------------------------------------------------------------------
  // BASIC_DIFF's second pass: every flipped cell sets the check bit of the
  // nine cells of its neighbourhood, itself included.

  /** The buffer cell (i, j) once the pass has reached cursor (y, x, k). */
  ghost function MarkedCell(t: Topology, b1: Board, i: int, j: int, y: int, x: int, k: int): Byte
    requires Fits(t, b1) && InGrid(t, i, j) && OnPass(t, y, x, k)
  {
    if MarkedReplay(t, b1, i, j, y, x, k) then SetCheck(b1[i][j], true) else b1[i][j]
  }

  /** The buffer holds b1 with the marks the pass has made up to cursor (y, x, k). */
  ghost predicate MarksAt(t: Topology, b1: Board, a: array2<Byte>, y: int, x: int, k: int)
    reads a
    requires Fits(t, b1) && a.Length0 == t.height && a.Length1 == t.width
    requires OnPass(t, y, x, k)
  {
    forall i, j :: InGrid(t, i, j) ==> a[i, j] == MarkedCell(t, b1, i, j, y, x, k)
  }

  /** The mark set by the flipped cell (y, x) through offset k. */
  method MarkOne(t: Topology, ghost b1: Board, a: array2<Byte>, y: int, x: int, k: int)
    requires Fits(t, b1) && a.Length0 == t.height && a.Length1 == t.width
    requires InGrid(t, y, x) && HasChanged(b1[y][x]) && 0 <= k < 9
    requires MarksAt(t, b1, a, y, x, k)
    modifies a
    ensures MarksAt(t, b1, a, y, x, k + 1)
  {
    var q := Neighbour(t, y, x, k);
    if q.Some? {
      a[q.value.y, q.value.x] := SetCheck(a[q.value.y, q.value.x], true);
    }
  }

  /** The marks set by the flipped cell (y, x), offset by offset. */
  method MarkAround(t: Topology, ghost b1: Board, a: array2<Byte>, y: int, x: int)
    requires Fits(t, b1) && a.Length0 == t.height && a.Length1 == t.width
    requires InGrid(t, y, x) && HasChanged(b1[y][x])
    requires MarksAt(t, b1, a, y, x, 0)
    modifies a
    ensures MarksAt(t, b1, a, y, x, 9)
  {
    var k := 0;
    while k < 9
      invariant 0 <= k <= 9
      invariant MarksAt(t, b1, a, y, x, k)
    {
      MarkOne(t, b1, a, y, x, k);
      k := k + 1;
    }
  }

  /** The whole second pass over b1, the result of the first. */
  method MarkAll(t: Topology, ghost b1: Board, a: array2<Byte>)
    requires Fits(t, b1) && a.Length0 == t.height && a.Length1 == t.width
    requires forall i, j :: InGrid(t, i, j) ==> a[i, j] == b1[i][j]
    modifies a
    ensures forall i, j :: InGrid(t, i, j) ==> a[i, j] == DiffMark(t, b1, i, j)
  {
    var y := 0;
    while y < t.height
      invariant 0 <= y <= t.height
      invariant MarksAt(t, b1, a, y, 0, 0)
    {
      var x := 0;
      while x < t.width
        invariant 0 <= x <= t.width
        invariant MarksAt(t, b1, a, y, x, 0)
      {
        if HasChanged(a[y, x]) {
          MarkAround(t, b1, a, y, x);
        }
        x := x + 1;
      }
      y := y + 1;
    }
    forall i, j | InGrid(t, i, j) { MarkedReplayComplete(t, b1, i, j); }
  }

  // ---------------------------------------------------------------------
  // NEIGHBOURS' second pass: every flipped cell adds one to (when born) or
  // takes one from (when it died) the count of each of its eight neighbours.

  /** The buffer holds b1's flags and, as payload, the count the pass has
      reached at cursor (y, x, k). */
  ghost predicate CountsAt(t: Topology, b0: Board, b1: Board, a: array2<Byte>, y: int, x: int, k: int)
    reads a
    requires Fits(t, b0) && Fits(t, b1) && a.Length0 == t.height && a.Length1 == t.width
    requires OnPass(t, y, x, k)
  {
    forall i, j :: InGrid(t, i, j) ==>
      SameFlags(a[i, j], b1[i][j]) && Payload(a[i, j]) == CountReplay(t, b0, b1, i, j, y, x, k)
  }

  /** The adjustment pushed by the flipped cell (y, x) through offset k. */
  method AdjustOne(t: Topology, ghost b0: Board, ghost b1: Board, a: array2<Byte>, y: int, x: int, k: int, born: bool)
    requires Fits(t, b0) && Fits(t, b1) && a.Length0 == t.height && a.Length1 == t.width
    requires InGrid(t, y, x) && FlipsMarked(t, b0, b1) && HasChanged(b1[y][x])
    requires 0 <= k < 9 && born == IsAlive(b1[y][x])
    requires CountsAt(t, b0, b1, a, y, x, k)
    modifies a
    ensures CountsAt(t, b0, b1, a, y, x, k + 1)
  {
    var q := Neighbour(t, y, x, k);
    ghost var before := Cells(a);
    if k != SelfOffset && q.Some? {
      var p := q.value;
      CountReplayBounds(t, b0, b1, p.y, p.x, y, x, k + 1);
      if born {
        a[p.y, p.x] := IncPayload(a[p.y, p.x]);
      } else {
        a[p.y, p.x] := DecPayload(a[p.y, p.x]);
      }
    }
    forall i, j | InGrid(t, i, j)
      ensures SameFlags(a[i, j], b1[i][j]) && Payload(a[i, j]) == CountReplay(t, b0, b1, i, j, y, x, k + 1)
    {
      CountReplayStepByte(t, b0, b1, i, j, y, x, k, q, before[i][j], a[i, j]);
    }
  }

  /** The adjustments pushed by the flipped cell (y, x), offset by offset. */
  method AdjustAround(t: Topology, ghost b0: Board, ghost b1: Board, a: array2<Byte>, y: int, x: int)
    requires Fits(t, b0) && Fits(t, b1) && a.Length0 == t.height && a.Length1 == t.width
    requires InGrid(t, y, x) && FlipsMarked(t, b0, b1) && HasChanged(b1[y][x])
    requires CountsAt(t, b0, b1, a, y, x, 0)
    modifies a
    ensures CountsAt(t, b0, b1, a, y, x, 9)
  {
    var born := IsAlive(a[y, x]);
    var k := 0;
    while k < 9
      invariant 0 <= k <= 9
      invariant CountsAt(t, b0, b1, a, y, x, k)
    {
      AdjustOne(t, b0, b1, a, y, x, k, born);
      k := k + 1;
    }
  }

  /** The whole second pass over b1, the result of the first pass from b0,
      whose payloads still hold b0's counts. */
  method AdjustAll(t: Topology, ghost b0: Board, ghost b1: Board, a: array2<Byte>)
    requires Fits(t, b0) && Fits(t, b1) && a.Length0 == t.height && a.Length1 == t.width
    requires FlipsMarked(t, b0, b1)
    requires forall i, j :: InGrid(t, i, j) ==> Payload(b1[i][j]) == LiveNeighbours(t, b0, i, j)
    requires forall i, j :: InGrid(t, i, j) ==> a[i, j] == b1[i][j]
    modifies a
    ensures forall i, j :: InGrid(t, i, j) ==> a[i, j] == WithPayload(b1[i][j], LiveNeighbours(t, b1, i, j))
  {
    var y := 0;
    while y < t.height
      invariant 0 <= y <= t.height
      invariant CountsAt(t, b0, b1, a, y, 0, 0)
    {
      AdjustRow(t, b0, b1, a, y);
      y := y + 1;
    }
    CountsComplete(t, b0, b1, Cells(a));
  }

  /** The adjustments pushed by the flipped cells of row y, left to right. */
  method AdjustRow(t: Topology, ghost b0: Board, ghost b1: Board, a: array2<Byte>, y: int)
    requires Fits(t, b0) && Fits(t, b1) && a.Length0 == t.height && a.Length1 == t.width
    requires FlipsMarked(t, b0, b1) && 0 <= y < t.height
    requires CountsAt(t, b0, b1, a, y, 0, 0)
    modifies a
    ensures CountsAt(t, b0, b1, a, y + 1, 0, 0)
  {
    var x := 0;
    while x < t.width
      invariant 0 <= x <= t.width
      invariant CountsAt(t, b0, b1, a, y, x, 0)
    {
      if HasChanged(a[y, x]) {
        AdjustAround(t, b0, b1, a, y, x);
      }
      CountsNextCell(t, b0, b1, a, y, x);
      x := x + 1;
    }
    CountsNextRow(t, b0, b1, a, y);
  }

  /** Past cell (y, x): a flipped cell is left after offset 9, any other untouched. */
  lemma CountsNextCell(t: Topology, b0: Board, b1: Board, a: array2<Byte>, y: int, x: int)
    requires Fits(t, b0) && Fits(t, b1) && a.Length0 == t.height && a.Length1 == t.width
    requires InGrid(t, y, x)
    requires CountsAt(t, b0, b1, a, y, x, if HasChanged(b1[y][x]) then 9 else 0)
    ensures CountsAt(t, b0, b1, a, y, x + 1, 0)
  {
  }

  /** Past the end of row y. */
  lemma CountsNextRow(t: Topology, b0: Board, b1: Board, a: array2<Byte>, y: int)
    requires Fits(t, b0) && Fits(t, b1) && a.Length0 == t.height && a.Length1 == t.width
    requires 0 <= y < t.height
    requires CountsAt(t, b0, b1, a, y, t.width, 0)
    ensures CountsAt(t, b0, b1, a, y + 1, 0, 0)
  {
  }

  /** A board holding b1's flags and the counts of the finished pass holds
      b1 with every count brought up to date. */
  lemma CountsComplete(t: Topology, b0: Board, b1: Board, r: Board)
    requires Fits(t, b0) && Fits(t, b1) && Fits(t, r) && FlipsMarked(t, b0, b1)
    requires forall i, j :: InGrid(t, i, j) ==>
      SameFlags(r[i][j], b1[i][j]) && Payload(r[i][j]) == CountReplay(t, b0, b1, i, j, t.height, 0, 0)
    ensures forall i, j :: InGrid(t, i, j) ==> r[i][j] == WithPayload(b1[i][j], LiveNeighbours(t, b1, i, j))
  {
    forall i, j | InGrid(t, i, j)
      ensures r[i][j] == WithPayload(b1[i][j], LiveNeighbours(t, b1, i, j))
    {
      CountReplayComplete(t, b0, b1, i, j);
      FieldsDetermineByte(r[i][j], WithPayload(b1[i][j], LiveNeighbours(t, b1, i, j)));
    }
  }

  /** NEIGHBOURS' first pass leaves what its second pass starts from: the
      changed bits mark the flips and the payloads still hold the old counts. */
  lemma NeighboursFirstPassReady(t: Topology, b: Board, b1: Board)
    requires Fits(t, b) && Fits(t, b1) && CountsValid(t, b)
    requires forall y, x :: InGrid(t, y, x) ==> b1[y][x] == NeighboursRecompute(t, b, y, x)
    ensures FlipsMarked(t, b, b1)
    ensures forall i, j :: InGrid(t, i, j) ==> Payload(b1[i][j]) == LiveNeighbours(t, b, i, j)
  {
  }

  // ---------------------------------------------------------------------

  class Grid {
    const width: nat
    const height: nat
    const cyclic: bool
    /** The stepping strategy, chosen once at construction. */
    const algorithm: Algorithm
    /** Row-major buffers: data[y, x] is the cell in row y, column x. */
    var data: array2<Byte>
    var dataPrev: array2<Byte>

    function Topo(): Topology
    {
      Topology(width, height, cyclic)
    }

    ghost predicate Valid()
      reads this
    {
      data != dataPrev
      && data.Length0 == height && data.Length1 == width
      && dataPrev.Length0 == height && dataPrev.Length1 == width
    }

    /** The generation the grid shows. */
    function Current(): (b: Board)
      reads this, data
      requires Valid()
      ensures Fits(Topo(), b)
    {
      Cells(data)
    }

    /** The generation before it. */
    function Previous(): (b: Board)
      reads this, dataPrev
      requires Valid()
      ensures Fits(Topo(), b)
    {
      Cells(dataPrev)
    }

    /** The current generation satisfies what the chosen algorithm relies on. */
    ghost predicate AlgorithmReady()
      reads this, data
      requires Valid()
    {
      Invariant(Topo(), algorithm, Current())
    }

    /** grid_init: both buffers allocated and zeroed, so every cell is dead,
        clean and unchanged. */
    constructor (w: nat, h: nat, c: bool, a: Algorithm)
      ensures width == w && height == h && cyclic == c && algorithm == a
      ensures Valid() && fresh(data) && fresh(dataPrev)
      ensures Current() == DeadBoard(Topo()) && Previous() == DeadBoard(Topo())
      ensures AlgorithmReady()
    {
      width, height, cyclic, algorithm := w, h, c, a;
      data := new Byte[h, w]((y, x) => 0);
      dataPrev := new Byte[h, w]((y, x) => 0);
      new;
      BoardExtensionality(Topo(), Current(), DeadBoard(Topo()));
      BoardExtensionality(Topo(), Previous(), DeadBoard(Topo()));
      DeadBoardStaysDead(Topo(), algorithm, Current());
    }

    /** grid_clear: every cell of both buffers dead, clean and unchanged. */
    method Clear()
      requires Valid()
      modifies data, dataPrev
      ensures Valid()
      ensures Current() == DeadBoard(Topo()) && Previous() == DeadBoard(Topo())
      ensures AlgorithmReady()
    {
      FillCells(data, (y, x) => 0);
      FillCells(dataPrev, (y, x) => 0);
      BoardExtensionality(Topo(), Current(), DeadBoard(Topo()));
      BoardExtensionality(Topo(), Previous(), DeadBoard(Topo()));
      DeadBoardStaysDead(Topo(), algorithm, Current());
    }

    /** grid_step_basic: every cell recounted into dataPrev, then the swap. */
    method StepBasic()
      requires Valid()
      modifies this, dataPrev
      ensures Valid() && data == old(dataPrev) && dataPrev == old(data)
      ensures Current() == BasicStep(Topo(), old(Current()))
      ensures Previous() == old(Current())
    {
      var t, cur, next := Topo(), Current(), dataPrev;
      FillCells(next, (y, x) => if InGrid(t, y, x) then GetNextStateBasic(t, cur, y, x) else 0);
      BasicStepByCells(t, cur, Cells(next));
      data, dataPrev := next, data;
    }

    /** grid_step_basic_diff: only checked cells are recounted (their check
        bit is consumed and their changed bit records a flip); then every
        flipped cell sets the check bit of itself and its eight neighbours;
        then the swap. */
    method StepBasicDiff()
      requires Valid()
      modifies this, dataPrev
      ensures Valid() && data == old(dataPrev) && dataPrev == old(data)
      ensures Current() == DiffStep(Topo(), old(Current()))
      ensures Previous() == old(Current())
    {
      var t, cur, next := Topo(), Current(), dataPrev;
      FillCells(next, (y, x) => if InGrid(t, y, x) then DiffRecompute(t, cur, y, x) else 0);
      ghost var b1 := Cells(next);
      MarkAll(t, b1, next);
      DiffStepByCells(t, cur, b1, Cells(next));
      data, dataPrev := next, data;
    }

    /** grid_step_neighbours: every cell's new state read off its stored
        count (the changed bit records a flip), then every flipped cell
        adjusts its eight neighbours' counts, then the swap. Relies on the
        stored counts being right. */
    method StepNeighbours()
      requires Valid() && CountsValid(Topo(), Current())
      modifies this, dataPrev
      ensures Valid() && data == old(dataPrev) && dataPrev == old(data)
      ensures Current() == NeighboursStep(Topo(), old(Current()))
      ensures Previous() == old(Current())
    {
      var t, cur, next := Topo(), Current(), dataPrev;
      FillCells(next, (y, x) => if InGrid(t, y, x) then NeighboursRecompute(t, cur, y, x) else 0);
      ghost var b1 := Cells(next);
      NeighboursFirstPassReady(t, cur, b1);
      AdjustAll(t, cur, b1, next);
      NeighboursStepByCells(t, cur, b1, Cells(next));
      data, dataPrev := next, data;
    }

    /** grid_step: the stepper the grid was built with. Whatever it is, the
        new alive bitmap is BASIC's and the algorithm's invariant still holds. */
    method Step()
      requires Valid() && AlgorithmReady()
      modifies this, dataPrev
      ensures Valid() && data == old(dataPrev) && dataPrev == old(data)
      ensures Current() == StepWith(Topo(), algorithm, old(Current()))
      ensures Previous() == old(Current())
      ensures SameAlive(Topo(), Current(), BasicStep(Topo(), old(Current())))
      ensures AlgorithmReady()
    {
      ghost var before := Current();
      if algorithm == Basic {
        StepBasic();
      } else if algorithm == BasicDiff {
        StepBasicDiff();
      } else {
        StepNeighbours();
      }
      StepWithAgrees(Topo(), algorithm, before);
    }
  }
}
