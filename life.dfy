/** The generation rule of the dense grid (grid.h) on board values: the
    neighbourhood with its boundary policy, get_next_state_basic, and the
    exact result of one step of each of the three algorithms. */
module Life {
  import opened CellCodec

  datatype Option<T> = None | Some(value: T)

  /** The fixed shape of a grid: width, height and the cyclic flag. */
  datatype Topology = Topology(width: nat, height: nat, cyclic: bool)

  datatype Pos = Pos(y: int, x: int)

  /** A generation: rows y of cells x, one byte per cell. */
  type Board = seq<seq<Byte>>

  predicate Fits(t: Topology, b: Board)
  {
    |b| == t.height && forall y :: 0 <= y < |b| ==> |b[y]| == t.width
  }

  predicate InGrid(t: Topology, y: int, x: int)
  {
    0 <= y < t.height && 0 <= x < t.width
  }

  /** The nine cells of a 3x3 neighbourhood are numbered 0..8 row by row;
      offset 4 is the cell itself and offset 8 - k points back along k. */
  const SelfOffset := 4

  function Dy(k: int): int { if k < 3 then -1 else if k < 6 then 0 else 1 }
  function Dx(k: int): int
  {
    if k == 0 || k == 3 || k == 6 then -1 else if k == 1 || k == 4 || k == 7 then 0 else 1
  }

  /** A coordinate at most one step outside [0, n) brought back onto the torus. */
  function Wrap(i: int, n: nat): int
  {
    if i < 0 then i + n else if i >= n then i - n else i
  }

  /** Wrap is reduction modulo n for the coordinates it is applied to. */
  lemma WrapIsModulo(i: int, n: nat)
    requires n > 0 && -1 <= i <= n
    ensures Wrap(i, n) == i % n
  {
    if i < 0 {
      assert i == -1 && -1 == (-1) * n + (n - 1);
    } else if i >= n {
      assert i == n && n == 1 * n + 0;
    }
  }

  /** The cell at offset k from (y, x): wrapped on a cyclic grid; on a
      non-cyclic grid none when it falls outside the grid. */
  function Neighbour(t: Topology, y: int, x: int, k: int): (p: Option<Pos>)
    requires InGrid(t, y, x) && 0 <= k < 9
    ensures p.Some? ==> InGrid(t, p.value.y, p.value.x)
    ensures !t.cyclic ==> (p.Some? <==> InGrid(t, y + Dy(k), x + Dx(k)))
    ensures k == SelfOffset ==> p == Some(Pos(y, x))
    ensures !t.cyclic && InGrid(t, y + Dy(k), x + Dx(k)) ==> p == Some(Pos(y + Dy(k), x + Dx(k)))
  {
    var ny, nx := y + Dy(k), x + Dx(k);
    if t.cyclic then Some(Pos(Wrap(ny, t.height), Wrap(nx, t.width)))
    else if InGrid(t, ny, nx) then Some(Pos(ny, nx))
    else None
  }

  /** On a cyclic grid the k-th neighbour is the offset position reduced
      modulo the grid's height and width. */
  lemma NeighbourOnTorus(t: Topology, y: int, x: int, k: int)
    requires InGrid(t, y, x) && 0 <= k < 9 && t.cyclic
    ensures Neighbour(t, y, x, k) == Some(Pos((y + Dy(k)) % t.height, (x + Dx(k)) % t.width))
  {
    WrapIsModulo(y + Dy(k), t.height);
    WrapIsModulo(x + Dx(k), t.width);
  }

  /** Neighbourhood is symmetric: q is the k-th neighbour of p exactly when p
      is the (8 - k)-th neighbour of q. */
  lemma NeighbourSymmetric(t: Topology, p: Pos, q: Pos, k: int)
    requires InGrid(t, p.y, p.x) && InGrid(t, q.y, q.x) && 0 <= k < 9
    ensures Neighbour(t, p.y, p.x, k) == Some(q) <==> Neighbour(t, q.y, q.x, 8 - k) == Some(p)
  {
  }

  /** 1 when the k-th neighbour exists and is alive, else 0. */
  function AliveAt(t: Topology, b: Board, y: int, x: int, k: int): nat
    requires Fits(t, b) && InGrid(t, y, x) && 0 <= k < 9
  {
    match Neighbour(t, y, x, k)
    case None => 0
    case Some(p) => if IsAlive(b[p.y][p.x]) then 1 else 0
  }

  /** The number of live cells among the eight neighbours of (y, x). */
  function LiveNeighbours(t: Topology, b: Board, y: int, x: int): (n: nat)
    requires Fits(t, b) && InGrid(t, y, x)
    ensures n <= 8
  {
    AliveAt(t, b, y, x, 0) + AliveAt(t, b, y, x, 1) + AliveAt(t, b, y, x, 2)
    + AliveAt(t, b, y, x, 3) + AliveAt(t, b, y, x, 5)
    + AliveAt(t, b, y, x, 6) + AliveAt(t, b, y, x, 7) + AliveAt(t, b, y, x, 8)
  }

  /** Birth on 3, survival on 2 or 3. */
  predicate Rule(alive: bool, n: nat)
  {
    if alive then n == 2 || n == 3 else n == 3
  }

  /** get_next_state_basic: the next byte of one cell, counted over its neighbours. */
  function GetNextStateBasic(t: Topology, b: Board, y: int, x: int): (r: Byte)
    requires Fits(t, b) && InGrid(t, y, x)
    ensures r == StateMask || r == 0
    ensures IsAlive(r) <==>
      LiveNeighbours(t, b, y, x) == 3 || (IsAlive(b[y][x]) && LiveNeighbours(t, b, y, x) == 2)
  {
    if Rule(IsAlive(b[y][x]), LiveNeighbours(t, b, y, x)) then StateMask else 0
  }

  /** The alive/dead bitmap of a board: the only part of a generation that
      the three algorithms must agree on. */
  function Bitmap(t: Topology, b: Board): (m: seq<seq<bool>>)
    requires Fits(t, b)
    ensures |m| == t.height && forall y :: 0 <= y < t.height ==> |m[y]| == t.width
  {
    seq(t.height, y requires 0 <= y < t.height => seq(t.width, x requires 0 <= x < t.width => IsAlive(b[y][x])))
  }

  /** Two boards of the grid's shape with the same alive bitmap. */
  predicate SameAlive(t: Topology, a: Board, b: Board)
  {
    Fits(t, a) && Fits(t, b) && Bitmap(t, a) == Bitmap(t, b)
  }

  /** Boards agreeing on every alive bit have the same bitmap. */
  lemma SameAliveIntro(t: Topology, a: Board, b: Board)
    requires Fits(t, a) && Fits(t, b)
    requires forall y, x :: InGrid(t, y, x) ==> IsAlive(a[y][x]) == IsAlive(b[y][x])
    ensures SameAlive(t, a, b)
  {
    var ma, mb := Bitmap(t, a), Bitmap(t, b);
    forall y | 0 <= y < t.height
      ensures ma[y] == mb[y]
    {
      assert forall x :: 0 <= x < t.width ==> ma[y][x] == IsAlive(a[y][x]) == IsAlive(b[y][x]) == mb[y][x];
    }
  }

  /** Boards with the same bitmap agree on the alive bit of every cell. */
  lemma SameAliveAt(t: Topology, a: Board, b: Board, y: int, x: int)
    requires SameAlive(t, a, b) && InGrid(t, y, x)
    ensures IsAlive(a[y][x]) == IsAlive(b[y][x])
  {
    assert Bitmap(t, a)[y][x] == Bitmap(t, b)[y][x];
  }

  /** Builds a board of the grid's shape from a function of the cell. */
  function Tabulate(t: Topology, f: (int, int) -> Byte): (r: Board)
    ensures Fits(t, r)
    ensures forall y, x :: InGrid(t, y, x) ==> r[y][x] == f(y, x)
  {
    seq(t.height, y => seq(t.width, x => f(y, x)))
  }

  /** Boards of the grid's shape are equal when they agree cell by cell. */
  lemma BoardExtensionality(t: Topology, a: Board, b: Board)
    requires Fits(t, a) && Fits(t, b)
    requires forall y, x :: InGrid(t, y, x) ==> a[y][x] == b[y][x]
    ensures a == b
  {
    forall y | 0 <= y < t.height
      ensures a[y] == b[y]
    {
      assert forall x :: 0 <= x < t.width ==> a[y][x] == b[y][x];
    }
  }

  // ---------------------------------------------------------------------
  // BASIC

  /** The whole next generation under BASIC: every cell recounted. */
  function BasicStep(t: Topology, b: Board): (r: Board)
    requires Fits(t, b)
    ensures Fits(t, r)
  {
    Tabulate(t, (y, x) => if InGrid(t, y, x) then GetNextStateBasic(t, b, y, x) else 0)
  }

  /** A board holding get_next_state_basic at every cell is BASIC's next generation. */
  lemma BasicStepByCells(t: Topology, b: Board, r: Board)
    requires Fits(t, b) && Fits(t, r)
    requires forall y, x :: InGrid(t, y, x) ==> r[y][x] == GetNextStateBasic(t, b, y, x)
    ensures r == BasicStep(t, b)
  {
    BoardExtensionality(t, r, BasicStep(t, b));
  }

  /** BASIC's cell rule as in the design: new alive iff (dead and exactly 3
      live neighbours) or (alive and 2 or 3). */
  lemma BasicStepCell(t: Topology, b: Board, y: int, x: int)
    requires Fits(t, b) && InGrid(t, y, x)
    ensures IsAlive(BasicStep(t, b)[y][x]) <==>
      (!IsAlive(b[y][x]) && LiveNeighbours(t, b, y, x) == 3) ||
      (IsAlive(b[y][x]) && (LiveNeighbours(t, b, y, x) == 2 || LiveNeighbours(t, b, y, x) == 3))
    ensures BasicStep(t, b)[y][x] == if IsAlive(BasicStep(t, b)[y][x]) then StateMask else 0
  {
  }

  /** Neighbour counts only look at alive bits. */
  lemma {:induction false} LiveNeighboursSameAlive(t: Topology, a: Board, b: Board, y: int, x: int)
    requires SameAlive(t, a, b) && InGrid(t, y, x)
    ensures LiveNeighbours(t, a, y, x) == LiveNeighbours(t, b, y, x)
  {
    forall k | 0 <= k < 9
      ensures AliveAt(t, a, y, x, k) == AliveAt(t, b, y, x, k)
    {
      match Neighbour(t, y, x, k)
      case None =>
      case Some(p) => SameAliveAt(t, a, b, p.y, p.x);
    }
  }

  /** BASIC ignores everything but the alive bits of its input. */
  lemma BasicStepSameAlive(t: Topology, a: Board, b: Board)
    requires SameAlive(t, a, b)
    ensures BasicStep(t, a) == BasicStep(t, b)
  {
    var ra, rb := BasicStep(t, a), BasicStep(t, b);
    forall y, x | InGrid(t, y, x)
      ensures ra[y][x] == rb[y][x]
    {
      LiveNeighboursSameAlive(t, a, b, y, x);
      SameAliveAt(t, a, b, y, x);
      assert ra[y][x] == GetNextStateBasic(t, a, y, x);
      assert rb[y][x] == GetNextStateBasic(t, b, y, x);
    }
    BoardExtensionality(t, ra, rb);
  }

  // ---------------------------------------------------------------------
  // BASIC_DIFF

  /** BASIC_DIFF's invariant on the current generation: a cell whose check
      bit is clear would not change if it were recomputed. */
  ghost predicate DiffSound(t: Topology, b: Board)
    requires Fits(t, b)
  {
    forall y, x {:trigger LiveNeighbours(t, b, y, x)} :: InGrid(t, y, x) && !NeedsCheck(b[y][x]) ==>
      Rule(IsAlive(b[y][x]), LiveNeighbours(t, b, y, x)) == IsAlive(b[y][x])
  }

  /** First BASIC_DIFF pass at one cell: a checked cell is recomputed and its
      check bit consumed, an unchecked cell keeps its state; the changed bit
      records a flip. */
  function DiffRecompute(t: Topology, b: Board, y: int, x: int): (r: Byte)
    requires Fits(t, b) && InGrid(t, y, x)
    ensures !NeedsCheck(r) && Payload(r) == 0
    ensures HasChanged(r) <==> IsAlive(r) != IsAlive(b[y][x])
    ensures !NeedsCheck(b[y][x]) ==> IsAlive(r) == IsAlive(b[y][x])
    ensures NeedsCheck(b[y][x]) ==> IsAlive(r) == IsAlive(GetNextStateBasic(t, b, y, x))
  {
    var alive := if NeedsCheck(b[y][x]) then IsAlive(GetNextStateBasic(t, b, y, x)) else IsAlive(b[y][x]);
    Encode(Cell(alive, false, alive != IsAlive(b[y][x]), 0))
  }

  function DiffFirstPass(t: Topology, b: Board): (r: Board)
    requires Fits(t, b)
    ensures Fits(t, r)
  {
    Tabulate(t, (y, x) => if InGrid(t, y, x) then DiffRecompute(t, b, y, x) else 0)
  }

  lemma DiffFirstPassByCells(t: Topology, b: Board, r: Board)
    requires Fits(t, b) && Fits(t, r)
    requires forall y, x :: InGrid(t, y, x) ==> r[y][x] == DiffRecompute(t, b, y, x)
    ensures r == DiffFirstPass(t, b)
  {
    BoardExtensionality(t, r, DiffFirstPass(t, b));
  }

  /** The k-th cell of the 3x3 neighbourhood exists and has its changed bit set. */
  predicate ChangedAt(t: Topology, b: Board, y: int, x: int, k: int)
    requires Fits(t, b) && InGrid(t, y, x) && 0 <= k < 9
  {
    match Neighbour(t, y, x, k)
    case None => false
    case Some(p) => HasChanged(b[p.y][p.x])
  }

  /** Some cell of the 3x3 neighbourhood of (y, x), itself included, changed. */
  predicate HoodChanged(t: Topology, b: Board, y: int, x: int)
    requires Fits(t, b) && InGrid(t, y, x)
  {
    ChangedAt(t, b, y, x, 0) || ChangedAt(t, b, y, x, 1) || ChangedAt(t, b, y, x, 2)
    || ChangedAt(t, b, y, x, 3) || ChangedAt(t, b, y, x, 4) || ChangedAt(t, b, y, x, 5)
    || ChangedAt(t, b, y, x, 6) || ChangedAt(t, b, y, x, 7) || ChangedAt(t, b, y, x, 8)
  }

  /** Second BASIC_DIFF pass at one cell: checked when it or a neighbour flipped. */
  function DiffMark(t: Topology, b1: Board, y: int, x: int): Byte
    requires Fits(t, b1) && InGrid(t, y, x)
  {
    if HoodChanged(t, b1, y, x) then SetCheck(b1[y][x], true) else b1[y][x]
  }

  /** The whole next generation under BASIC_DIFF. */
  function DiffStep(t: Topology, b: Board): (r: Board)
    requires Fits(t, b)
    ensures Fits(t, r)
  {
    var b1 := DiffFirstPass(t, b);
    Tabulate(t, (y, x) => if InGrid(t, y, x) then DiffMark(t, b1, y, x) else 0)
  }

  /** Two passes cell by cell (recompute into b1, then mark around flips)
      give BASIC_DIFF's next generation. */
  lemma DiffStepByCells(t: Topology, b: Board, b1: Board, r: Board)
    requires Fits(t, b) && Fits(t, b1) && Fits(t, r)
    requires forall y, x :: InGrid(t, y, x) ==> b1[y][x] == DiffRecompute(t, b, y, x)
    requires forall y, x :: InGrid(t, y, x) ==> r[y][x] == DiffMark(t, b1, y, x)
    ensures r == DiffStep(t, b)
  {
    DiffFirstPassByCells(t, b, b1);
    BoardExtensionality(t, r, DiffStep(t, b));
  }

  /** Under DiffSound, BASIC_DIFF computes BASIC's alive bitmap. */
  lemma DiffAgreesWithBasic(t: Topology, b: Board)
    requires Fits(t, b) && DiffSound(t, b)
    ensures SameAlive(t, DiffStep(t, b), BasicStep(t, b))
  {
    SameAliveIntro(t, DiffStep(t, b), BasicStep(t, b));
  }

  /** A cell whose neighbourhood saw no flip recounts to the same number. */
  lemma {:induction false} QuietHoodSameCount(t: Topology, b: Board, b1: Board, y: int, x: int)
    requires Fits(t, b) && Fits(t, b1) && InGrid(t, y, x)
    requires forall i, j :: InGrid(t, i, j) ==> (HasChanged(b1[i][j]) <==> IsAlive(b1[i][j]) != IsAlive(b[i][j]))
    requires !HoodChanged(t, b1, y, x)
    ensures IsAlive(b1[y][x]) == IsAlive(b[y][x])
    ensures LiveNeighbours(t, b1, y, x) == LiveNeighbours(t, b, y, x)
  {
    forall k | 0 <= k < 9
      ensures AliveAt(t, b1, y, x, k) == AliveAt(t, b, y, x, k)
    {
      QuietNeighbourSame(t, b, b1, y, x, k);
    }
    QuietNeighbourSame(t, b, b1, y, x, SelfOffset);
  }

  /** One neighbour of a quiet neighbourhood: it did not change, so it is
      alive in b1 exactly when it was alive in b. */
  lemma QuietNeighbourSame(t: Topology, b: Board, b1: Board, y: int, x: int, k: int)
    requires Fits(t, b) && Fits(t, b1) && InGrid(t, y, x) && 0 <= k < 9
    requires forall i, j :: InGrid(t, i, j) ==> (HasChanged(b1[i][j]) <==> IsAlive(b1[i][j]) != IsAlive(b[i][j]))
    requires !ChangedAt(t, b1, y, x, k)
    ensures AliveAt(t, b1, y, x, k) == AliveAt(t, b, y, x, k)
    ensures k == SelfOffset ==> IsAlive(b1[y][x]) == IsAlive(b[y][x])
  {
  }

  /** BASIC_DIFF re-establishes its own invariant. */
  lemma DiffPreservesSound(t: Topology, b: Board)
    requires Fits(t, b) && DiffSound(t, b)
    ensures DiffSound(t, DiffStep(t, b))
  {
    var b1 := DiffFirstPass(t, b);
    var r := DiffStep(t, b);
    SameAliveIntro(t, r, b1);
    forall y, x | InGrid(t, y, x) && !NeedsCheck(r[y][x])
      ensures Rule(IsAlive(r[y][x]), LiveNeighbours(t, r, y, x)) == IsAlive(r[y][x])
    {
      assert r[y][x] == DiffMark(t, b1, y, x);
      assert !HoodChanged(t, b1, y, x);
      QuietHoodSameCount(t, b, b1, y, x);
      LiveNeighboursSameAlive(t, r, b1, y, x);
      assert IsAlive(b1[y][x]) == Rule(IsAlive(b[y][x]), LiveNeighbours(t, b, y, x));
    }
  }

  // ---------------------------------------------------------------------
  // NEIGHBOURS

  /** NEIGHBOURS's invariant: every payload holds the cell's live-neighbour count. */
  ghost predicate CountsValid(t: Topology, b: Board)
    requires Fits(t, b)
  {
    forall y, x {:trigger LiveNeighbours(t, b, y, x)} :: InGrid(t, y, x) ==> Payload(b[y][x]) == LiveNeighbours(t, b, y, x)
  }

  /** First NEIGHBOURS pass at one cell: the new state from the stored count,
      the count carried over, the changed bit recording a flip. */
  function NeighboursRecompute(t: Topology, b: Board, y: int, x: int): (r: Byte)
    requires Fits(t, b) && InGrid(t, y, x)
    ensures !NeedsCheck(r) && Payload(r) == Payload(b[y][x])
    ensures HasChanged(r) <==> IsAlive(r) != IsAlive(b[y][x])
    ensures IsAlive(r) <==> Payload(b[y][x]) == 3 || (IsAlive(b[y][x]) && Payload(b[y][x]) == 2)
  {
    var alive := Rule(IsAlive(b[y][x]), Payload(b[y][x]));
    Encode(Cell(alive, false, alive != IsAlive(b[y][x]), Payload(b[y][x])))
  }

  function NeighboursFirstPass(t: Topology, b: Board): (r: Board)
    requires Fits(t, b)
    ensures Fits(t, r)
  {
    Tabulate(t, (y, x) => if InGrid(t, y, x) then NeighboursRecompute(t, b, y, x) else 0)
  }

  lemma NeighboursFirstPassByCells(t: Topology, b: Board, r: Board)
    requires Fits(t, b) && Fits(t, r)
    requires forall y, x :: InGrid(t, y, x) ==> r[y][x] == NeighboursRecompute(t, b, y, x)
    ensures r == NeighboursFirstPass(t, b)
  {
    BoardExtensionality(t, r, NeighboursFirstPass(t, b));
  }

  /** The whole next generation under NEIGHBOURS: the first pass with every
      count brought up to date over the new alive bits. */
  function NeighboursStep(t: Topology, b: Board): (r: Board)
    requires Fits(t, b)
    ensures Fits(t, r)
  {
    var b1 := NeighboursFirstPass(t, b);
    Tabulate(t, (y, x) => if InGrid(t, y, x) then WithPayload(b1[y][x], LiveNeighbours(t, b1, y, x)) else 0)
  }

  /** Two passes cell by cell (recompute into b1, then bring every count up
      to date over b1) give NEIGHBOURS' next generation. */
  lemma NeighboursStepByCells(t: Topology, b: Board, b1: Board, r: Board)
    requires Fits(t, b) && Fits(t, b1) && Fits(t, r)
    requires forall y, x :: InGrid(t, y, x) ==> b1[y][x] == NeighboursRecompute(t, b, y, x)
    requires forall y, x :: InGrid(t, y, x) ==> r[y][x] == WithPayload(b1[y][x], LiveNeighbours(t, b1, y, x))
    ensures r == NeighboursStep(t, b)
  {
    NeighboursFirstPassByCells(t, b, b1);
    BoardExtensionality(t, r, NeighboursStep(t, b));
  }

  /** Under CountsValid, NEIGHBOURS computes BASIC's alive bitmap. */
  lemma NeighboursAgreesWithBasic(t: Topology, b: Board)
    requires Fits(t, b) && CountsValid(t, b)
    ensures SameAlive(t, NeighboursStep(t, b), BasicStep(t, b))
  {
    SameAliveIntro(t, NeighboursStep(t, b), BasicStep(t, b));
  }

  /** NEIGHBOURS re-establishes its own invariant. */
  lemma NeighboursPreservesCounts(t: Topology, b: Board)
    requires Fits(t, b) && CountsValid(t, b)
    ensures CountsValid(t, NeighboursStep(t, b))
  {
    var b1 := NeighboursFirstPass(t, b);
    var r := NeighboursStep(t, b);
    SameAliveIntro(t, r, b1);
    forall y, x | InGrid(t, y, x)
      ensures Payload(r[y][x]) == LiveNeighbours(t, r, y, x)
    {
      LiveNeighboursSameAlive(t, r, b1, y, x);
    }
  }

  // ---------------------------------------------------------------------
  // The three algorithms side by side

  /** The stepping strategy chosen at construction. */
  datatype Algorithm = Basic | BasicDiff | Neighbours

  /** What each algorithm needs of the current generation. */
  ghost predicate Invariant(t: Topology, alg: Algorithm, b: Board)
    requires Fits(t, b)
  {
    match alg
    case Basic => true
    case BasicDiff => DiffSound(t, b)
    case Neighbours => CountsValid(t, b)
  }

  /** grid_step on values: exactly one stepper, chosen by the tag. */
  function StepWith(t: Topology, alg: Algorithm, b: Board): (r: Board)
    requires Fits(t, b)
    ensures Fits(t, r)
  {
    match alg
    case Basic => BasicStep(t, b)
    case BasicDiff => DiffStep(t, b)
    case Neighbours => NeighboursStep(t, b)
  }

  /** One step under any algorithm gives BASIC's bitmap and keeps the
      algorithm's invariant. */
  lemma StepWithAgrees(t: Topology, alg: Algorithm, b: Board)
    requires Fits(t, b) && Invariant(t, alg, b)
    ensures SameAlive(t, StepWith(t, alg, b), BasicStep(t, b))
    ensures Invariant(t, alg, StepWith(t, alg, b))
  {
    match alg
    case Basic =>
    case BasicDiff =>
      DiffAgreesWithBasic(t, b);
      DiffPreservesSound(t, b);
    case Neighbours =>
      NeighboursAgreesWithBasic(t, b);
      NeighboursPreservesCounts(t, b);
  }

  /** The inductive step of AlgorithmsAgree. */
  lemma OneMoreGeneration(t: Topology, alg: Algorithm, r: Board, r0: Board)
    requires SameAlive(t, r, r0) && Invariant(t, alg, r)
    ensures SameAlive(t, StepWith(t, alg, r), StepWith(t, Basic, r0))
    ensures Invariant(t, alg, StepWith(t, alg, r))
  {
    StepWithAgrees(t, alg, r);
    BasicStepSameAlive(t, r, r0);
  }

  /** n generations under one algorithm. */
  function Run(t: Topology, alg: Algorithm, b: Board, n: nat): (r: Board)
    requires Fits(t, b)
    ensures Fits(t, r)
  {
    if n == 0 then b else StepWith(t, alg, Run(t, alg, b, n - 1))
  }

  /** Differential equivalence: started from boards with the same alive
      bitmap, each satisfying its algorithm's invariant, every algorithm
      shows BASIC's bitmap at every generation. */
  lemma {:induction false} AlgorithmsAgree(t: Topology, alg: Algorithm, b: Board, b0: Board, n: nat)
    requires SameAlive(t, b, b0) && Invariant(t, alg, b)
    ensures SameAlive(t, Run(t, alg, b, n), Run(t, Basic, b0, n))
    ensures Invariant(t, alg, Run(t, alg, b, n))
  {
    if n > 0 {
      AlgorithmsAgree(t, alg, b, b0, n - 1);
      OneMoreGeneration(t, alg, Run(t, alg, b, n - 1), Run(t, Basic, b0, n - 1));
    }
  }

  /** The all-zero board: every cell dead, clean and unchanged. */
  function DeadBoard(t: Topology): (r: Board)
    ensures Fits(t, r)
    ensures forall y, x :: InGrid(t, y, x) ==> r[y][x] == 0
    ensures forall y, x :: InGrid(t, y, x) ==> !IsAlive(r[y][x])
  {
    Tabulate(t, (y, x) => 0)
  }

  /** A board with no live cell satisfies every algorithm's invariant, and
      every algorithm leaves it with no live cell. */
  lemma {:induction false} DeadBoardStaysDead(t: Topology, alg: Algorithm, b: Board)
    requires Fits(t, b)
    requires forall y, x :: InGrid(t, y, x) ==> b[y][x] == 0
    ensures Invariant(t, alg, b)
    ensures forall y, x :: InGrid(t, y, x) ==> !IsAlive(StepWith(t, alg, b)[y][x])
  {
    forall y, x | InGrid(t, y, x)
      ensures LiveNeighbours(t, b, y, x) == 0
    {
      forall k | 0 <= k < 9
        ensures AliveAt(t, b, y, x, k) == 0
      {
      }
    }
    StepWithAgrees(t, alg, b);
  }
}
