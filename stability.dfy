/**
 * Stable and semi-stable disks, the masks the stability score of
 * src/minimax.cpp is built from.
 *
 * A mask is an 8x8 grid of flags indexed [column][row] like the board.  The
 * stable disks are defined here as the least mask that contains the disks
 * in a full row, column and diagonals and is closed under "all four axes
 * are guarded by the board edge or a stable disk of the same colour"; it is
 * reached by iterating that rule, and stable_disks' in-place passes are
 * proved to compute exactly it.  The semi-stable disks are the occupied
 * squares no move of either player changes.
 */
module Stability {
  import opened Sums
  import opened Board

  type Mask = g: seq<seq<bool>> | |g| == Size && forall x :: 0 <= x < |g| ==> |g[x]| == Size
    witness seq(Size, _ => seq(Size, _ => false))

  /** s with the flag at (x, y) set to v. */
  function SetFlag(s: Mask, x: int, y: int, v: bool): (t: Mask)
    requires 0 <= x < Size && 0 <= y < Size
    ensures t[x][y] == v
    ensures forall i, j :: 0 <= i < Size && 0 <= j < Size && (i, j) != (x, y) ==> t[i][j] == s[i][j]
  {
    s[x := s[x][y := v]]
  }

  /** Every flag of s is set in t. */
  predicate Sub(s: Mask, t: Mask)
  {
    forall x, y :: 0 <= x < Size && 0 <= y < Size && s[x][y] ==> t[x][y]
  }

  lemma MasksEqual(s: Mask, t: Mask)
    requires Sub(s, t) && Sub(t, s)
    ensures s == t
  {
    forall x | 0 <= x < Size
      ensures s[x] == t[x]
    {
      assert forall y :: 0 <= y < Size ==> s[x][y] == t[x][y];
    }
  }

  /** Only occupied squares are flagged. */
  predicate OnlyOccupied(b: Board, s: Mask)
  {
    forall x, y :: 0 <= x < Size && 0 <= y < Size && s[x][y] ==> b[x][y] != Empty
  }

  /** 1 on the flagged squares, 0 elsewhere. */
  function Flagged(s: Mask): (int, int) -> int
  {
    (x: int, y: int) => if 0 <= x < Size && 0 <= y < Size && s[x][y] then 1 else 0
  }

  /** The number of flagged squares. */
  function Marked(s: Mask): int
  {
    GridSum(Flagged(s), Size, Size)
  }

  lemma MarkedBounds(s: Mask)
    ensures 0 <= Marked(s) <= Size * Size
  {
    var f := Flagged(s);
    forall x, y | 0 <= x < Size && 0 <= y < Size
      ensures 0 <= f(x, y) <= 1
    {
    }
    GridSumBounds(f, Size, Size, 0, 1);
  }

  /** A larger mask flags at least as many squares. */
  lemma MarkedMono(s: Mask, t: Mask)
    requires Sub(s, t)
    ensures Marked(s) <= Marked(t)
  {
    GridSumMono(Flagged(t), Flagged(s), Size, Size, -1, -1);
  }

  /** ... and strictly more when it also flags a square (x, y) that s does not. */
  lemma MarkedGrows(s: Mask, t: Mask, x: int, y: int)
    requires Sub(s, t) && 0 <= x < Size && 0 <= y < Size && !s[x][y] && t[x][y]
    ensures Marked(s) < Marked(t)
  {
    GridSumMono(Flagged(t), Flagged(s), Size, Size, x, y);
  }

  // ---------------------------------------------------------------------
  // in_full_row, is_edge, neighbours_stable
  // ---------------------------------------------------------------------

  /**
   * in_full_row: the column x, the row y and both diagonals through (x, y)
   * hold no empty square.
   */
  predicate InFullRow(b: Board, x: int, y: int)
    requires 0 <= x < Size && 0 <= y < Size
  {
    (forall i :: 0 <= i < Size ==> b[i][y] != Empty) &&
    (forall i :: 0 <= i < Size ==> b[x][i] != Empty) &&
    (forall i, j :: 0 <= i < Size && 0 <= j < Size && i - j == x - y ==> b[i][j] != Empty) &&
    (forall i, j :: 0 <= i < Size && 0 <= j < Size && i + j == x + y ==> b[i][j] != Empty)
  }

  /** is_edge: (x, y) lies outside the board. */
  predicate IsEdge(x: int, y: int)
  {
    x < 0 || x >= Size || y < 0 || y >= Size
  }

  lemma IsEdgeIsOffBoard(x: int, y: int)
    ensures IsEdge(x, y) <==> !OnBoard(Move(x, y))
  {
  }

  /** The four axes neighbours_stable checks, as the offsets it stores. */
  const Axes: seq<(int, int)> := [(-1, -1), (0, -1), (1, -1), (1, 0)]

  /**
   * Along axis d, one of the two neighbours of (x, y) is off the board or
   * a flagged disk of p.  The flags and the board are only read at
   * neighbours the earlier disjuncts have shown to be on the board.
   */
  predicate AxisGuarded(b: Board, s: Mask, x: int, y: int, d: (int, int), p: Player)
  {
    IsEdge(x + d.0, y + d.1) || IsEdge(x - d.0, y - d.1) ||
    (s[x + d.0][y + d.1] && b[x + d.0][y + d.1] == p) ||
    (s[x - d.0][y - d.1] && b[x - d.0][y - d.1] == p)
  }

  /** neighbours_stable: every axis through (x, y) is guarded. */
  predicate NeighboursStable(b: Board, s: Mask, x: int, y: int, p: Player)
  {
    forall i :: 0 <= i < |Axes| ==> AxisGuarded(b, s, x, y, Axes[i], p)
  }

  /** More flags guard more axes. */
  lemma NeighboursStableMono(b: Board, s: Mask, t: Mask, x: int, y: int, p: Player)
    requires Sub(s, t) && NeighboursStable(b, s, x, y, p)
    ensures NeighboursStable(b, t, x, y, p)
  {
    forall i | 0 <= i < |Axes|
      ensures AxisGuarded(b, t, x, y, Axes[i], p)
    {
      assert AxisGuarded(b, s, x, y, Axes[i], p);
    }
  }

  // ---------------------------------------------------------------------
  // The stable disks as a least fixpoint
  // ---------------------------------------------------------------------

  /** The disks stable_disks starts from: those in a full row. */
  function Seed(b: Board): (s: Mask)
    ensures forall x, y :: 0 <= x < Size && 0 <= y < Size ==> s[x][y] == InFullRow(b, x, y)
  {
    seq(Size, x requires 0 <= x < Size => seq(Size, y requires 0 <= y < Size => InFullRow(b, x, y)))
  }

  /** The flag one pass of the rule gives (x, y). */
  predicate Promoted(b: Board, s: Mask, x: int, y: int)
    requires 0 <= x < Size && 0 <= y < Size
  {
    s[x][y] || (b[x][y] != Empty && NeighboursStable(b, s, x, y, b[x][y]))
  }

  /** One application of the rule to every square at once. */
  function Step(b: Board, s: Mask): (t: Mask)
    ensures forall x, y :: 0 <= x < Size && 0 <= y < Size ==> t[x][y] == Promoted(b, s, x, y)
  {
    seq(Size, x requires 0 <= x < Size => seq(Size, y requires 0 <= y < Size => Promoted(b, s, x, y)))
  }

  /** s admits no further stable disk: no unflagged disk has all its axes guarded. */
  predicate Closed(b: Board, s: Mask)
  {
    forall x, y :: 0 <= x < Size && 0 <= y < Size && b[x][y] != Empty && !s[x][y] ==>
      !NeighboursStable(b, s, x, y, b[x][y])
  }

  /** The rule applied n times. */
  function Iterate(b: Board, s: Mask, n: nat): Mask
    decreases n
  {
    if n == 0 then s else Iterate(b, Step(b, s), n - 1)
  }

  /** The stable disks: the rule applied until nothing changes (65 times is always enough). */
  function StableGrid(b: Board): Mask
  {
    Iterate(b, Seed(b), Size * Size + 1)
  }

  lemma StepGrows(b: Board, s: Mask)
    ensures Sub(s, Step(b, s))
  {
  }

  lemma StepKeepsOccupied(b: Board, s: Mask)
    requires OnlyOccupied(b, s)
    ensures OnlyOccupied(b, Step(b, s))
  {
  }

  /** The rule keeps inside every closed mask that contains its input. */
  lemma StepLeast(b: Board, s: Mask, t: Mask)
    requires Sub(s, t) && Closed(b, t)
    ensures Sub(Step(b, s), t)
  {
    forall x, y | 0 <= x < Size && 0 <= y < Size && Step(b, s)[x][y]
      ensures t[x][y]
    {
      if !s[x][y] && !t[x][y] {
        NeighboursStableMono(b, s, t, x, y, b[x][y]);
      }
    }
  }

  /** A closed mask is a fixpoint of the rule. */
  lemma ClosedFixed(b: Board, s: Mask)
    requires Closed(b, s)
    ensures Step(b, s) == s
  {
    StepGrows(b, s);
    MasksEqual(Step(b, s), s);
  }

  lemma {:induction false} IterateFixed(b: Board, s: Mask, n: nat)
    requires Step(b, s) == s
    ensures Iterate(b, s, n) == s
    decreases n
  {
    if n > 0 {
      IterateFixed(b, s, n - 1);
    }
  }

  lemma {:induction false} IterateGrows(b: Board, s: Mask, n: nat)
    ensures Sub(s, Iterate(b, s, n))
    decreases n
  {
    if n > 0 {
      StepGrows(b, s);
      IterateGrows(b, Step(b, s), n - 1);
    }
  }

  lemma {:induction false} IterateKeepsOccupied(b: Board, s: Mask, n: nat)
    requires OnlyOccupied(b, s)
    ensures OnlyOccupied(b, Iterate(b, s, n))
    decreases n
  {
    if n > 0 {
      StepKeepsOccupied(b, s);
      IterateKeepsOccupied(b, Step(b, s), n - 1);
    }
  }

  /** Iterating stays inside every closed mask that contains the start. */
  lemma {:induction false} IterateLeast(b: Board, s: Mask, t: Mask, n: nat)
    requires Sub(s, t) && Closed(b, t)
    ensures Sub(Iterate(b, s, n), t)
    decreases n
  {
    if n > 0 {
      StepLeast(b, s, t);
      IterateLeast(b, Step(b, s), t, n - 1);
    }
  }

  /** Once closed, a mask stays closed. */
  lemma ClosedStays(b: Board, s: Mask, n: nat)
    ensures Closed(b, s) ==> Closed(b, Iterate(b, s, n))
  {
    if Closed(b, s) {
      ClosedFixed(b, s);
      IterateFixed(b, s, n);
    }
  }

  /** Until the mask is closed, every application of the rule flags one more square. */
  lemma {:induction false} IterateCounts(b: Board, s: Mask, n: nat)
    requires !Closed(b, Iterate(b, s, n))
    ensures Marked(Iterate(b, s, n)) >= Marked(s) + n
    decreases n
  {
    if n > 0 {
      var t := Step(b, s);
      assert Iterate(b, s, n) == Iterate(b, t, n - 1);
      IterateCounts(b, t, n - 1);
      ClosedStays(b, s, n);
      StepCounts(b, s);
    }
  }

  /** One application of the rule to a mask that is not closed flags one more square. */
  lemma StepCounts(b: Board, s: Mask)
    requires !Closed(b, s)
    ensures Marked(Step(b, s)) >= Marked(s) + 1
  {
    var x, y :| 0 <= x < Size && 0 <= y < Size && b[x][y] != Empty && !s[x][y] &&
      NeighboursStable(b, s, x, y, b[x][y]);
    StepGrows(b, s);
    MarkedGrows(s, Step(b, s), x, y);
  }

  /** After 65 applications the mask is closed, so a fixpoint. */
  lemma StableGridClosed(b: Board)
    ensures Closed(b, StableGrid(b))
  {
    if !Closed(b, StableGrid(b)) {
      IterateCounts(b, Seed(b), Size * Size + 1);
      MarkedBounds(Seed(b));
      MarkedBounds(StableGrid(b));
    }
  }

  lemma StableGridFixed(b: Board)
    ensures Step(b, StableGrid(b)) == StableGrid(b)
  {
    StableGridClosed(b);
    ClosedFixed(b, StableGrid(b));
  }

  lemma SeedOccupied(b: Board)
    ensures OnlyOccupied(b, Seed(b))
  {
  }

  /** The stable disks contain the disks in a full row. */
  lemma StableGridSeed(b: Board)
    ensures Sub(Seed(b), StableGrid(b))
  {
    IterateGrows(b, Seed(b), Size * Size + 1);
  }

  /** Only disks are stable. */
  lemma StableGridOccupied(b: Board)
    ensures OnlyOccupied(b, StableGrid(b))
  {
    SeedOccupied(b);
    IterateKeepsOccupied(b, Seed(b), Size * Size + 1);
  }

  /** The stable mask lies inside every closed mask containing the full-row disks. */
  lemma StableGridLeast(b: Board, t: Mask)
    requires Sub(Seed(b), t) && Closed(b, t)
    ensures Sub(StableGrid(b), t)
  {
    IterateLeast(b, Seed(b), t, Size * Size + 1);
  }

  // ---------------------------------------------------------------------
  // Semi-stable disks
  // ---------------------------------------------------------------------

  /** No board of kids changes the square (x, y). */
  predicate UnchangedBy(b: Board, kids: seq<(Move, Board)>, x: int, y: int)
    requires 0 <= x < Size && 0 <= y < Size
  {
    forall k :: 0 <= k < |kids| ==> kids[k].1[x][y] == b[x][y]
  }

  /** No board of next_boards(p) changes the square (x, y). */
  predicate Untouched(b: Board, p: Player, x: int, y: int)
    requires 0 <= x < Size && 0 <= y < Size
  {
    forall k :: 0 <= k < |NextBoards(b, p)| ==> NextBoards(b, p)[k].1[x][y] == b[x][y]
  }

  /** semi_stable_disks: occupied, and unchanged by every next board of both players. */
  predicate SemiStableAt(b: Board, x: int, y: int)
    requires 0 <= x < Size && 0 <= y < Size
  {
    b[x][y] != Empty && Untouched(b, Dark, x, y) && Untouched(b, Light, x, y)
  }

  function SemiStableGrid(b: Board): (s: Mask)
    ensures forall x, y :: 0 <= x < Size && 0 <= y < Size ==> s[x][y] == SemiStableAt(b, x, y)
  {
    seq(Size, x requires 0 <= x < Size => seq(Size, y requires 0 <= y < Size => SemiStableAt(b, x, y)))
  }

  /** A move changes an occupied square exactly when it flips it. */
  lemma ChangedIffFlipped(b: Board, m: Move, p: Player, c: Move)
    requires OnBoard(m) && NextBoard(b, m, p).Some? && OnBoard(c) && At(b, c) != Empty
    ensures At(NextBoard(b, m, p).value, c) != At(b, c) <==> c in Flips(b, m, p)
  {
    NextBoardSquares(b, m, p);
    FlipsAreCaptures(b, m, p);
  }

  /** No legal move of p flips the disk at (x, y). */
  ghost predicate NeverFlipped(b: Board, p: Player, x: int, y: int)
  {
    forall m :: OnBoard(m) && IsLegal(b, m, p) ==> Move(x, y) !in Flips(b, m, p)
  }

  lemma UntouchedNeverFlipped(b: Board, p: Player, x: int, y: int)
    requires 0 <= x < Size && 0 <= y < Size && b[x][y] != Empty
    requires Untouched(b, p, x, y)
    ensures NeverFlipped(b, p, x, y)
  {
    NextBoardsSpec(b, p);
    var kids := NextBoards(b, p);
    forall m | OnBoard(m) && IsLegal(b, m, p)
      ensures Move(x, y) !in Flips(b, m, p)
    {
      assert Lists(kids, m);
      var k :| 0 <= k < |kids| && kids[k].0 == m;
      KeptNotFlipped(b, m, p, x, y, kids[k].1);
    }
  }

  /** A move that leaves the occupied square (x, y) as it was does not flip it. */
  lemma KeptNotFlipped(b: Board, m: Move, p: Player, x: int, y: int, r: Board)
    requires OnBoard(m) && NextBoard(b, m, p) == Some(r)
    requires 0 <= x < Size && 0 <= y < Size && b[x][y] != Empty && r[x][y] == b[x][y]
    ensures Move(x, y) !in Flips(b, m, p)
  {
    ChangedIffFlipped(b, m, p, Move(x, y));
  }

  lemma NeverFlippedUntouched(b: Board, p: Player, x: int, y: int)
    requires 0 <= x < Size && 0 <= y < Size && b[x][y] != Empty
    requires NeverFlipped(b, p, x, y)
    ensures Untouched(b, p, x, y)
  {
    NextBoardsSpec(b, p);
    var kids := NextBoards(b, p);
    forall k | 0 <= k < |kids|
      ensures kids[k].1[x][y] == b[x][y]
    {
      ChangedIffFlipped(b, kids[k].0, p, Move(x, y));
    }
  }

  /** Untouched by p: no legal move of p flips the disk. */
  lemma UntouchedIffNeverFlipped(b: Board, p: Player, x: int, y: int)
    requires 0 <= x < Size && 0 <= y < Size && b[x][y] != Empty
    ensures Untouched(b, p, x, y) <==> NeverFlipped(b, p, x, y)
  {
    if Untouched(b, p, x, y) {
      UntouchedNeverFlipped(b, p, x, y);
    }
    if NeverFlipped(b, p, x, y) {
      NeverFlippedUntouched(b, p, x, y);
    }
  }

  /** A disk is semi-stable exactly when no move of either player can flip it. */
  lemma SemiStableMeaning(b: Board, x: int, y: int)
    requires 0 <= x < Size && 0 <= y < Size
    ensures SemiStableAt(b, x, y) <==>
      (b[x][y] != Empty && NeverFlipped(b, Dark, x, y) && NeverFlipped(b, Light, x, y))
  {
    if b[x][y] != Empty {
      UntouchedIffNeverFlipped(b, Dark, x, y);
      UntouchedIffNeverFlipped(b, Light, x, y);
    }
  }

  // ---------------------------------------------------------------------
  // The source's loops
  // ---------------------------------------------------------------------

  /** in_full_row: the column and row loop, then the two diagonal walks. */
  method FullRow(b: Board, x: int, y: int) returns (full: bool)
    requires 0 <= x < Size && 0 <= y < Size
    ensures full == InFullRow(b, x, y)
  {
    for i := 0 to Size
      invariant forall k :: 0 <= k < i ==> b[k][y] != Empty && b[x][k] != Empty
    {
      if b[i][y] == Empty || b[x][i] == Empty {
        return false;
      }
    }
    var i, j := 0, 0;
    if x > y {
      i := x - y;
    } else {
      j := y - x;
    }
    while i < Size && j < Size
      invariant 0 <= i && 0 <= j && i - j == x - y
      invariant forall i', j' :: 0 <= i' < Size && 0 <= j' < Size && i' < i && i' - j' == x - y ==> b[i'][j'] != Empty
      decreases Size - i
    {
      if b[i][j] == Empty {
        return false;
      }
      i, j := i + 1, j + 1;
    }
    i, j := Size - 1, 0;
    if Size - x - 1 > y {
      i := x + y;
    } else {
      j := y - (Size - x - 1);
    }
    while i >= 0 && j < Size
      invariant i < Size && 0 <= j && i + j == x + y
      invariant forall i', j' :: 0 <= i' < Size && 0 <= j' < Size && j' < j && i' + j' == x + y ==> b[i'][j'] != Empty
      decreases Size - j
    {
      if b[i][j] == Empty {
        return false;
      }
      i, j := i - 1, j + 1;
    }
    return true;
  }

  /**
   * neighbours_stable: the loop over the four axes, returning false at the
   * first axis with neither neighbour off the board or a flagged disk of p.
   */
  method NeighboursStableCheck(b: Board, s: Mask, x: int, y: int, p: Player) returns (ok: bool)
    ensures ok == NeighboursStable(b, s, x, y, p)
  {
    for i := 0 to |Axes|
      invariant forall k :: 0 <= k < i ==> AxisGuarded(b, s, x, y, Axes[k], p)
    {
      var (dx, dy) := Axes[i];
      if !(IsEdge(x + dx, y + dy) || IsEdge(x - dx, y - dy) ||
           (s[x + dx][y + dy] && b[x + dx][y + dy] == p) ||
           (s[x - dx][y - dy] && b[x - dx][y - dy] == p)) {
        return false;
      }
    }
    return true;
  }

  /** The seed loop over one column: stable[x][y] = in_full_row(x, y). */
  method SeedColumn(b: Board, s: Mask, x: int) returns (t: Mask)
    requires 0 <= x < Size
    ensures forall i, j :: 0 <= i < Size && 0 <= j < Size ==>
      t[i][j] == if i == x then InFullRow(b, i, j) else s[i][j]
  {
    t := s;
    for y := 0 to Size
      invariant forall i, j :: 0 <= i < Size && 0 <= j < Size ==>
        t[i][j] == if i == x && j < y then InFullRow(b, i, j) else s[i][j]
    {
      var full := FullRow(b, x, y);
      t := SetFlag(t, x, y, full);
    }
  }

  /** The seed loops of stable_disks compute Seed. */
  method SeedMask(b: Board) returns (s: Mask)
    ensures s == Seed(b)
  {
    s := seq(Size, _ => seq(Size, _ => false));
    for x := 0 to Size
      invariant forall i, j :: 0 <= i < x && 0 <= j < Size ==> s[i][j] == InFullRow(b, i, j)
    {
      s := SeedColumn(b, s, x);
    }
    MasksEqual(s, Seed(b));
  }

  /** A disk whose axes are guarded by flags inside the stable mask is in the stable mask. */
  lemma PromotedIsStable(b: Board, t: Mask, x: int, y: int)
    requires 0 <= x < Size && 0 <= y < Size && b[x][y] != Empty
    requires Sub(t, StableGrid(b)) && NeighboursStable(b, t, x, y, b[x][y])
    ensures StableGrid(b)[x][y]
  {
    StableGridClosed(b);
    NeighboursStableMono(b, t, StableGrid(b), x, y, b[x][y]);
  }

  /** Flagging such a disk keeps the pass between its start s and the stable mask. */
  lemma FlagStep(b: Board, s: Mask, t: Mask, x: int, y: int)
    requires 0 <= x < Size && 0 <= y < Size && b[x][y] != Empty && !t[x][y]
    requires Sub(s, t) && Sub(t, StableGrid(b)) && OnlyOccupied(b, t)
    requires NeighboursStable(b, t, x, y, b[x][y])
    ensures Sub(s, SetFlag(t, x, y, true)) && Sub(SetFlag(t, x, y, true), StableGrid(b))
    ensures OnlyOccupied(b, SetFlag(t, x, y, true))
    ensures Marked(s) < Marked(SetFlag(t, x, y, true))
  {
    PromotedIsStable(b, t, x, y);
    var u := SetFlag(t, x, y, true);
    assert Sub(s, u);
    MarkedGrows(s, u, x, y);
  }

  /** The unflagged disks of column x before y are not promoted by s. */
  predicate ColumnIdle(b: Board, s: Mask, x: int, y: int)
    requires 0 <= x < Size
  {
    forall j :: 0 <= j < y && j < Size && b[x][j] != Empty && !s[x][j] ==> !NeighboursStable(b, s, x, j, b[x][j])
  }

  /** One column of a pass of stable_disks, updating the flags in place. */
  method StableColumn(b: Board, s: Mask, x: int) returns (t: Mask, changed: bool)
    requires 0 <= x < Size
    requires Sub(s, StableGrid(b)) && OnlyOccupied(b, s)
    ensures Sub(s, t) && Sub(t, StableGrid(b)) && OnlyOccupied(b, t)
    ensures changed ==> Marked(s) < Marked(t)
    ensures !changed ==> t == s && ColumnIdle(b, s, x, Size)
  {
    t, changed := s, false;
    for y := 0 to Size
      invariant Sub(s, t) && Sub(t, StableGrid(b)) && OnlyOccupied(b, t)
      invariant changed ==> Marked(s) < Marked(t)
      invariant !changed ==> t == s && ColumnIdle(b, s, x, y)
    {
      if !t[x][y] && b[x][y] != Empty {
        var ok := NeighboursStableCheck(b, t, x, y, b[x][y]);
        if ok {
          FlagStep(b, s, t, x, y);
          t, changed := SetFlag(t, x, y, true), true;
        }
      }
    }
  }

  lemma SubTrans(s: Mask, t: Mask, u: Mask)
    requires Sub(s, t) && Sub(t, u)
    ensures Sub(s, u)
  {
  }

  /** The unflagged disks of the columns before x are not promoted by s. */
  predicate PassIdle(b: Board, s: Mask, x: int)
  {
    forall i :: 0 <= i < x && i < Size ==> ColumnIdle(b, s, i, Size)
  }

  lemma PassIdleStep(b: Board, s: Mask, x: int)
    requires 0 <= x < Size && PassIdle(b, s, x) && ColumnIdle(b, s, x, Size)
    ensures PassIdle(b, s, x + 1)
  {
  }

  lemma IdleClosed(b: Board, s: Mask)
    requires PassIdle(b, s, Size)
    ensures Closed(b, s)
  {
    forall x, y | 0 <= x < Size && 0 <= y < Size && b[x][y] != Empty && !s[x][y]
      ensures !NeighboursStable(b, s, x, y, b[x][y])
    {
      assert ColumnIdle(b, s, x, Size);
    }
  }

  /**
   * One pass of the do-while of stable_disks.  Flags set earlier in the
   * pass are already seen by later squares, as in the source.
   */
  method StablePass(b: Board, s: Mask) returns (t: Mask, changed: bool)
    requires Sub(s, StableGrid(b)) && OnlyOccupied(b, s)
    ensures Sub(s, t) && Sub(t, StableGrid(b)) && OnlyOccupied(b, t)
    ensures changed ==> Marked(s) < Marked(t)
    ensures !changed ==> t == s && Closed(b, s)
  {
    t, changed := s, false;
    for x := 0 to Size
      invariant Sub(s, t) && Sub(t, StableGrid(b)) && OnlyOccupied(b, t)
      invariant changed ==> Marked(s) < Marked(t)
      invariant !changed ==> t == s && PassIdle(b, s, x)
    {
      MarkedMono(s, t);
      var u, c := StableColumn(b, t, x);
      MarkedMono(t, u);
      SubTrans(s, t, u);
      if !changed && !c {
        PassIdleStep(b, s, x);
      }
      t, changed := u, changed || c;
    }
    if !changed {
      IdleClosed(b, s);
    }
  }

  /**
   * stable_disks: seed with the full-row disks, then repeat passes until one
   * changes nothing.  The result is the stable mask; passes counts the
   * passes, at most one per square plus the final one.
   */
  method StableDisks(b: Board) returns (stable: Mask, ghost passes: nat)
    ensures stable == StableGrid(b)
    ensures passes <= Size * Size + 1
  {
    stable := SeedMask(b);
    StableGridSeed(b);
    SeedOccupied(b);
    MarkedBounds(stable);
    var changeMade := true;
    passes := 0;
    while changeMade
      invariant Sub(Seed(b), stable) && Sub(stable, StableGrid(b)) && OnlyOccupied(b, stable)
      invariant !changeMade ==> Closed(b, stable)
      invariant 0 <= Marked(stable) <= Size * Size
      invariant passes + Marked(Seed(b)) <= Marked(stable) + (if changeMade then 0 else 1)
      decreases Size * Size - Marked(stable) + (if changeMade then 1 else 0)
    {
      var next, c := StablePass(b, stable);
      SubTrans(Seed(b), stable, next);
      MarkedBounds(next);
      stable, changeMade, passes := next, c, passes + 1;
    }
    StableGridLeast(b, stable);
    MasksEqual(stable, StableGrid(b));
    MarkedBounds(Seed(b));
  }

  /** The initialising loop of semi_stable_disks over one column: occupied squares. */
  method OccupiedColumn(b: Board, s: Mask, x: int) returns (t: Mask)
    requires 0 <= x < Size
    ensures forall i, j :: 0 <= i < Size && 0 <= j < Size ==>
      t[i][j] == if i == x then b[i][j] != Empty else s[i][j]
  {
    t := s;
    for y := 0 to Size
      invariant forall i, j :: 0 <= i < Size && 0 <= j < Size ==>
        t[i][j] == if i == x && j < y then b[i][j] != Empty else s[i][j]
    {
      t := SetFlag(t, x, y, b[x][y] != Empty);
    }
  }

  /** The squares the clearing loops keep after seeing next: those it does not change or that are empty. */
  predicate Cleared(b: Board, next: Board, s: Mask, t: Mask)
  {
    forall x, y :: 0 <= x < Size && 0 <= y < Size ==>
      t[x][y] == (s[x][y] && !(next[x][y] != b[x][y] && b[x][y] != Empty))
  }

  /** The clearing loop over one column for one next board. */
  method ClearColumn(b: Board, next: Board, s: Mask, x: int) returns (t: Mask)
    requires 0 <= x < Size
    ensures forall i, j :: 0 <= i < Size && 0 <= j < Size ==>
      t[i][j] == if i == x then s[i][j] && !(next[i][j] != b[i][j] && b[i][j] != Empty) else s[i][j]
  {
    t := s;
    for y := 0 to Size
      invariant forall i, j :: 0 <= i < Size && 0 <= j < Size ==>
        t[i][j] == if i == x && j < y then s[i][j] && !(next[i][j] != b[i][j] && b[i][j] != Empty) else s[i][j]
    {
      if next[x][y] != b[x][y] && b[x][y] != Empty {
        t := SetFlag(t, x, y, false);
      }
    }
  }

  /** The clearing loops for one next board. */
  method ClearChanged(b: Board, next: Board, s: Mask) returns (t: Mask)
    ensures Cleared(b, next, s, t)
  {
    t := s;
    for x := 0 to Size
      invariant forall i, j :: 0 <= i < Size && 0 <= j < Size ==>
        t[i][j] == if i < x then s[i][j] && !(next[i][j] != b[i][j] && b[i][j] != Empty) else s[i][j]
    {
      t := ClearColumn(b, next, t, x);
    }
  }

  /** Only occupied squares are flagged, and each flag means unchanged by every board of kids. */
  predicate SemiInvariant(b: Board, kids: seq<(Move, Board)>, s: Mask, t: Mask)
  {
    forall x, y :: 0 <= x < Size && 0 <= y < Size ==>
      t[x][y] == (s[x][y] && (b[x][y] != Empty ==> UnchangedBy(b, kids, x, y)))
  }

  lemma ClearedStep(b: Board, kids: seq<(Move, Board)>, k: int, s: Mask, t: Mask, u: Mask)
    requires 0 <= k < |kids|
    requires SemiInvariant(b, kids[..k], s, t) && Cleared(b, kids[k].1, t, u)
    ensures SemiInvariant(b, kids[..k + 1], s, u)
  {
    forall x, y | 0 <= x < Size && 0 <= y < Size
      ensures u[x][y] == (s[x][y] && (b[x][y] != Empty ==> UnchangedBy(b, kids[..k + 1], x, y)))
    {
      assert kids[..k + 1] == kids[..k] + [kids[k]];
      assert UnchangedBy(b, kids[..k + 1], x, y) <==>
        UnchangedBy(b, kids[..k], x, y) && kids[k].1[x][y] == b[x][y];
    }
  }

  /** t keeps the flags of s on the squares no move of p changes, and on the empty squares. */
  predicate KeptAfter(b: Board, p: Player, s: Mask, t: Mask)
  {
    forall x, y :: 0 <= x < Size && 0 <= y < Size ==>
      t[x][y] == (s[x][y] && (b[x][y] != Empty ==> Untouched(b, p, x, y)))
  }

  lemma UnchangedByAll(b: Board, p: Player, s: Mask, t: Mask)
    requires SemiInvariant(b, NextBoards(b, p), s, t)
    ensures KeptAfter(b, p, s, t)
  {
    forall x, y | 0 <= x < Size && 0 <= y < Size
      ensures UnchangedBy(b, NextBoards(b, p), x, y) == Untouched(b, p, x, y)
    {
    }
  }

  /** The loop over the next boards kids, clearing the squares each changes. */
  method ClearAll(b: Board, kids: seq<(Move, Board)>, s: Mask) returns (t: Mask)
    ensures SemiInvariant(b, kids, s, t)
  {
    t := s;
    for k := 0 to |kids|
      invariant SemiInvariant(b, kids[..k], s, t)
    {
      var u := ClearChanged(b, kids[k].1, t);
      ClearedStep(b, kids, k, s, t, u);
      t := u;
    }
    assert kids[..|kids|] == kids;
  }

  /** The clearing loops for every board of next_boards(p). */
  method ClearFlippable(b: Board, p: Player, s: Mask) returns (t: Mask)
    ensures KeptAfter(b, p, s, t)
  {
    var kids := ListNextBoards(b, p);
    t := ClearAll(b, kids, s);
    UnchangedByAll(b, p, s, t);
  }

  /** The initialising loops of semi_stable_disks: the occupied squares. */
  method OccupiedMask(b: Board) returns (s: Mask)
    ensures forall x, y :: 0 <= x < Size && 0 <= y < Size ==> s[x][y] == (b[x][y] != Empty)
  {
    s := seq(Size, _ => seq(Size, _ => false));
    for x := 0 to Size
      invariant forall i, j :: 0 <= i < x && 0 <= j < Size ==> s[i][j] == (b[i][j] != Empty)
    {
      s := OccupiedColumn(b, s, x);
    }
  }

  /** Clearing for dark and then for light leaves exactly the semi-stable disks. */
  lemma ClearedBoth(b: Board, s: Mask, t: Mask, u: Mask)
    requires forall x, y :: 0 <= x < Size && 0 <= y < Size ==> s[x][y] == (b[x][y] != Empty)
    requires KeptAfter(b, Dark, s, t) && KeptAfter(b, Light, t, u)
    ensures u == SemiStableGrid(b)
  {
    MasksEqual(u, SemiStableGrid(b));
  }

  /**
   * semi_stable_disks: start from the occupied squares, then clear every
   * square a move changes, for dark and then for light.
   */
  method SemiStableDisks(b: Board) returns (semi: Mask)
    ensures semi == SemiStableGrid(b)
  {
    var occupied := OccupiedMask(b);
    var afterDark := ClearFlippable(b, Dark, occupied);
    semi := ClearFlippable(b, Light, afterDark);
    ClearedBoth(b, occupied, afterDark, semi);
  }
}
