/**
 * The Reversi board of src/board.hpp and src/board.cpp.
 *
 * A board is a value: an 8x8 grid of disks indexed [column][row].  This
 * module gives the rules as functions (IsLegal, NextBoard, LegalMoves,
 * NextBoards, GameOver, DiskNo) and, after them, the board's operations as
 * methods that walk the rays and scan the squares step by step the way the
 * source does, each proved to compute its function.
 */
module Board {
  import opened Sums

  datatype Option<T> = None | Some(value: T)

  /** The content of a square. */
  datatype Disk = Empty | Dark | Light

  /** The number the source stores for a disk: none = 0, dark = +1, light = -1. */
  function Value(d: Disk): int
  {
    match d
    case Empty => 0
    case Dark => 1
    case Light => -1
  }

  /** A player is one of the two colours. */
  type Player = d: Disk | d != Empty witness Dark

  function Opponent(p: Player): (q: Player)
    ensures q != p && Value(q) == -Value(p)
  {
    if p == Dark then Light else Dark
  }

  /** The side length of the board. */
  const Size: int := 8

  /** A move or a square: x is the column, y the row. */
  datatype Move = Move(x: int, y: int)

  /** The move the search reports when it has found nothing better. */
  const Sentinel: Move := Move(-1, -1)

  predicate OnBoard(m: Move)
  {
    0 <= m.x < Size && 0 <= m.y < Size
  }

  /** The grid of squares; the outer sequence holds the columns. */
  type Board = g: seq<seq<Disk>> | |g| == Size && forall x :: 0 <= x < |g| ==> |g[x]| == Size
    witness seq(Size, _ => seq(Size, _ => Empty))

  function At(b: Board, m: Move): Disk
    requires OnBoard(m)
  {
    b[m.x][m.y]
  }

  /** b with the square m holding d and every other square as it was. */
  function SetSquare(b: Board, m: Move, d: Disk): (r: Board)
    requires OnBoard(m)
    ensures At(r, m) == d
    ensures forall x, y :: 0 <= x < Size && 0 <= y < Size && Move(x, y) != m ==> r[x][y] == b[x][y]
  {
    b[m.x := b[m.x][m.y := d]]
  }

  /** Two boards that agree on every square are the same board. */
  lemma BoardsEqual(a: Board, c: Board)
    requires forall x, y :: 0 <= x < Size && 0 <= y < Size ==> a[x][y] == c[x][y]
    ensures a == c
  {
    forall x | 0 <= x < Size
      ensures a[x] == c[x]
    {
      assert forall y :: 0 <= y < Size ==> a[x][y] == c[x][y];
    }
  }

  // ---------------------------------------------------------------------
  // The initial position
  // ---------------------------------------------------------------------

  /** The four centre squares of the starting position; empty elsewhere. */
  function InitialDisk(x: int, y: int): Disk
  {
    var lo, hi := Size / 2 - 1, Size / 2;
    if (x == lo && y == lo) || (x == hi && y == hi) then Light
    else if (x == hi && y == lo) || (x == lo && y == hi) then Dark
    else Empty
  }

  /** b is the starting position. */
  predicate IsInitial(b: Board)
  {
    forall x, y :: 0 <= x < Size && 0 <= y < Size ==> b[x][y] == InitialDisk(x, y)
  }

  // ---------------------------------------------------------------------
  // Counting
  // ---------------------------------------------------------------------

  /** 1 on the squares of b that hold d, 0 elsewhere. */
  function Holds(b: Board, d: Disk): (int, int) -> int
  {
    (x: int, y: int) => if 0 <= x < Size && 0 <= y < Size && b[x][y] == d then 1 else 0
  }

  /** 1 on the occupied squares of b, 0 elsewhere. */
  function Occupied(b: Board): (int, int) -> int
  {
    (x: int, y: int) => if 0 <= x < Size && 0 <= y < Size && b[x][y] != Empty then 1 else 0
  }

  /** The number a square contributes to the disk difference. */
  function Signed(b: Board): (int, int) -> int
  {
    (x: int, y: int) => if 0 <= x < Size && 0 <= y < Size then Value(b[x][y]) else 0
  }

  /** The number of squares of b holding d. */
  function Tally(b: Board, d: Disk): int
  {
    GridSum(Holds(b, d), Size, Size)
  }

  /** The number of disks on the board (disk_no). */
  function DiskNo(b: Board): int
  {
    GridSum(Occupied(b), Size, Size)
  }

  /** The sum of the disk values: dark disks minus light disks. */
  function DiskSum(b: Board): int
  {
    GridSum(Signed(b), Size, Size)
  }

  /** disk_no counts the dark and the light disks. */
  lemma DiskNoIsTally(b: Board)
    ensures DiskNo(b) == Tally(b, Dark) + Tally(b, Light)
  {
    forall x, y | 0 <= x < Size && 0 <= y < Size
      ensures Occupied(b)(x, y) == Holds(b, Dark)(x, y) + Holds(b, Light)(x, y)
    {
    }
    GridSumAdd(Occupied(b), Holds(b, Dark), Holds(b, Light), Size, Size);
  }

  /** Every count lies between 0 and the number of squares. */
  lemma TallyBounds(b: Board, d: Disk)
    ensures 0 <= Tally(b, d) <= Size * Size
  {
    forall x, y | 0 <= x < Size && 0 <= y < Size
      ensures 0 <= Holds(b, d)(x, y) <= 1
    {
    }
    GridSumBounds(Holds(b, d), Size, Size, 0, 1);
  }

  lemma DiskNoBounds(b: Board)
    ensures 0 <= DiskNo(b) <= Size * Size
  {
    forall x, y | 0 <= x < Size && 0 <= y < Size
      ensures 0 <= Occupied(b)(x, y) <= 1
    {
    }
    GridSumBounds(Occupied(b), Size, Size, 0, 1);
  }

  /** The disk sum is the dark count minus the light count. */
  lemma DiskSumIsDifference(b: Board)
    ensures DiskSum(b) == Tally(b, Dark) - Tally(b, Light)
  {
    var negLight := (x: int, y: int) => -Holds(b, Light)(x, y);
    forall x, y | 0 <= x < Size && 0 <= y < Size
      ensures Signed(b)(x, y) == Holds(b, Dark)(x, y) + negLight(x, y)
    {
      assert negLight(x, y) == -Holds(b, Light)(x, y);
    }
    GridSumAdd(Signed(b), Holds(b, Dark), negLight, Size, Size);
    GridSumNegate(Holds(b, Light), negLight, Size, Size);
  }

  // ---------------------------------------------------------------------
  // Rays
  // ---------------------------------------------------------------------

  /** The eight directions, in the order the nested dx/dy loops visit them. */
  const Directions: seq<(int, int)> :=
    [(-1, -1), (-1, 0), (-1, 1), (0, -1), (0, 1), (1, -1), (1, 0), (1, 1)]

  predicate IsDirection(d: (int, int))
  {
    -1 <= d.0 <= 1 && -1 <= d.1 <= 1 && d != (0, 0)
  }

  /** The eight directions are exactly the non-zero unit steps, each once. */
  lemma DirectionsAreAllSteps()
    ensures |Directions| == 8
    ensures forall i :: 0 <= i < |Directions| ==> IsDirection(Directions[i])
    ensures forall d :: IsDirection(d) ==> d in Directions
    ensures forall i, j :: 0 <= i < j < |Directions| ==> Directions[i] != Directions[j]
  {
  }

  predicate AllOnBoard(cells: seq<Move>)
  {
    forall i :: 0 <= i < |cells| ==> OnBoard(cells[i])
  }

  /** How many more steps along dv fit on the board from v. */
  function Reach(v: int, dv: int): int
  {
    if dv > 0 then Size - v else if dv < 0 then v + 1 else 0
  }

  /** The ray a move at m examines in direction d: from the neighbour of m out to the edge. */
  function Ray(m: Move, d: (int, int)): (cs: seq<Move>)
    requires IsDirection(d)
    ensures AllOnBoard(cs)
    ensures cs != [] <==> OnBoard(Move(m.x + d.0, m.y + d.1))
    ensures cs != [] ==> cs[0] == Move(m.x + d.0, m.y + d.1)
    decreases Reach(m.x + d.0, d.0) + Reach(m.y + d.1, d.1)
  {
    var c := Move(m.x + d.0, m.y + d.1);
    if OnBoard(c) then [c] + Ray(c, d) else []
  }

  /** c lies on the side of (x, y) that direction d points to, or on (x, y). */
  predicate Ahead(c: Move, x: int, y: int, d: (int, int))
  {
    (if d.0 > 0 then c.x >= x else if d.0 < 0 then c.x <= x else c.x == x) &&
    (if d.1 > 0 then c.y >= y else if d.1 < 0 then c.y <= y else c.y == y)
  }

  /** Every square of the ray lies ahead of the neighbour of m it starts from. */
  lemma {:induction false} RayAhead(m: Move, d: (int, int))
    requires IsDirection(d)
    ensures forall c :: c in Ray(m, d) ==> Ahead(c, m.x + d.0, m.y + d.1, d)
    decreases Reach(m.x + d.0, d.0) + Reach(m.y + d.1, d.1)
  {
    var c := Move(m.x + d.0, m.y + d.1);
    if OnBoard(c) {
      RayAhead(c, d);
    }
  }

  /** A ray never returns to the square it starts from. */
  lemma OriginNotOnRay(m: Move, d: (int, int))
    requires IsDirection(d)
    ensures m !in Ray(m, d)
  {
    RayAhead(m, d);
  }

  /**
   * ray is the list of squares from m outward along d: it starts next to
   * m, each square is one step further, and one more step leaves the board.
   */
  ghost predicate IsRay(ray: seq<Move>, m: Move, d: (int, int))
  {
    AllOnBoard(ray) &&
    (ray == [] ==> !OnBoard(Move(m.x + d.0, m.y + d.1))) &&
    (ray != [] ==> ray[0] == Move(m.x + d.0, m.y + d.1)) &&
    EdgeAfter(ray, d) &&
    (forall i, j :: 0 <= i < j < |ray| && j == i + 1 ==> ray[j] == Move(ray[i].x + d.0, ray[i].y + d.1))
  }

  /** One step along d past the last square of cells leaves the board. */
  predicate EdgeAfter(cells: seq<Move>, d: (int, int))
  {
    cells != [] ==> !OnBoard(Move(cells[|cells| - 1].x + d.0, cells[|cells| - 1].y + d.1))
  }

  /** Ray(m, d) is the ray from m along d. */
  lemma RayShape(m: Move, d: (int, int))
    requires IsDirection(d)
    ensures IsRay(Ray(m, d), m, d)
  {
    RaySteps(m, d);
    RayEdge(m, d);
  }

  /** Each square of Ray(m, d) is one step along d from the one before. */
  lemma {:induction false} RaySteps(m: Move, d: (int, int))
    requires IsDirection(d)
    ensures forall i, j :: 0 <= i < j < |Ray(m, d)| && j == i + 1 ==>
      Ray(m, d)[j] == Move(Ray(m, d)[i].x + d.0, Ray(m, d)[i].y + d.1)
    decreases Reach(m.x + d.0, d.0) + Reach(m.y + d.1, d.1)
  {
    var c := Move(m.x + d.0, m.y + d.1);
    if OnBoard(c) {
      RaySteps(c, d);
      var rest := Ray(c, d);
      assert Ray(m, d) == [c] + rest;
    }
  }

  /** One step past the last square of Ray(m, d) leaves the board. */
  lemma {:induction false} RayEdge(m: Move, d: (int, int))
    requires IsDirection(d)
    ensures EdgeAfter(Ray(m, d), d)
    decreases Reach(m.x + d.0, d.0) + Reach(m.y + d.1, d.1)
  {
    var c := Move(m.x + d.0, m.y + d.1);
    if OnBoard(c) {
      RayEdge(c, d);
      var rest := Ray(c, d);
      assert Ray(m, d) == [c] + rest;
    }
  }

  /** The i-th direction is a unit step, and its ray from m is a ray that avoids m. */
  lemma RayFacts(m: Move, i: int)
    requires 0 <= i < |Directions|
    ensures IsDirection(Directions[i])
    ensures IsRay(Ray(m, Directions[i]), m, Directions[i])
    ensures m !in Ray(m, Directions[i])
  {
    DirectionsAreAllSteps();
    RayShape(m, Directions[i]);
    OriginNotOnRay(m, Directions[i]);
  }

  // ---------------------------------------------------------------------
  // Bracketing and flipping along one ray
  // ---------------------------------------------------------------------

  /**
   * The ray holds a bracketing line for p: one or more opponent disks
   * immediately followed by a disk of p.
   */
  predicate Brackets(b: Board, cells: seq<Move>, p: Player)
    requires AllOnBoard(cells)
  {
    exists k :: 1 <= k < |cells| && Closes(b, cells, p, k)
  }

  /** The length of the run of opponent disks the ray starts with. */
  function OpponentRun(b: Board, cells: seq<Move>, p: Player): (n: nat)
    requires AllOnBoard(cells)
    ensures n <= |cells|
    ensures forall i :: 0 <= i < n ==> At(b, cells[i]) == Opponent(p)
    ensures n < |cells| ==> At(b, cells[n]) != Opponent(p)
  {
    if cells == [] || At(b, cells[0]) != Opponent(p) then 0
    else 1 + OpponentRun(b, cells[1..], p)
  }

  /** The squares a move flips along one ray: the opponent run if p closes it. */
  function Captured(b: Board, cells: seq<Move>, p: Player): seq<Move>
    requires AllOnBoard(cells)
  {
    var n := OpponentRun(b, cells, p);
    if 0 < n < |cells| && At(b, cells[n]) == p then cells[..n] else []
  }

  /** The k-th square of the ray closes a run of opponent disks starting at its first square. */
  predicate Closes(b: Board, cells: seq<Move>, p: Player, k: int)
    requires AllOnBoard(cells)
  {
    1 <= k < |cells| && At(b, cells[k]) == p &&
    forall i :: 0 <= i < k ==> At(b, cells[i]) == Opponent(p)
  }

  /**
   * A ray captures something exactly when it brackets, it then captures the
   * squares strictly between the origin and the closing disk, and every
   * captured square holds an opponent disk.
   */
  lemma CapturedIffBrackets(b: Board, cells: seq<Move>, p: Player)
    requires AllOnBoard(cells)
    ensures Captured(b, cells, p) != [] <==> Brackets(b, cells, p)
    ensures forall k :: Closes(b, cells, p, k) ==> Captured(b, cells, p) == cells[..k]
    ensures forall c :: c in Captured(b, cells, p) ==> c in cells && At(b, c) == Opponent(p)
  {
    var n := OpponentRun(b, cells, p);
    forall k | Closes(b, cells, p, k)
      ensures n == k
    {
    }
    if Captured(b, cells, p) != [] {
      assert Closes(b, cells, p, n);
    }
    if Brackets(b, cells, p) {
      var k :| Closes(b, cells, p, k);
    }
  }

  /** The squares a move of p at m captures along the i-th direction. */
  function Capture(b: Board, m: Move, p: Player, i: int): seq<Move>
    requires 0 <= i < |Directions|
  {
    Captured(b, Ray(m, Directions[i]), p)
  }

  /** The captures of a move along the eight directions, in their order. */
  function Captures(b: Board, m: Move, p: Player): (cs: seq<seq<Move>>)
    ensures |cs| == |Directions|
    ensures forall i :: 0 <= i < |Directions| ==> cs[i] == Capture(b, m, p, i)
  {
    seq(|Directions|, i requires 0 <= i < |Directions| => Capture(b, m, p, i))
  }

  /** The parts joined in order. */
  function Concat<T>(parts: seq<seq<T>>): seq<T>
  {
    if parts == [] then [] else Concat(parts[..|parts| - 1]) + parts[|parts| - 1]
  }

  lemma {:induction false} ConcatMembers<T>(parts: seq<seq<T>>)
    ensures forall c :: c in Concat(parts) <==> exists i :: 0 <= i < |parts| && c in parts[i]
    ensures Concat(parts) == [] <==> forall i :: 0 <= i < |parts| ==> parts[i] == []
  {
    if parts != [] {
      var front := parts[..|parts| - 1];
      ConcatMembers(front);
      assert forall i :: 0 <= i < |front| ==> front[i] == parts[i];
    }
  }

  /** All squares a move of p at m flips, direction by direction. */
  function Flips(b: Board, m: Move, p: Player): seq<Move>
  {
    Concat(Captures(b, m, p))
  }

  lemma CaptureFacts(b: Board, m: Move, p: Player, i: int)
    requires 0 <= i < |Directions|
    ensures Capture(b, m, p, i) != [] <==> Brackets(b, Ray(m, Directions[i]), p)
    ensures forall c :: c in Capture(b, m, p, i) ==> OnBoard(c) && c != m && At(b, c) == Opponent(p)
  {
    var d := Directions[i];
    CapturedIffBrackets(b, Ray(m, d), p);
    OriginNotOnRay(m, d);
  }

  /**
   * The flipped squares are exactly the squares captured on some ray; each
   * is on the board, differs from m and holds an opponent disk.
   */
  lemma FlipsAreCaptures(b: Board, m: Move, p: Player)
    ensures forall c :: c in Flips(b, m, p) <==> exists i :: 0 <= i < |Directions| && c in Capture(b, m, p, i)
    ensures forall c :: c in Flips(b, m, p) ==> OnBoard(c) && c != m && At(b, c) == Opponent(p)
  {
    ConcatMembers(Captures(b, m, p));
    forall i | 0 <= i < |Directions|
      ensures forall c :: c in Capture(b, m, p, i) ==> OnBoard(c) && c != m && At(b, c) == Opponent(p)
    {
      CaptureFacts(b, m, p, i);
    }
  }

  /** Something flips exactly when some ray brackets. */
  lemma FlipsIffBrackets(b: Board, m: Move, p: Player)
    ensures Flips(b, m, p) != [] <==> exists i :: 0 <= i < |Directions| && Brackets(b, Ray(m, Directions[i]), p)
  {
    ConcatMembers(Captures(b, m, p));
    forall i | 0 <= i < |Directions|
      ensures Capture(b, m, p, i) != [] <==> Brackets(b, Ray(m, Directions[i]), p)
    {
      CaptureFacts(b, m, p, i);
    }
  }

  // ---------------------------------------------------------------------
  // The rules
  // ---------------------------------------------------------------------

  /** legal_move: m is empty and some ray from m brackets for p. */
  predicate IsLegal(b: Board, m: Move, p: Player)
    requires OnBoard(m)
  {
    At(b, m) == Empty && exists i :: 0 <= i < |Directions| && Brackets(b, Ray(m, Directions[i]), p)
  }

  /** b with every square listed in cells holding p. */
  function Place(b: Board, cells: seq<Move>, p: Player): Board
  {
    seq(Size, x requires 0 <= x < Size => seq(Size, y requires 0 <= y < Size =>
      if Move(x, y) in cells then p else b[x][y]))
  }

  /**
   * next_board: none on an occupied square or when nothing would flip;
   * otherwise the board with m and every flipped square holding p.
   */
  function NextBoard(b: Board, m: Move, p: Player): Option<Board>
    requires OnBoard(m)
  {
    if At(b, m) != Empty then None
    else
      var f := Flips(b, m, p);
      if f == [] then None else Some(Place(b, [m] + f, p))
  }

  /** next_board yields a board exactly when legal_move holds. */
  lemma NextBoardIffLegal(b: Board, m: Move, p: Player)
    requires OnBoard(m)
    ensures NextBoard(b, m, p).Some? <==> IsLegal(b, m, p)
  {
    FlipsIffBrackets(b, m, p);
  }

  lemma NextBoardSquares(b: Board, m: Move, p: Player)
    requires OnBoard(m) && NextBoard(b, m, p).Some?
    ensures At(b, m) == Empty && Flips(b, m, p) != []
    ensures forall c :: OnBoard(c) ==>
      At(NextBoard(b, m, p).value, c) == if c == m || c in Flips(b, m, p) then p else At(b, c)
  {
  }

  /**
   * What a legal move does: m becomes p; so does every square strictly
   * between m and the closing disk of each bracketing ray; every other
   * square keeps its disk.  A changed square was either m (empty) or an
   * opponent disk; no disk is removed.
   */
  lemma NextBoardEffect(b: Board, m: Move, p: Player)
    requires OnBoard(m) && NextBoard(b, m, p).Some?
    ensures At(b, m) == Empty && At(NextBoard(b, m, p).value, m) == p
    ensures forall i, c :: 0 <= i < |Directions| && c in Capture(b, m, p, i) ==>
      OnBoard(c) && At(b, c) == Opponent(p) && At(NextBoard(b, m, p).value, c) == p
    ensures forall c :: OnBoard(c) && c != m && (forall i :: 0 <= i < |Directions| ==> c !in Capture(b, m, p, i)) ==>
      At(NextBoard(b, m, p).value, c) == At(b, c)
    ensures forall c :: OnBoard(c) && At(NextBoard(b, m, p).value, c) != At(b, c) ==>
      At(NextBoard(b, m, p).value, c) == p && (c == m || At(b, c) == Opponent(p))
  {
    NextBoardSquares(b, m, p);
    FlipsAreCaptures(b, m, p);
  }

  /**
   * r arises from b by placing p on the empty square m and turning some
   * opponent disks, f among them, into disks of p.
   */
  predicate Replaces(b: Board, r: Board, m: Move, f: Move, p: Player)
  {
    OnBoard(m) && OnBoard(f) && f != m &&
    b[m.x][m.y] == Empty && r[m.x][m.y] == p &&
    b[f.x][f.y] == Opponent(p) && r[f.x][f.y] == p &&
    forall x, y :: 0 <= x < Size && 0 <= y < Size ==>
      r[x][y] == b[x][y] || (r[x][y] == p && (Move(x, y) == m || b[x][y] == Opponent(p)))
  }

  /** The board a legal move produces replaces as above, for some flipped f. */
  lemma NextBoardReplaces(b: Board, m: Move, p: Player) returns (f: Move)
    requires OnBoard(m) && NextBoard(b, m, p).Some?
    ensures Replaces(b, NextBoard(b, m, p).value, m, f, p)
  {
    var r := NextBoard(b, m, p).value;
    NextBoardSquares(b, m, p);
    FlipsAreCaptures(b, m, p);
    f := Flips(b, m, p)[0];
    assert f in Flips(b, m, p);
    assert At(r, f) == p;
    forall x, y | 0 <= x < Size && 0 <= y < Size
      ensures r[x][y] == b[x][y] || (r[x][y] == p && (Move(x, y) == m || b[x][y] == Opponent(p)))
    {
      assert At(r, Move(x, y)) == r[x][y];
    }
  }

  /** A replacement adds exactly one disk to the board. */
  lemma ReplacesAddsOne(b: Board, r: Board, m: Move, f: Move, p: Player)
    requires Replaces(b, r, m, f, p)
    ensures DiskNo(r) == DiskNo(b) + 1
  {
    var after, before := Occupied(r), Occupied(b);
    forall x, y | 0 <= x < Size && 0 <= y < Size && (x, y) != (m.x, m.y)
      ensures after(x, y) == before(x, y)
    {
      assert Move(x, y) != m;
    }
    assert after(m.x, m.y) == 1 && before(m.x, m.y) == 0;
    GridSumUpdate(after, before, Size, Size, m.x, m.y);
  }

  /**
   * If every disk of d on lo is also on hi, and hi has d at c where lo has
   * not, hi holds at least one more disk of d.
   */
  lemma TallyGrows(lo: Board, hi: Board, d: Disk, c: Move)
    requires OnBoard(c) && hi[c.x][c.y] == d && lo[c.x][c.y] != d
    requires forall x, y :: 0 <= x < Size && 0 <= y < Size && lo[x][y] == d ==> hi[x][y] == d
    ensures Tally(hi, d) >= Tally(lo, d) + 1
  {
    var after, before := Holds(hi, d), Holds(lo, d);
    forall x, y | 0 <= x < Size && 0 <= y < Size
      ensures after(x, y) >= before(x, y)
    {
    }
    assert after(c.x, c.y) == 1 && before(c.x, c.y) == 0;
    GridSumMono(after, before, Size, Size, c.x, c.y);
  }

  /** The mover gains at least two disks: the one placed and the one at f. */
  lemma ReplacesMoverGains(b: Board, r: Board, m: Move, f: Move, p: Player)
    requires Replaces(b, r, m, f, p)
    ensures Tally(r, p) >= Tally(b, p) + 2
  {
    var mid := SetSquare(b, f, p);
    TallyGrows(b, mid, p, f);
    ReplacesCoversFlip(b, r, m, f, p);
    TallyGrows(mid, r, p, m);
  }

  /** Every disk of p on b with f set to p is a disk of p on r. */
  lemma ReplacesCoversFlip(b: Board, r: Board, m: Move, f: Move, p: Player)
    requires Replaces(b, r, m, f, p)
    ensures forall x, y :: 0 <= x < Size && 0 <= y < Size && SetSquare(b, f, p)[x][y] == p ==> r[x][y] == p
    ensures SetSquare(b, f, p)[m.x][m.y] != p
  {
    var mid := SetSquare(b, f, p);
    forall x, y | 0 <= x < Size && 0 <= y < Size && mid[x][y] == p
      ensures r[x][y] == p
    {
      if Move(x, y) != f {
        assert mid[x][y] == b[x][y];
      }
    }
  }

  /** The opponent loses at least the disk at f. */
  lemma ReplacesOpponentLoses(b: Board, r: Board, m: Move, f: Move, p: Player)
    requires Replaces(b, r, m, f, p)
    ensures Tally(r, Opponent(p)) <= Tally(b, Opponent(p)) - 1
  {
    var after, before := Holds(r, Opponent(p)), Holds(b, Opponent(p));
    assert before(f.x, f.y) == 1 && after(f.x, f.y) == 0;
    GridSumMono(before, after, Size, Size, f.x, f.y);
  }

  /**
   * A legal move adds exactly one disk; the mover gains at least two disks
   * (the one placed and one flipped) and the opponent loses at least one.
   */
  lemma NextBoardCounts(b: Board, m: Move, p: Player)
    requires OnBoard(m) && NextBoard(b, m, p).Some?
    ensures DiskNo(NextBoard(b, m, p).value) == DiskNo(b) + 1
    ensures Tally(NextBoard(b, m, p).value, p) >= Tally(b, p) + 2
    ensures Tally(NextBoard(b, m, p).value, Opponent(p)) <= Tally(b, Opponent(p)) - 1
  {
    var r := NextBoard(b, m, p).value;
    var f := NextBoardReplaces(b, m, p);
    ReplacesAddsOne(b, r, m, f, p);
    ReplacesMoverGains(b, r, m, f, p);
    ReplacesOpponentLoses(b, r, m, f, p);
  }

  /** The squares of row y among its first n columns that pass keep, by column. */
  function RowScan(keep: Move -> bool, y: int, n: nat): seq<Move>
  {
    if n == 0 then []
    else RowScan(keep, y, n - 1) + (if keep(Move(n - 1, y)) then [Move(n - 1, y)] else [])
  }

  /** The squares of the first n rows that pass keep, row by row. */
  function RowsScan(keep: Move -> bool, n: nat): seq<Move>
  {
    if n == 0 then [] else RowsScan(keep, n - 1) + RowScan(keep, n - 1, Size)
  }

  /** The squares of column x among its first n rows that next maps to a value, by row. */
  function ColumnScan<T>(next: Move -> Option<T>, x: int, n: nat): seq<(Move, T)>
  {
    if n == 0 then []
    else
      ColumnScan(next, x, n - 1) +
      (match next(Move(x, n - 1))
       case Some(r) => [(Move(x, n - 1), r)]
       case None => [])
  }

  /** The squares of the first n columns that next maps to a value, column by column. */
  function ColumnsScan<T>(next: Move -> Option<T>, n: nat): seq<(Move, T)>
  {
    if n == 0 then [] else ColumnsScan(next, n - 1) + ColumnScan(next, n - 1, Size)
  }

  /** The legality test legal_moves applies to each square. */
  function LegalAt(b: Board, p: Player): Move -> bool
  {
    m => OnBoard(m) && IsLegal(b, m, p)
  }

  /** The board next_boards computes for each square, if any. */
  function NextAt(b: Board, p: Player): Move -> Option<Board>
  {
    m => if OnBoard(m) then NextBoard(b, m, p) else None
  }

  /** legal_moves: every legal square, row by row and by column within a row. */
  function LegalMoves(b: Board, p: Player): seq<Move>
  {
    RowsScan(LegalAt(b, p), Size)
  }

  /** next_boards: every legal move with its board, column by column. */
  function NextBoards(b: Board, p: Player): seq<(Move, Board)>
  {
    ColumnsScan(NextAt(b, p), Size)
  }

  /** game_over: neither player has a legal move. */
  predicate GameOver(b: Board)
  {
    LegalMoves(b, Dark) == [] && LegalMoves(b, Light) == []
  }

  /** y-major order of squares, the order legal_moves lists them in. */
  predicate RowMajorBefore(a: Move, c: Move)
  {
    a.y < c.y || (a.y == c.y && a.x < c.x)
  }

  /** x-major order of squares, the order next_boards lists them in. */
  predicate ColumnMajorBefore(a: Move, c: Move)
  {
    a.x < c.x || (a.x == c.x && a.y < c.y)
  }

  // ---------------------------------------------------------------------
  // What the enumerations contain and in which order
  // ---------------------------------------------------------------------

  lemma {:induction false} RowScanMembers(keep: Move -> bool, y: int, n: nat)
    ensures forall k :: 0 <= k < |RowScan(keep, y, n)| ==>
      RowScan(keep, y, n)[k].y == y && 0 <= RowScan(keep, y, n)[k].x < n && keep(RowScan(keep, y, n)[k])
  {
    if n > 0 {
      RowScanMembers(keep, y, n - 1);
    }
  }

  lemma {:induction false} RowScanComplete(keep: Move -> bool, y: int, n: nat)
    ensures forall x :: 0 <= x < n && keep(Move(x, y)) ==> Move(x, y) in RowScan(keep, y, n)
  {
    if n > 0 {
      RowScanComplete(keep, y, n - 1);
    }
  }

  lemma {:induction false} RowScanSorted(keep: Move -> bool, y: int, n: nat)
    ensures forall i, j :: 0 <= i < j < |RowScan(keep, y, n)| ==> RowScan(keep, y, n)[i].x < RowScan(keep, y, n)[j].x
  {
    if n > 0 {
      RowScanSorted(keep, y, n - 1);
      RowScanMembers(keep, y, n - 1);
    }
  }

  lemma {:induction false} RowsScanMembers(keep: Move -> bool, n: nat)
    ensures forall k :: 0 <= k < |RowsScan(keep, n)| ==>
      0 <= RowsScan(keep, n)[k].x < Size && 0 <= RowsScan(keep, n)[k].y < n && keep(RowsScan(keep, n)[k])
  {
    if n > 0 {
      RowsScanMembers(keep, n - 1);
      RowScanMembers(keep, n - 1, Size);
    }
  }

  lemma {:induction false} RowsScanComplete(keep: Move -> bool, n: nat)
    ensures forall m: Move :: 0 <= m.x < Size && 0 <= m.y < n && keep(m) ==> m in RowsScan(keep, n)
  {
    if n > 0 {
      RowsScanComplete(keep, n - 1);
      RowScanComplete(keep, n - 1, Size);
      forall m: Move | 0 <= m.x < Size && m.y == n - 1 && keep(m)
        ensures m in RowsScan(keep, n)
      {
        assert m == Move(m.x, n - 1);
      }
    }
  }

  lemma {:induction false} RowsScanSorted(keep: Move -> bool, n: nat)
    ensures forall i, j :: 0 <= i < j < |RowsScan(keep, n)| ==> RowMajorBefore(RowsScan(keep, n)[i], RowsScan(keep, n)[j])
  {
    if n > 0 {
      RowsScanSorted(keep, n - 1);
      RowsScanMembers(keep, n - 1);
      RowScanMembers(keep, n - 1, Size);
      RowScanSorted(keep, n - 1, Size);
    }
  }

  /** Some entry of r is for the move m. */
  predicate Lists<T>(r: seq<(Move, T)>, m: Move)
  {
    exists k :: 0 <= k < |r| && r[k].0 == m
  }

  lemma {:induction false} ColumnScanMembers<T>(next: Move -> Option<T>, x: int, n: nat)
    ensures forall k :: 0 <= k < |ColumnScan(next, x, n)| ==>
      ColumnScan(next, x, n)[k].0.x == x && 0 <= ColumnScan(next, x, n)[k].0.y < n &&
      next(ColumnScan(next, x, n)[k].0) == Some(ColumnScan(next, x, n)[k].1)
  {
    if n > 0 {
      ColumnScanMembers(next, x, n - 1);
    }
  }

  lemma {:induction false} ColumnScanComplete<T>(next: Move -> Option<T>, x: int, n: nat)
    ensures forall y :: 0 <= y < n && next(Move(x, y)).Some? ==> Lists(ColumnScan(next, x, n), Move(x, y))
  {
    if n > 0 {
      ColumnScanComplete(next, x, n - 1);
      var front, r := ColumnScan(next, x, n - 1), ColumnScan(next, x, n);
      forall y | 0 <= y < n && next(Move(x, y)).Some?
        ensures Lists(r, Move(x, y))
      {
        if y == n - 1 {
          assert r[|front|].0 == Move(x, y);
        } else {
          var k :| 0 <= k < |front| && front[k].0 == Move(x, y);
          assert r[k] == front[k];
        }
      }
    }
  }

  lemma {:induction false} ColumnScanSorted<T>(next: Move -> Option<T>, x: int, n: nat)
    ensures forall i, j :: 0 <= i < j < |ColumnScan(next, x, n)| ==> ColumnScan(next, x, n)[i].0.y < ColumnScan(next, x, n)[j].0.y
  {
    if n > 0 {
      ColumnScanSorted(next, x, n - 1);
      ColumnScanMembers(next, x, n - 1);
    }
  }

  lemma {:induction false} ColumnsScanMembers<T>(next: Move -> Option<T>, n: nat)
    ensures forall k :: 0 <= k < |ColumnsScan(next, n)| ==>
      0 <= ColumnsScan(next, n)[k].0.x < n && 0 <= ColumnsScan(next, n)[k].0.y < Size &&
      next(ColumnsScan(next, n)[k].0) == Some(ColumnsScan(next, n)[k].1)
  {
    if n > 0 {
      ColumnsScanMembers(next, n - 1);
      ColumnScanMembers(next, n - 1, Size);
    }
  }

  lemma {:induction false} ColumnsScanComplete<T>(next: Move -> Option<T>, n: nat)
    ensures forall m: Move :: 0 <= m.x < n && 0 <= m.y < Size && next(m).Some? ==> Lists(ColumnsScan(next, n), m)
  {
    if n > 0 {
      ColumnsScanComplete(next, n - 1);
      ColumnScanComplete(next, n - 1, Size);
      var front, col := ColumnsScan(next, n - 1), ColumnScan(next, n - 1, Size);
      var r := front + col;
      forall m: Move | 0 <= m.x < n && 0 <= m.y < Size && next(m).Some?
        ensures Lists(r, m)
      {
        if m.x == n - 1 {
          assert m == Move(n - 1, m.y);
          var k :| 0 <= k < |col| && col[k].0 == m;
          assert r[|front| + k] == col[k];
        } else {
          var k :| 0 <= k < |front| && front[k].0 == m;
          assert r[k] == front[k];
        }
      }
    }
  }

  lemma {:induction false} ColumnsScanSorted<T>(next: Move -> Option<T>, n: nat)
    ensures forall i, j :: 0 <= i < j < |ColumnsScan(next, n)| ==>
      ColumnMajorBefore(ColumnsScan(next, n)[i].0, ColumnsScan(next, n)[j].0)
  {
    if n > 0 {
      ColumnsScanSorted(next, n - 1);
      ColumnsScanMembers(next, n - 1);
      ColumnScanMembers(next, n - 1, Size);
      ColumnScanSorted(next, n - 1, Size);
    }
  }

  /** legal_moves lists exactly the legal squares. */
  lemma LegalMovesSpec(b: Board, p: Player)
    ensures forall m :: m in LegalMoves(b, p) <==> OnBoard(m) && IsLegal(b, m, p)
  {
    var keep := LegalAt(b, p);
    RowsScanMembers(keep, Size);
    RowsScanComplete(keep, Size);
    var r := LegalMoves(b, p);
    forall m | m in r
      ensures OnBoard(m) && IsLegal(b, m, p)
    {
      var k :| 0 <= k < |r| && r[k] == m;
      assert keep(r[k]);
    }
    forall m | OnBoard(m) && IsLegal(b, m, p)
      ensures m in r
    {
      assert keep(m);
    }
  }

  /** legal_moves lists the squares ordered by row and then by column, hence each once. */
  lemma LegalMovesOrder(b: Board, p: Player)
    ensures forall i, j :: 0 <= i < j < |LegalMoves(b, p)| ==>
      RowMajorBefore(LegalMoves(b, p)[i], LegalMoves(b, p)[j])
    ensures forall i, j :: 0 <= i < j < |LegalMoves(b, p)| ==> LegalMoves(b, p)[i] != LegalMoves(b, p)[j]
  {
    RowsScanSorted(LegalAt(b, p), Size);
  }

  /** next_boards lists exactly the legal moves, each with the board next_board gives for it. */
  lemma NextBoardsSpec(b: Board, p: Player)
    ensures forall k :: 0 <= k < |NextBoards(b, p)| ==>
      OnBoard(NextBoards(b, p)[k].0) && IsLegal(b, NextBoards(b, p)[k].0, p) &&
      NextBoard(b, NextBoards(b, p)[k].0, p) == Some(NextBoards(b, p)[k].1)
    ensures forall m :: OnBoard(m) && IsLegal(b, m, p) ==> Lists(NextBoards(b, p), m)
  {
    var next := NextAt(b, p);
    ColumnsScanMembers(next, Size);
    ColumnsScanComplete(next, Size);
    var r := NextBoards(b, p);
    forall k | 0 <= k < |r|
      ensures OnBoard(r[k].0) && IsLegal(b, r[k].0, p) && NextBoard(b, r[k].0, p) == Some(r[k].1)
    {
      assert next(r[k].0) == Some(r[k].1);
      NextBoardIffLegal(b, r[k].0, p);
    }
    forall m | OnBoard(m) && IsLegal(b, m, p)
      ensures Lists(r, m)
    {
      NextBoardIffLegal(b, m, p);
      assert next(m).Some?;
    }
  }

  /** next_boards lists its moves ordered by column and then by row, hence each once. */
  lemma NextBoardsOrder(b: Board, p: Player)
    ensures forall i, j :: 0 <= i < j < |NextBoards(b, p)| ==>
      ColumnMajorBefore(NextBoards(b, p)[i].0, NextBoards(b, p)[j].0)
    ensures forall i, j :: 0 <= i < j < |NextBoards(b, p)| ==> NextBoards(b, p)[i].0 != NextBoards(b, p)[j].0
  {
    ColumnsScanSorted(NextAt(b, p), Size);
  }

  /** Every move next_boards lists is legal. */
  lemma ListedIsLegal(b: Board, p: Player, m: Move)
    requires Lists(NextBoards(b, p), m)
    ensures OnBoard(m) && IsLegal(b, m, p)
  {
    NextBoardsSpec(b, p);
    var k :| 0 <= k < |NextBoards(b, p)| && NextBoards(b, p)[k].0 == m;
  }

  /**
   * legal_moves and next_boards name the same moves, in different orders:
   * the first row-major, the second column-major.
   */
  lemma SameMoves(b: Board, p: Player)
    ensures forall m :: m in LegalMoves(b, p) <==> Lists(NextBoards(b, p), m)
    ensures LegalMoves(b, p) == [] <==> NextBoards(b, p) == []
  {
    LegalMovesSpec(b, p);
    NextBoardsSpec(b, p);
    SameMembers(LegalMoves(b, p), NextBoards(b, p), LegalAt(b, p));
  }

  /** Two listings of the squares that pass legal hold the same squares, and one is empty when the other is. */
  lemma SameMembers(moves: seq<Move>, kids: seq<(Move, Board)>, legal: Move -> bool)
    requires forall m :: m in moves <==> legal(m)
    requires forall k :: 0 <= k < |kids| ==> legal(kids[k].0)
    requires forall m :: legal(m) ==> Lists(kids, m)
    ensures forall m :: m in moves <==> Lists(kids, m)
    ensures moves == [] <==> kids == []
  {
    forall m | Lists(kids, m)
      ensures legal(m)
    {
      var k :| 0 <= k < |kids| && kids[k].0 == m;
    }
    if kids != [] {
      assert legal(kids[0].0);
    }
    if moves != [] {
      assert moves[0] in moves;
    }
  }

  /** game_over holds exactly when no square is legal for either player. */
  lemma GameOverSpec(b: Board)
    ensures GameOver(b) <==> forall m :: OnBoard(m) ==> !IsLegal(b, m, Dark) && !IsLegal(b, m, Light)
  {
    LegalMovesSpec(b, Dark);
    LegalMovesSpec(b, Light);
    if !GameOver(b) {
      if LegalMoves(b, Dark) != [] {
        assert LegalMoves(b, Dark)[0] in LegalMoves(b, Dark);
      } else {
        assert LegalMoves(b, Light)[0] in LegalMoves(b, Light);
      }
    }
  }

  // ---------------------------------------------------------------------
  // The starting position
  // ---------------------------------------------------------------------

  /** The starting position holds four disks. */
  lemma InitialDiskNo(b: Board)
    requires IsInitial(b)
    ensures DiskNo(b) == 4
  {
    var lo, hi := Size / 2 - 1, Size / 2;
    var cells := [(lo, lo), (hi, hi), (hi, lo), (lo, hi)];
    var occ := Occupied(b);
    forall x, y | 0 <= x < Size && 0 <= y < Size
      ensures occ(x, y) == if (x, y) in cells then 1 else 0
    {
      assert b[x][y] == InitialDisk(x, y);
    }
    GridSumCount(occ, cells, Size, Size);
  }

  /** The starting position holds two disks of each colour. */
  lemma InitialTally(b: Board, d: Disk)
    requires IsInitial(b) && d != Empty
    ensures Tally(b, d) == 2
  {
    var lo, hi := Size / 2 - 1, Size / 2;
    var cells := if d == Light then [(lo, lo), (hi, hi)] else [(hi, lo), (lo, hi)];
    var holds := Holds(b, d);
    forall x, y | 0 <= x < Size && 0 <= y < Size
      ensures holds(x, y) == if (x, y) in cells then 1 else 0
    {
      assert b[x][y] == InitialDisk(x, y);
    }
    GridSumCount(holds, cells, Size, Size);
  }

  /** A ray that starts with an empty square or a disk of p brackets nothing. */
  lemma NoCapture(b: Board, cells: seq<Move>, p: Player, k: int)
    requires AllOnBoard(cells) && 0 <= k <= |cells|
    requires forall i :: 0 <= i < k ==> At(b, cells[i]) == Opponent(p)
    requires k < |cells| ==> At(b, cells[k]) != Opponent(p) && (k == 0 || At(b, cells[k]) != p)
    ensures !Brackets(b, cells, p)
    ensures Captured(b, cells, p) == []
  {
    forall j | 1 <= j < |cells|
      ensures !Closes(b, cells, p, j)
    {
      if j > k {
        assert At(b, cells[k]) != Opponent(p);
      }
    }
    CapturedIffBrackets(b, cells, p);
  }

  // ---------------------------------------------------------------------
  // Moves from the starting position
  // ---------------------------------------------------------------------

  /**
   * The ray from m along d brackets nothing because of its first two
   * squares: the first is off the board or not an opponent disk, or the
   * second is off the board or empty.
   */
  predicate Blocked(b: Board, m: Move, d: (int, int), p: Player)
  {
    var c0 := Move(m.x + d.0, m.y + d.1);
    var c1 := Move(m.x + 2 * d.0, m.y + 2 * d.1);
    !OnBoard(c0) || At(b, c0) != Opponent(p) || !OnBoard(c1) || At(b, c1) == Empty
  }

  lemma BlockedRay(b: Board, m: Move, d: (int, int), p: Player)
    requires IsDirection(d) && Blocked(b, m, d, p)
    ensures !Brackets(b, Ray(m, d), p)
  {
    RayShape(m, d);
    var ray := Ray(m, d);
    var c0 := Move(m.x + d.0, m.y + d.1);
    var c1 := Move(m.x + 2 * d.0, m.y + 2 * d.1);
    if !OnBoard(c0) || At(b, c0) != Opponent(p) {
      NoCapture(b, ray, p, 0);
    } else if !OnBoard(c1) {
      assert |ray| == 1;
      NoCapture(b, ray, p, 1);
    } else {
      assert |ray| >= 2 && ray[1] == c1;
      NoCapture(b, ray, p, 1);
    }
  }

  /** An opponent disk next to m followed by a disk of p closes the ray at its second square. */
  lemma ClosesAtSecond(b: Board, m: Move, d: (int, int), p: Player)
    requires IsDirection(d)
    requires OnBoard(Move(m.x + d.0, m.y + d.1)) && At(b, Move(m.x + d.0, m.y + d.1)) == Opponent(p)
    requires OnBoard(Move(m.x + 2 * d.0, m.y + 2 * d.1)) && At(b, Move(m.x + 2 * d.0, m.y + 2 * d.1)) == p
    ensures Brackets(b, Ray(m, d), p)
    ensures Captured(b, Ray(m, d), p) == [Move(m.x + d.0, m.y + d.1)]
  {
    RayShape(m, d);
    var ray := Ray(m, d);
    assert |ray| >= 2 && ray[1] == Move(m.x + 2 * d.0, m.y + 2 * d.1);
    assert Closes(b, ray, p, 1);
    CapturedIffBrackets(b, ray, p);
    assert ray[..1] == [ray[0]];
  }

  /** A move none of whose eight rays gets past its first two squares is illegal. */
  lemma BlockedNotLegal(b: Board, m: Move, p: Player)
    requires OnBoard(m)
    requires forall i :: 0 <= i < |Directions| ==> Blocked(b, m, Directions[i], p)
    ensures !IsLegal(b, m, p)
  {
    DirectionsAreAllSteps();
    forall i | 0 <= i < |Directions|
      ensures !Brackets(b, Ray(m, Directions[i]), p)
    {
      BlockedRay(b, m, Directions[i], p);
    }
  }

  /** The corner (0, 0) is no legal move for dark at the start. */
  lemma StartCornerIllegal(b: Board)
    requires IsInitial(b)
    ensures !IsLegal(b, Move(0, 0), Dark)
  {
    forall i | 0 <= i < |Directions|
      ensures Blocked(b, Move(0, 0), Directions[i], Dark)
    {
      assert b[0][1] == InitialDisk(0, 1) && b[1][0] == InitialDisk(1, 0) && b[1][1] == InitialDisk(1, 1);
    }
    BlockedNotLegal(b, Move(0, 0), Dark);
  }

  /** At the start, (4, 2) is no legal move for dark. */
  lemma StartDarkIllegal(b: Board)
    requires IsInitial(b)
    ensures !IsLegal(b, Move(4, 2), Dark)
  {
    forall i | 0 <= i < |Directions|
      ensures Blocked(b, Move(4, 2), Directions[i], Dark)
    {
      assert b[3][3] == InitialDisk(3, 3) && b[2][4] == InitialDisk(2, 4) && b[4][3] == InitialDisk(4, 3);
      assert b[5][3] == InitialDisk(5, 3) && b[3][2] == InitialDisk(3, 2) && b[5][2] == InitialDisk(5, 2);
      assert b[3][1] == InitialDisk(3, 1) && b[4][1] == InitialDisk(4, 1) && b[5][1] == InitialDisk(5, 1);
    }
    BlockedNotLegal(b, Move(4, 2), Dark);
  }

  /** At the start, (3, 2) is no legal move for light. */
  lemma StartLightIllegal(b: Board)
    requires IsInitial(b)
    ensures !IsLegal(b, Move(3, 2), Light)
  {
    forall i | 0 <= i < |Directions|
      ensures Blocked(b, Move(3, 2), Directions[i], Light)
    {
      assert b[3][3] == InitialDisk(3, 3) && b[4][3] == InitialDisk(4, 3) && b[5][4] == InitialDisk(5, 4);
      assert b[2][3] == InitialDisk(2, 3) && b[2][2] == InitialDisk(2, 2) && b[4][2] == InitialDisk(4, 2);
      assert b[2][1] == InitialDisk(2, 1) && b[3][1] == InitialDisk(3, 1) && b[4][1] == InitialDisk(4, 1);
    }
    BlockedNotLegal(b, Move(3, 2), Light);
  }

  /** At the start, (3, 2) is a legal move for dark: it brackets (3, 3) against (3, 4). */
  lemma StartDarkLegal(b: Board)
    requires IsInitial(b)
    ensures IsLegal(b, Move(3, 2), Dark)
  {
    assert b[3][2] == InitialDisk(3, 2) && b[3][3] == InitialDisk(3, 3) && b[3][4] == InitialDisk(3, 4);
    ClosesAtSecond(b, Move(3, 2), Directions[4], Dark);
  }

  /** At the start, (4, 2) is a legal move for light: it brackets (4, 3) against (4, 4). */
  lemma StartLightLegal(b: Board)
    requires IsInitial(b)
    ensures IsLegal(b, Move(4, 2), Light)
  {
    assert b[4][2] == InitialDisk(4, 2) && b[4][3] == InitialDisk(4, 3) && b[4][4] == InitialDisk(4, 4);
    ClosesAtSecond(b, Move(4, 2), Directions[4], Light);
  }

  /** At the start, next_board gives nothing for light at (3, 2). */
  lemma StartLightNoBoard(b: Board)
    requires IsInitial(b)
    ensures NextBoard(b, Move(3, 2), Light) == None
  {
    StartLightIllegal(b);
    NextBoardIffLegal(b, Move(3, 2), Light);
  }

  /** At the start, dark at (3, 2) flips (3, 3). */
  lemma StartDarkFlips(b: Board)
    requires IsInitial(b)
    ensures Move(3, 3) in Flips(b, Move(3, 2), Dark)
  {
    assert b[3][3] == InitialDisk(3, 3) && b[3][4] == InitialDisk(3, 4);
    ClosesAtSecond(b, Move(3, 2), Directions[4], Dark);
    assert Move(3, 3) in Capture(b, Move(3, 2), Dark, 4);
    FlipsAreCaptures(b, Move(3, 2), Dark);
  }

  /** At the start, dark at (3, 2) yields a board with (3, 2) and (3, 3) dark. */
  lemma StartDarkBoard(b: Board)
    requires IsInitial(b)
    ensures NextBoard(b, Move(3, 2), Dark).Some?
    ensures NextBoard(b, Move(3, 2), Dark).value[3][2] == Dark
    ensures NextBoard(b, Move(3, 2), Dark).value[3][3] == Dark
  {
    StartDarkLegal(b);
    NextBoardIffLegal(b, Move(3, 2), Dark);
    StartDarkFlips(b);
    NextBoardSquares(b, Move(3, 2), Dark);
    assert At(NextBoard(b, Move(3, 2), Dark).value, Move(3, 3)) == Dark;
  }

  // ---------------------------------------------------------------------
  // The operations of board.cpp, step by step
  // ---------------------------------------------------------------------

  /** Board(): every column filled with empty squares, then the four centre disks. */
  method NewBoard() returns (b: Board)
    ensures IsInitial(b)
  {
    var columns: seq<seq<Disk>> := [];
    var x := 0;
    while x < Size
      invariant 0 <= x <= Size && |columns| == x
      invariant forall i :: 0 <= i < x ==> columns[i] == seq(Size, _ => Empty)
    {
      columns := columns + [seq(Size, _ => Empty)];
      x := x + 1;
    }
    b := columns;
    var lo, hi := Size / 2 - 1, Size / 2;
    b := SetSquare(b, Move(lo, lo), Light);
    b := SetSquare(b, Move(hi, hi), Light);
    b := SetSquare(b, Move(hi, lo), Dark);
    b := SetSquare(b, Move(lo, hi), Dark);
  }

  /** The walk legal_move makes from m along d; ray is the list of squares it may visit. */
  method RayBrackets(b: Board, m: Move, d: (int, int), p: Player, ghost ray: seq<Move>) returns (found: bool)
    requires IsDirection(d) && IsRay(ray, m, d)
    ensures found == Brackets(b, ray, p)
  {
    var oppFound := false;
    var px, py := m.x + d.0, m.y + d.1;
    ghost var k := 0;
    while 0 <= px < Size && 0 <= py < Size
      invariant 0 <= k <= |ray|
      invariant k < |ray| ==> ray[k] == Move(px, py)
      invariant k == |ray| ==> !OnBoard(Move(px, py))
      invariant oppFound <==> k > 0
      invariant forall i :: 0 <= i < k ==> At(b, ray[i]) == Opponent(p)
      decreases Reach(px, d.0) + Reach(py, d.1)
    {
      if b[px][py] == Empty {
        NoCapture(b, ray, p, k);
        return false;
      } else if b[px][py] != p {
        oppFound := true;
      } else if oppFound {
        assert Closes(b, ray, p, k);
        return true;
      } else {
        NoCapture(b, ray, p, k);
        return false;
      }
      px, py := px + d.0, py + d.1;
      k := k + 1;
    }
    NoCapture(b, ray, p, k);
    return false;
  }

  /** legal_move: the square is empty and the walk along some direction brackets. */
  method LegalMove(b: Board, m: Move, p: Player) returns (legal: bool)
    requires OnBoard(m)
    ensures legal == IsLegal(b, m, p)
  {
    if b[m.x][m.y] != Empty {
      return false;
    }
    for i := 0 to |Directions|
      invariant forall j :: 0 <= j < i ==> !Brackets(b, Ray(m, Directions[j]), p)
    {
      RayFacts(m, i);
      var found := RayBrackets(b, m, Directions[i], p, Ray(m, Directions[i]));
      if found {
        return true;
      }
    }
    return false;
  }

  /** after is next with the squares of cells set to p. */
  predicate SetAlong(after: Board, next: Board, cells: seq<Move>, p: Player)
  {
    forall x, y :: 0 <= x < Size && 0 <= y < Size ==>
      after[x][y] == if Move(x, y) in cells then p else next[x][y]
  }

  lemma SetAlongStep(after: Board, next: Board, cells: seq<Move>, c: Move, p: Player)
    requires OnBoard(c) && SetAlong(after, next, cells, p)
    ensures SetAlong(SetSquare(after, c, p), next, [c] + cells, p)
  {
  }

  /** Setting ray[j] as well extends the set stretch of the ray back by one square. */
  lemma SetAlongBack(after: Board, next: Board, ray: seq<Move>, j: int, k: int, p: Player)
    requires AllOnBoard(ray) && 0 <= j <= k < |ray|
    requires SetAlong(after, next, ray[j + 1..k + 1], p)
    ensures SetAlong(SetSquare(after, ray[j], p), next, ray[j..k + 1], p)
  {
    SetAlongStep(after, next, ray[j + 1..k + 1], ray[j], p);
    assert [ray[j]] + ray[j + 1..k + 1] == ray[j..k + 1];
  }

  /** One step against d from a square of the ray gives the square before it, or m. */
  lemma StepBack(ray: seq<Move>, m: Move, d: (int, int), j: int)
    requires IsRay(ray, m, d) && 0 <= j < |ray|
    ensures j > 0 ==> Move(ray[j].x - d.0, ray[j].y - d.1) == ray[j - 1]
    ensures j == 0 ==> Move(ray[j].x - d.0, ray[j].y - d.1) == m
  {
    if j > 0 {
      assert ray[j] == Move(ray[j - 1].x + d.0, ray[j - 1].y + d.1);
    }
  }

  /**
   * The walk back of next_board: from the closing square ray[k] towards m,
   * m excluded, every square is set to p.
   */
  method FlipBack(next: Board, m: Move, d: (int, int), p: Player, ghost ray: seq<Move>, ghost k: int, px: int, py: int)
    returns (after: Board)
    requires IsRay(ray, m, d) && forall i :: 0 <= i < |ray| ==> ray[i] != m
    requires 0 <= k < |ray| && ray[k] == Move(px, py)
    ensures SetAlong(after, next, ray[..k + 1], p)
  {
    after := next;
    var qx, qy := px, py;
    ghost var j := k;
    while qx != m.x || qy != m.y
      invariant -1 <= j <= k
      invariant j >= 0 ==> Move(qx, qy) == ray[j]
      invariant j < 0 ==> Move(qx, qy) == m
      invariant SetAlong(after, next, ray[j + 1..k + 1], p)
      decreases j + 1
    {
      SetAlongBack(after, next, ray, j, k, p);
      StepBack(ray, m, d, j);
      after := SetSquare(after, Move(qx, qy), p);
      qx, qy := qx - d.0, qy - d.1;
      j := j - 1;
    }
    assert ray[j + 1..k + 1] == ray[..k + 1];
  }

  /**
   * One direction of next_board: walk from m along d over opponent disks;
   * on reaching a disk of p after at least one of them, walk back towards m
   * setting every square on the way, the closing disk included, to p.
   */
  method FlipRay(b: Board, next: Board, m: Move, d: (int, int), p: Player, ghost ray: seq<Move>)
    returns (after: Board, flipped: bool)
    requires OnBoard(m) && IsDirection(d) && IsRay(ray, m, d) && m !in ray
    requires forall x, y :: 0 <= x < Size && 0 <= y < Size && b[x][y] == p ==> next[x][y] == p
    ensures flipped == (Captured(b, ray, p) != [])
    ensures SetAlong(after, next, Captured(b, ray, p), p)
  {
    after, flipped := next, false;
    var oppFound := false;
    var px, py := m.x + d.0, m.y + d.1;
    ghost var k := 0;
    while 0 <= px < Size && 0 <= py < Size
      invariant 0 <= k <= |ray|
      invariant k < |ray| ==> ray[k] == Move(px, py)
      invariant k == |ray| ==> !OnBoard(Move(px, py))
      invariant oppFound <==> k > 0
      invariant forall i :: 0 <= i < k ==> At(b, ray[i]) == Opponent(p)
      invariant after == next && !flipped
      decreases Reach(px, d.0) + Reach(py, d.1)
    {
      if b[px][py] == Empty {
        NoCapture(b, ray, p, k);
        return;
      } else if b[px][py] != p {
        oppFound := true;
      } else if oppFound {
        flipped := true;
        assert Closes(b, ray, p, k);
        after := FlipBack(next, m, d, p, ray, k, px, py);
        ClosedFlips(b, next, ray, p, k, after);
        return;
      } else {
        NoCapture(b, ray, p, k);
        return;
      }
      px, py := px + d.0, py + d.1;
      k := k + 1;
    }
    NoCapture(b, ray, p, k);
  }

  /** Setting the closing disk to p changes nothing: it already is p. */
  lemma ClosedFlips(b: Board, next: Board, ray: seq<Move>, p: Player, k: int, after: Board)
    requires AllOnBoard(ray) && Closes(b, ray, p, k)
    requires forall x, y :: 0 <= x < Size && 0 <= y < Size && b[x][y] == p ==> next[x][y] == p
    requires SetAlong(after, next, ray[..k + 1], p)
    ensures Captured(b, ray, p) != []
    ensures SetAlong(after, next, Captured(b, ray, p), p)
  {
    CapturedIffBrackets(b, ray, p);
    assert Captured(b, ray, p) == ray[..k];
    assert ray[..k + 1] == ray[..k] + [ray[k]];
    SetAlongDropLast(after, next, ray[..k], ray[k], p);
  }

  /** Setting a square that already holds p is the same as leaving it out. */
  lemma SetAlongDropLast(after: Board, next: Board, cells: seq<Move>, c: Move, p: Player)
    requires OnBoard(c) && next[c.x][c.y] == p && SetAlong(after, next, cells + [c], p)
    ensures SetAlong(after, next, cells, p)
  {
    forall x, y | 0 <= x < Size && 0 <= y < Size
      ensures after[x][y] == if Move(x, y) in cells then p else next[x][y]
    {
      assert Move(x, y) in cells + [c] <==> Move(x, y) in cells || Move(x, y) == c;
    }
  }

  /** Setting m and cells, and then more cells, sets m, cells and more. */
  lemma SetAlongJoin(b: Board, next: Board, after: Board, m: Move, cells: seq<Move>, more: seq<Move>, p: Player)
    requires SetAlong(next, b, [m] + cells, p) && SetAlong(after, next, more, p)
    ensures SetAlong(after, b, [m] + (cells + more), p)
  {
    forall x, y | 0 <= x < Size && 0 <= y < Size
      ensures after[x][y] == if Move(x, y) in [m] + (cells + more) then p else b[x][y]
    {
      var c := Move(x, y);
      assert c in [m] + (cells + more) <==> c in [m] + cells || c in more;
    }
  }

  lemma ConcatStep<T>(parts: seq<seq<T>>, i: int)
    requires 0 <= i < |parts|
    ensures Concat(parts[..i + 1]) == Concat(parts[..i]) + parts[i]
  {
    assert parts[..i + 1][..i] == parts[..i];
  }

  /** Squares of p stay p when cells are set to p. */
  lemma SetAlongKeeps(next: Board, b: Board, cells: seq<Move>, p: Player)
    requires SetAlong(next, b, cells, p)
    ensures forall x, y :: 0 <= x < Size && 0 <= y < Size && b[x][y] == p ==> next[x][y] == p
  {
  }

  /** One direction of the loop of next_board adds that direction's captures. */
  lemma FlipStep(b: Board, m: Move, p: Player, parts: seq<seq<Move>>, i: int, next: Board, after: Board)
    requires 0 <= i < |Directions| && parts == Captures(b, m, p)
    requires SetAlong(next, b, [m] + Concat(parts[..i]), p)
    requires SetAlong(after, next, Captured(b, Ray(m, Directions[i]), p), p)
    ensures Captured(b, Ray(m, Directions[i]), p) == parts[i]
    ensures Concat(parts[..i + 1]) != [] <==> Concat(parts[..i]) != [] || parts[i] != []
    ensures SetAlong(after, b, [m] + Concat(parts[..i + 1]), p)
  {
    var front, part := Concat(parts[..i]), parts[i];
    assert part == Capture(b, m, p, i);
    ConcatStep(parts, i);
    SetAlongJoin(b, next, after, m, front, part, p);
  }

  /** next_board: a copy of b with m and every flipped square set to p, or none. */
  method ComputeNextBoard(b: Board, m: Move, p: Player) returns (r: Option<Board>)
    requires OnBoard(m)
    ensures r == NextBoard(b, m, p)
  {
    if b[m.x][m.y] != Empty {
      return None;
    }
    var next := SetSquare(b, m, p);
    var changeMade := false;
    ghost var parts := Captures(b, m, p);
    for i := 0 to |Directions|
      invariant changeMade <==> Concat(parts[..i]) != []
      invariant SetAlong(next, b, [m] + Concat(parts[..i]), p)
    {
      RayFacts(m, i);
      SetAlongKeeps(next, b, [m] + Concat(parts[..i]), p);
      var after, flipped := FlipRay(b, next, m, Directions[i], p, Ray(m, Directions[i]));
      FlipStep(b, m, p, parts, i, next, after);
      next, changeMade := after, changeMade || flipped;
    }
    NextBoardFound(b, m, p, parts, next);
    if changeMade {
      return Some(next);
    } else {
      return None;
    }
  }

  /** What the loop of next_board has built after all eight directions is NextBoard's board. */
  lemma NextBoardFound(b: Board, m: Move, p: Player, parts: seq<seq<Move>>, next: Board)
    requires OnBoard(m) && At(b, m) == Empty && parts == Captures(b, m, p)
    requires SetAlong(next, b, [m] + Concat(parts[..|Directions|]), p)
    ensures Concat(parts[..|Directions|]) == Flips(b, m, p)
    ensures Flips(b, m, p) != [] ==> NextBoard(b, m, p) == Some(next)
    ensures Flips(b, m, p) == [] ==> NextBoard(b, m, p) == None
  {
    assert parts[..|Directions|] == parts;
    BoardsEqual(next, Place(b, [m] + Flips(b, m, p), p));
  }


  /** One more square of a row scan, appended to what the earlier rows gave. */
  lemma RowScanStep(keep: Move -> bool, y: int, x: nat, moves: seq<Move>, done: seq<Move>, legal: bool)
    requires moves == done + RowScan(keep, y, x) && legal == keep(Move(x, y))
    ensures (if legal then moves + [Move(x, y)] else moves) == done + RowScan(keep, y, x + 1)
  {
    if legal {
      assert done + RowScan(keep, y, x) + [Move(x, y)] == done + (RowScan(keep, y, x) + [Move(x, y)]);
    }
  }

  /** One more square of a column scan, appended to what the earlier columns gave. */
  lemma ColumnScanStep<T>(next: Move -> Option<T>, x: int, y: nat, boards: seq<(Move, T)>, done: seq<(Move, T)>, r: Option<T>)
    requires boards == done + ColumnScan(next, x, y) && r == next(Move(x, y))
    ensures (if r.Some? then boards + [(Move(x, y), r.value)] else boards) == done + ColumnScan(next, x, y + 1)
  {
    if r.Some? {
      assert done + ColumnScan(next, x, y) + [(Move(x, y), r.value)] == done + (ColumnScan(next, x, y) + [(Move(x, y), r.value)]);
    }
  }

  /** legal_moves: rows outside, columns inside, keeping the legal squares. */
  method ListLegalMoves(b: Board, p: Player) returns (moves: seq<Move>)
    ensures moves == LegalMoves(b, p)
  {
    moves := [];
    for y := 0 to Size
      invariant moves == RowsScan(LegalAt(b, p), y)
    {
      moves := ScanRow(b, p, y, moves);
    }
  }

  /** The inner loop of legal_moves: append the legal squares of row y, by column. */
  method ScanRow(b: Board, p: Player, y: int, done: seq<Move>) returns (moves: seq<Move>)
    requires 0 <= y < Size
    ensures moves == done + RowScan(LegalAt(b, p), y, Size)
  {
    moves := done;
    for x := 0 to Size
      invariant moves == done + RowScan(LegalAt(b, p), y, x)
    {
      moves := ScanSquare(b, p, x, y, moves, done);
    }
  }

  /** One square of the inner loop of legal_moves: append it when it is legal. */
  method ScanSquare(b: Board, p: Player, x: int, y: int, moves: seq<Move>, done: seq<Move>) returns (more: seq<Move>)
    requires 0 <= x < Size && 0 <= y < Size && moves == done + RowScan(LegalAt(b, p), y, x)
    ensures more == done + RowScan(LegalAt(b, p), y, x + 1)
  {
    var legal := LegalMove(b, Move(x, y), p);
    RowScanStep(LegalAt(b, p), y, x, moves, done, legal);
    more := if legal then moves + [Move(x, y)] else moves;
  }

  /** next_boards: columns outside, rows inside, keeping every board next_board gives. */
  method ListNextBoards(b: Board, p: Player) returns (boards: seq<(Move, Board)>)
    ensures boards == NextBoards(b, p)
  {
    boards := [];
    for x := 0 to Size
      invariant boards == ColumnsScan(NextAt(b, p), x)
    {
      boards := ScanColumn(b, p, x, boards);
    }
  }

  /** The inner loop of next_boards: append the boards of column x, by row. */
  method ScanColumn(b: Board, p: Player, x: int, done: seq<(Move, Board)>) returns (boards: seq<(Move, Board)>)
    requires 0 <= x < Size
    ensures boards == done + ColumnScan(NextAt(b, p), x, Size)
  {
    boards := done;
    for y := 0 to Size
      invariant boards == done + ColumnScan(NextAt(b, p), x, y)
    {
      boards := ScanBoard(b, p, x, y, boards, done);
    }
  }

  /** One square of the inner loop of next_boards: append its board when next_board gives one. */
  method ScanBoard(b: Board, p: Player, x: int, y: int, boards: seq<(Move, Board)>, done: seq<(Move, Board)>)
    returns (more: seq<(Move, Board)>)
    requires 0 <= x < Size && 0 <= y < Size && boards == done + ColumnScan(NextAt(b, p), x, y)
    ensures more == done + ColumnScan(NextAt(b, p), x, y + 1)
  {
    var r := ComputeNextBoard(b, Move(x, y), p);
    ColumnScanStep(NextAt(b, p), x, y, boards, done, r);
    more := if r.Some? then boards + [(Move(x, y), r.value)] else boards;
  }

  /** game_over: dark has no legal move and then light has none either. */
  method CheckGameOver(b: Board) returns (over: bool)
    ensures over == GameOver(b)
  {
    var dark := ListLegalMoves(b, Dark);
    if dark != [] {
      return false;
    }
    var light := ListLegalMoves(b, Light);
    return light == [];
  }

  /** disk_no: count the occupied squares, column by column. */
  method CountDisks(b: Board) returns (no: nat)
    ensures no == DiskNo(b)
  {
    ghost var occ := Occupied(b);
    no := 0;
    for x := 0 to Size
      invariant no == GridSum(occ, x, Size)
    {
      for y := 0 to Size
        invariant no == GridSum(occ, x, Size) + ColumnSum(occ, x, y)
      {
        if b[x][y] != Empty {
          no := no + 1;
        }
      }
    }
  }

  /** The sum of the disk values, accumulated column by column as disk_parity and play_reversi do. */
  method DiskDifference(b: Board) returns (diff: int)
    ensures diff == DiskSum(b)
  {
    ghost var signed := Signed(b);
    diff := 0;
    for x := 0 to Size
      invariant diff == GridSum(signed, x, Size)
    {
      for y := 0 to Size
        invariant diff == GridSum(signed, x, Size) + ColumnSum(signed, x, y)
      {
        diff := diff + Value(b[x][y]);
      }
    }
  }
}
