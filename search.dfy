/**
 * The search of src/minimax.cpp: minimax_depth, a negamax alpha-beta
 * recursion with the forced-pass rule, and generic_minimax_actor's root
 * pass and iterative deepening.
 *
 * Negamax is the plain (unpruned) value the pruned search is measured
 * against.  The clock of the deepening loop is a caller-supplied predicate
 * keepGoing(depth) standing for "enough time is left for this depth".
 */
module Search {
  import opened Board
  import opened GameRules
  import opened Evaluation

  /** A rating of a board for the player to move. */
  type Rater = (Board, Player) -> real

  /** The documented demand on a heuristic: every rating lies in [-1, 1]. */
  ghost predicate Admissible(h: Rater)
  {
    forall b, p :: -1.0 <= h(b, p) <= 1.0
  }

  function Max(x: real, y: real): real
  {
    if x >= y then x else y
  }

  // ---------------------------------------------------------------------
  // The plain negamax value
  // ---------------------------------------------------------------------

  /** The value of board b for p searched depth moves deep, without pruning. */
  function Negamax(g: Rules, b: Board, p: Player, depth: nat, h: Rater): real
    decreases depth, 2, 0
  {
    if depth == 0 || g.over(b) then h(b, p) else BestOf(g, p, depth, h, g.kids(b, p))
  }

  /**
   * The largest value among the boards kids reached from a node at depth,
   * starting from -1, the least value a search window admits.
   */
  function BestOf(g: Rules, p: Player, depth: nat, h: Rater, kids: seq<(Move, Board)>): real
    requires depth >= 1
    decreases depth, 1, |kids|
  {
    if kids == [] then -1.0
    else Max(BestOf(g, p, depth, h, kids[..|kids| - 1]), ChildValue(g, kids[|kids| - 1].1, p, depth - 1, h))
  }

  /**
   * The value for p of the board c p's move produced: the negated value for
   * the opponent if the opponent can move, else the value for p, who moves again.
   */
  function ChildValue(g: Rules, c: Board, p: Player, depth: nat, h: Rater): real
    decreases depth, 3, 0
  {
    if g.moves(c, Opponent(p)) != [] then -Negamax(g, c, Opponent(p), depth, h) else Negamax(g, c, p, depth, h)
  }

  lemma {:induction false} NegamaxBounds(g: Rules, b: Board, p: Player, depth: nat, h: Rater)
    requires Admissible(h)
    ensures -1.0 <= Negamax(g, b, p, depth, h) <= 1.0
    decreases depth, 2, 0
  {
    if !(depth == 0 || g.over(b)) {
      BestOfBounds(g, p, depth, h, g.kids(b, p));
    }
  }

  lemma {:induction false} BestOfBounds(g: Rules, p: Player, depth: nat, h: Rater, kids: seq<(Move, Board)>)
    requires depth >= 1 && Admissible(h)
    ensures -1.0 <= BestOf(g, p, depth, h, kids) <= 1.0
    decreases depth, 1, |kids|
  {
    if kids != [] {
      BestOfBounds(g, p, depth, h, kids[..|kids| - 1]);
      ChildValueBounds(g, kids[|kids| - 1].1, p, depth - 1, h);
    }
  }

  lemma {:induction false} ChildValueBounds(g: Rules, c: Board, p: Player, depth: nat, h: Rater)
    requires Admissible(h)
    ensures -1.0 <= ChildValue(g, c, p, depth, h) <= 1.0
    decreases depth, 3, 0
  {
    NegamaxBounds(g, c, Opponent(p), depth, h);
    NegamaxBounds(g, c, p, depth, h);
  }

  /** Extending the list of boards by one takes the larger of the two values. */
  lemma BestOfStep(g: Rules, p: Player, depth: nat, h: Rater, kids: seq<(Move, Board)>, i: int)
    requires depth >= 1 && 0 <= i < |kids|
    ensures BestOf(g, p, depth, h, kids[..i + 1]) ==
      Max(BestOf(g, p, depth, h, kids[..i]), ChildValue(g, kids[i].1, p, depth - 1, h))
  {
    assert kids[..i + 1][..i] == kids[..i];
  }

  /** The value of the boards is at least the value of any first part of them. */
  lemma {:induction false} BestOfPrefix(g: Rules, p: Player, depth: nat, h: Rater, kids: seq<(Move, Board)>, i: int)
    requires depth >= 1 && 0 <= i <= |kids|
    ensures BestOf(g, p, depth, h, kids[..i]) <= BestOf(g, p, depth, h, kids)
    decreases |kids|
  {
    if i == |kids| {
      assert kids[..i] == kids;
    } else {
      var init := kids[..|kids| - 1];
      BestOfPrefix(g, p, depth, h, init, i);
      assert init[..i] == kids[..i];
    }
  }

  /** The value of the boards is at least each board's value and at least -1. */
  lemma {:induction false} BestOfUpper(g: Rules, p: Player, depth: nat, h: Rater, kids: seq<(Move, Board)>)
    requires depth >= 1
    ensures BestOf(g, p, depth, h, kids) >= -1.0
    ensures forall j :: 0 <= j < |kids| ==> ChildValue(g, kids[j].1, p, depth - 1, h) <= BestOf(g, p, depth, h, kids)
    decreases |kids|
  {
    if kids != [] {
      var init := kids[..|kids| - 1];
      BestOfUpper(g, p, depth, h, init);
      forall j | 0 <= j < |init|
        ensures kids[j] == init[j]
      {
      }
    }
  }

  // ---------------------------------------------------------------------
  // minimax_depth
  // ---------------------------------------------------------------------

  /** The window [-1, 1] contains alpha <= beta. */
  predicate InRange(alpha: real, beta: real)
  {
    -1.0 <= alpha <= beta <= 1.0
  }

  /**
   * What alpha-beta promises about a result r for a node of plain value v:
   * at most alpha when v is, exactly v strictly inside (alpha, beta), and at
   * least beta when v is.
   */
  predicate Window(r: real, v: real, alpha: real, beta: real)
  {
    (v <= alpha ==> r <= alpha) && (alpha < v < beta ==> r == v) && (beta <= v ==> beta <= r)
  }

  /** The negated result for the negated window. */
  lemma WindowNegate(r: real, v: real, alpha: real, beta: real)
    requires Window(r, v, -beta, -alpha)
    ensures Window(-r, -v, alpha, beta)
  {
  }

  /** Taking the larger of the running alpha and a child's result keeps the promise for the larger value. */
  lemma WindowStep(a: real, v: real, r: real, w: real, alpha: real, beta: real)
    requires alpha <= a <= beta
    requires Window(a, v, alpha, beta) && Window(r, w, a, beta)
    ensures Window(Max(a, r), Max(v, w), alpha, beta)
  {
  }

  /** A result at least beta keeps the promise for any larger value. */
  lemma WindowExtend(r: real, v: real, w: real, alpha: real, beta: real)
    requires alpha <= beta && Window(r, v, alpha, beta) && v <= w && beta <= r
    ensures Window(r, w, alpha, beta)
  {
  }

  /**
   * minimax_depth: the heuristic at depth 0 or at the end of the game, and
   * otherwise alpha-beta over next_boards(p), where a child whose opponent
   * has no move is searched for p again with the same window.  The loop
   * returns as soon as beta <= alpha.
   */
  method MinimaxDepth(b: Board, p: Player, depth: nat, alpha: real, beta: real, h: Rater, ghost g: Rules) returns (r: real)
    requires IsReversi(g)
    ensures depth == 0 || g.over(b) ==> r == h(b, p)
    ensures !(depth == 0 || g.over(b)) ==> r >= alpha
    ensures InRange(alpha, beta) ==> Window(r, Negamax(g, b, p, depth, h), alpha, beta)
    ensures InRange(alpha, beta) && Admissible(h) ==> -1.0 <= r <= 1.0
    decreases depth, 1
  {
    var over := IsOver(b, g);
    if depth == 0 || over {
      return h(b, p);
    }
    var kids := Children(b, p, g);
    var bestValue := alpha;
    var a := alpha;
    for i := 0 to |kids|
      invariant bestValue == a && alpha <= a
      invariant InRange(alpha, beta) ==> a <= beta && Window(a, BestOf(g, p, depth, h, kids[..i]), alpha, beta)
      invariant InRange(alpha, beta) && Admissible(h) ==> a <= 1.0
    {
      var (_, next) := kids[i];
      var value := SearchChild(next, p, depth - 1, a, beta, h, g);
      if InRange(alpha, beta) {
        BestOfStep(g, p, depth, h, kids, i);
        WindowStep(a, BestOf(g, p, depth, h, kids[..i]), value, ChildValue(g, next, p, depth - 1, h), alpha, beta);
      }
      if value > bestValue {
        bestValue := value;
      }
      if value > a {
        a := value;
      }
      if beta <= a {
        if InRange(alpha, beta) {
          BestOfPrefix(g, p, depth, h, kids, i + 1);
          WindowExtend(a, BestOf(g, p, depth, h, kids[..i + 1]), BestOf(g, p, depth, h, kids), alpha, beta);
        }
        return bestValue;
      }
    }
    assert kids[..|kids|] == kids;
    return bestValue;
  }

  /**
   * The value minimax_depth and the root pass give the board next that p's
   * move produced: the negated search for the opponent with the negated
   * window if the opponent can move, else the search for p again with the
   * same window.
   */
  method SearchChild(next: Board, p: Player, depth: nat, alpha: real, beta: real, h: Rater, ghost g: Rules) returns (value: real)
    requires IsReversi(g)
    ensures InRange(alpha, beta) ==> Window(value, ChildValue(g, next, p, depth, h), alpha, beta)
    ensures InRange(alpha, beta) && Admissible(h) ==> -1.0 <= value <= 1.0
    decreases depth, 2
  {
    var opponent := Opponent(p);
    var opponentMoves := Moves(next, opponent, g);
    if opponentMoves != [] {
      var v := MinimaxDepth(next, opponent, depth, -beta, -alpha, h, g);
      value := -v;
      if InRange(alpha, beta) {
        WindowNegate(v, Negamax(g, next, opponent, depth, h), alpha, beta);
      }
    } else {
      value := MinimaxDepth(next, p, depth, alpha, beta, h, g);
    }
  }

  // ---------------------------------------------------------------------
  // The root pass of generic_minimax_actor
  // ---------------------------------------------------------------------

  /**
   * The move the root pass keeps after the boards kids, on plain values:
   * a board's move replaces the kept one when its value beats every earlier
   * value and -1.
   */
  function RootMove(g: Rules, p: Player, depth: nat, h: Rater, kids: seq<(Move, Board)>, prev: Move): Move
    requires depth >= 1
  {
    if kids == [] then prev
    else
      var n := |kids| - 1;
      if ChildValue(g, kids[n].1, p, depth - 1, h) > BestOf(g, p, depth, h, kids[..n]) then kids[n].0
      else RootMove(g, p, depth, h, kids[..n], prev)
  }

  /**
   * The root pass keeps its previous move when no board is worth more than
   * -1, and otherwise picks the first board of greatest value.
   */
  lemma {:induction false} RootMoveFirstMax(g: Rules, p: Player, depth: nat, h: Rater, kids: seq<(Move, Board)>, prev: Move)
    requires depth >= 1
    ensures BestOf(g, p, depth, h, kids) == -1.0 ==> RootMove(g, p, depth, h, kids, prev) == prev
    ensures BestOf(g, p, depth, h, kids) > -1.0 ==>
      exists k :: 0 <= k < |kids| && RootMove(g, p, depth, h, kids, prev) == kids[k].0 &&
        ChildValue(g, kids[k].1, p, depth - 1, h) == BestOf(g, p, depth, h, kids) &&
        forall j :: 0 <= j < k ==> ChildValue(g, kids[j].1, p, depth - 1, h) < BestOf(g, p, depth, h, kids)
    decreases |kids|
  {
    if kids != [] {
      var n := |kids| - 1;
      var init := kids[..n];
      BestOfUpper(g, p, depth, h, init);
      RootMoveFirstMax(g, p, depth, h, init, prev);
      var best := BestOf(g, p, depth, h, kids);
      if ChildValue(g, kids[n].1, p, depth - 1, h) > BestOf(g, p, depth, h, init) {
        forall j | 0 <= j < n
          ensures ChildValue(g, kids[j].1, p, depth - 1, h) < best
        {
          assert kids[j] == init[j];
        }
      } else if best > -1.0 {
        var k :| 0 <= k < |init| && RootMove(g, p, depth, h, init, prev) == init[k].0 &&
          ChildValue(g, init[k].1, p, depth - 1, h) == best &&
          forall j :: 0 <= j < k ==> ChildValue(g, init[j].1, p, depth - 1, h) < best;
        assert kids[k] == init[k];
        forall j | 0 <= j < k
          ensures ChildValue(g, kids[j].1, p, depth - 1, h) < best
        {
          assert kids[j] == init[j];
        }
      }
    }
  }

  /** The move the root pass keeps is its previous move or the move of one of the boards. */
  lemma {:induction false} RootMoveFrom(g: Rules, p: Player, depth: nat, h: Rater, kids: seq<(Move, Board)>, prev: Move)
    requires depth >= 1
    ensures RootMove(g, p, depth, h, kids, prev) == prev || Lists(kids, RootMove(g, p, depth, h, kids, prev))
    decreases |kids|
  {
    if kids != [] {
      var n, move := |kids| - 1, RootMove(g, p, depth, h, kids, prev);
      RootMoveFrom(g, p, depth, h, kids[..n], prev);
      if move == kids[n].0 {
        assert kids[n].0 == move;
      } else if move != prev {
        var k :| 0 <= k < n && kids[..n][k].0 == move;
        assert kids[k] == kids[..n][k];
      }
    }
  }

  /** With beta = 1, a pruned child result changes the running best exactly when the plain value does. */
  lemma RootStep(r: real, w: real, a: real)
    requires -1.0 <= a <= 1.0 && -1.0 <= r <= 1.0 && -1.0 <= w <= 1.0
    requires Window(r, w, a, 1.0)
    ensures r > a <==> w > a
    ensures r > a ==> r == w
  {
  }

  /**
   * One root pass at the given depth: window [-1, 1], alpha raised by each
   * better value and never a cutoff; the move changes only on a strictly
   * better value, so it starts as the move of the previous pass.
   */
  method RootPass(b: Board, p: Player, depth: nat, h: Rater, prev: Move, ghost g: Rules) returns (bestMove: Move)
    requires depth >= 1 && Admissible(h) && IsReversi(g)
    ensures bestMove == RootMove(g, p, depth, h, g.kids(b, p), prev)
  {
    var alpha, beta := -1.0, 1.0;
    var bestValue := alpha;
    bestMove := prev;
    var kids := Children(b, p, g);
    for i := 0 to |kids|
      invariant bestValue == alpha == BestOf(g, p, depth, h, kids[..i])
      invariant bestMove == RootMove(g, p, depth, h, kids[..i], prev)
    {
      BestOfBounds(g, p, depth, h, kids[..i]);
      var (move, next) := kids[i];
      var value := SearchChild(next, p, depth - 1, alpha, beta, h, g);
      ChildValueBounds(g, next, p, depth - 1, h);
      RootStep(value, ChildValue(g, next, p, depth - 1, h), alpha);
      BestOfStep(g, p, depth, h, kids, i);
      assert kids[..i + 1][..i] == kids[..i];
      if value > bestValue {
        bestValue := value;
        bestMove := move;
      }
      if value > alpha {
        alpha := value;
      }
    }
    assert kids[..|kids|] == kids;
  }

  // ---------------------------------------------------------------------
  // Iterative deepening
  // ---------------------------------------------------------------------

  /** The loop condition: depth 1 always runs, later depths while time is left and depth <= maxRemaining. */
  predicate Continues(keepGoing: nat -> bool, maxRemaining: nat, depth: nat)
  {
    depth == 1 || (keepGoing(depth) && depth <= maxRemaining)
  }

  /** The last depth whose pass runs when the loop reaches depth. */
  function LastDepth(keepGoing: nat -> bool, maxRemaining: nat, depth: nat): nat
    requires depth >= 1
    decreases if depth <= maxRemaining + 1 then maxRemaining + 2 - depth else 0
  {
    if Continues(keepGoing, maxRemaining, depth) then LastDepth(keepGoing, maxRemaining, depth + 1) else depth - 1
  }

  lemma {:induction false} LastDepthRan(keepGoing: nat -> bool, maxRemaining: nat, depth: nat)
    requires depth >= 2 && Continues(keepGoing, maxRemaining, depth - 1)
    ensures LastDepth(keepGoing, maxRemaining, depth) >= depth - 1
    ensures Continues(keepGoing, maxRemaining, LastDepth(keepGoing, maxRemaining, depth))
    decreases if depth <= maxRemaining + 1 then maxRemaining + 2 - depth else 0
  {
    if Continues(keepGoing, maxRemaining, depth) {
      LastDepthRan(keepGoing, maxRemaining, depth + 1);
    }
  }

  /** The loop runs depth 1 and never a depth beyond maxRemaining after it. */
  lemma LastDepthBounds(keepGoing: nat -> bool, maxRemaining: nat)
    ensures LastDepth(keepGoing, maxRemaining, 1) >= 1
    ensures LastDepth(keepGoing, maxRemaining, 1) == 1 || LastDepth(keepGoing, maxRemaining, 1) <= maxRemaining
  {
    LastDepthRan(keepGoing, maxRemaining, 2);
  }

  /** The move after the passes at depths 1 .. n, each starting from the move of the one before. */
  function Chain(g: Rules, b: Board, p: Player, h: Rater, n: nat): Move
  {
    if n == 0 then Sentinel else RootMove(g, p, n, h, g.kids(b, p), Chain(g, b, p, h, n - 1))
  }

  /** Every pass keeps the sentinel or picks a move of next_boards. */
  lemma {:induction false} ChainFrom(g: Rules, b: Board, p: Player, h: Rater, n: nat)
    ensures Chain(g, b, p, h, n) == Sentinel || Lists(g.kids(b, p), Chain(g, b, p, h, n))
  {
    if n > 0 {
      ChainFrom(g, b, p, h, n - 1);
      RootMoveFrom(g, p, n, h, g.kids(b, p), Chain(g, b, p, h, n - 1));
    }
  }

  /** The move generic_minimax_actor returns. */
  function Actor(g: Rules, b: Board, p: Player, h: Rater, keepGoing: nat -> bool): Move
    requires DiskNo(b) == 4 ==> g.moves(b, p) != []
  {
    if DiskNo(b) == 4 then g.moves(b, p)[0]
    else
      DiskNoBounds(b);
      Chain(g, b, p, h, LastDepth(keepGoing, Size * Size - DiskNo(b), 1))
  }

  /** The actor returns a legal move or, when no pass found a value above -1, the sentinel. */
  lemma ActorLegal(g: Rules, b: Board, p: Player, h: Rater, keepGoing: nat -> bool)
    requires IsReversi(g)
    requires DiskNo(b) == 4 ==> g.moves(b, p) != []
    ensures Actor(g, b, p, h, keepGoing) == Sentinel ||
      (OnBoard(Actor(g, b, p, h, keepGoing)) && IsLegal(b, Actor(g, b, p, h, keepGoing), p))
  {
    assert AgreesAt(g, b, p);
    if DiskNo(b) == 4 {
      LegalMovesSpec(b, p);
      assert LegalMoves(b, p)[0] in LegalMoves(b, p);
    } else {
      DiskNoBounds(b);
      ChainFrom(g, b, p, h, LastDepth(keepGoing, Size * Size - DiskNo(b), 1));
      if Actor(g, b, p, h, keepGoing) != Sentinel {
        ListedIsLegal(b, p, Actor(g, b, p, h, keepGoing));
      }
    }
  }

  /**
   * generic_minimax_actor: the first legal move on a board of four disks,
   * else root passes at depths 1, 2, ... while the loop condition holds,
   * each keeping the move of the one before unless it finds a better one.
   */
  method GenericMinimaxActor(b: Board, p: Player, h: Rater, keepGoing: nat -> bool, ghost g: Rules) returns (move: Move)
    requires Admissible(h) && IsReversi(g)
    requires DiskNo(b) == 4 ==> g.moves(b, p) != []
    ensures move == Actor(g, b, p, h, keepGoing)
  {
    var diskNo := CountDisks(b);
    if diskNo == 4 {
      var moves := Moves(b, p, g);
      assert Actor(g, b, p, h, keepGoing) == moves[0];
      return moves[0];
    }
    DiskNoBounds(b);
    move := Deepen(b, p, h, keepGoing, Size * Size - diskNo, g);
    ActorDeepens(g, b, p, h, keepGoing);
  }

  /** Past the first turn the actor's move is that of the last root pass. */
  lemma ActorDeepens(g: Rules, b: Board, p: Player, h: Rater, keepGoing: nat -> bool)
    requires DiskNo(b) != 4
    ensures DiskNo(b) <= Size * Size
    ensures Actor(g, b, p, h, keepGoing) == Chain(g, b, p, h, LastDepth(keepGoing, Size * Size - DiskNo(b), 1))
  {
    DiskNoBounds(b);
  }

  /**
   * The iterative-deepening loop: root passes at depths 1, 2, ... while the
   * loop condition holds, each starting from the move of the one before.
   */
  method Deepen(b: Board, p: Player, h: Rater, keepGoing: nat -> bool, maxRemaining: nat, ghost g: Rules) returns (bestMove: Move)
    requires Admissible(h) && IsReversi(g)
    ensures bestMove == Chain(g, b, p, h, LastDepth(keepGoing, maxRemaining, 1))
  {
    bestMove := Sentinel;
    var depth := 1;
    while depth == 1 || (keepGoing(depth) && depth <= maxRemaining)
      invariant depth >= 1 && bestMove == Chain(g, b, p, h, depth - 1)
      invariant LastDepth(keepGoing, maxRemaining, 1) == LastDepth(keepGoing, maxRemaining, depth)
      decreases if depth <= maxRemaining + 1 then maxRemaining + 2 - depth else 0
    {
      bestMove := RootPass(b, p, depth, h, bestMove, g);
      depth := depth + 1;
    }
  }

  /** minimax_actor: the generic actor with composite_heuristic. */
  lemma CompositeAdmissible()
    ensures Admissible(CompositeHeuristic)
  {
    forall b, p
      ensures -1.0 <= CompositeHeuristic(b, p) <= 1.0
    {
      HeuristicFacts(b, p);
    }
  }

  method MinimaxActor(b: Board, p: Player, keepGoing: nat -> bool) returns (move: Move)
    requires DiskNo(b) == 4 ==> LegalMoves(b, p) != []
    ensures move == Actor(ReversiRules, b, p, CompositeHeuristic, keepGoing)
  {
    CompositeAdmissible();
    RulesAreReversi();
    assert AgreesAt(ReversiRules, b, p);
    move := GenericMinimaxActor(b, p, CompositeHeuristic, keepGoing, ReversiRules);
  }
}
