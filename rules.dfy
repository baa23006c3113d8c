/**
 * The rules as the search and the match loop consult them: game_over,
 * legal_moves(p), next_boards(p) and next_board(move, p) of src/board.cpp,
 * gathered in a record of functions.
 *
 * The value of a search and the course of a game are stated over such a
 * record g, and IsReversi(g) ties it to the board's own functions square
 * for square.  The methods below are the board's operations seen through
 * g: each calls the board method and states its result in terms of g.
 */
module GameRules {
  import opened Board

  /**
   * Four views of the rules: game_over, legal_moves, next_boards and
   * next_board, the last one total (none for a square off the board).
   */
  datatype Rules = Rules(
    over: Board -> bool,
    moves: (Board, Player) -> seq<Move>,
    kids: (Board, Player) -> seq<(Move, Board)>,
    next: (Board, Move, Player) -> Option<Board>)

  /** g agrees with the rules of reversi at b for p. */
  ghost predicate AgreesAt(g: Rules, b: Board, p: Player)
  {
    g.over(b) == GameOver(b) && g.moves(b, p) == LegalMoves(b, p) && g.kids(b, p) == NextBoards(b, p)
  }

  /** g plays m for p on b the way next_board does. */
  ghost predicate PlaysAt(g: Rules, b: Board, m: Move, p: Player)
  {
    g.next(b, m, p) == if OnBoard(m) then NextBoard(b, m, p) else None
  }

  ghost predicate IsReversi(g: Rules)
  {
    (forall b, p :: AgreesAt(g, b, p)) && (forall b, m, p :: PlaysAt(g, b, m, p))
  }

  /** The rules of reversi. */
  const ReversiRules: Rules := Rules(
      (b: Board) => GameOver(b),
      (b: Board, p: Player) => LegalMoves(b, p),
      (b: Board, p: Player) => NextBoards(b, p),
      (b: Board, m: Move, p: Player) => if OnBoard(m) then NextBoard(b, m, p) else None)

  lemma RulesAreReversi()
    ensures IsReversi(ReversiRules)
  {
    var g := ReversiRules;
    forall b, p
      ensures AgreesAt(g, b, p)
    {
      assert g.over(b) == GameOver(b) && g.moves(b, p) == LegalMoves(b, p) && g.kids(b, p) == NextBoards(b, p);
    }
    forall b, m, p
      ensures PlaysAt(g, b, m, p)
    {
      assert g.next(b, m, p) == if OnBoard(m) then NextBoard(b, m, p) else None;
    }
  }

  /** Under the rules of reversi the game is over exactly when neither side has a legal move. */
  lemma OverIffStuck(g: Rules, b: Board)
    requires IsReversi(g)
    ensures g.over(b) <==> g.moves(b, Dark) == [] && g.moves(b, Light) == []
  {
    assert AgreesAt(g, b, Dark) && AgreesAt(g, b, Light);
  }

  /** g plays m exactly when m is a legal move on the board, and then plays it as next_board does. */
  lemma NextIffLegal(g: Rules, b: Board, m: Move, p: Player)
    requires IsReversi(g)
    ensures g.next(b, m, p).Some? <==> OnBoard(m) && IsLegal(b, m, p)
  {
    assert PlaysAt(g, b, m, p);
    if OnBoard(m) {
      NextBoardIffLegal(b, m, p);
    }
  }

  /** A move g plays adds exactly one disk. */
  lemma NextAddsDisk(g: Rules, b: Board, m: Move, p: Player)
    requires IsReversi(g) && g.next(b, m, p).Some?
    ensures DiskNo(g.next(b, m, p).value) == DiskNo(b) + 1
  {
    assert PlaysAt(g, b, m, p);
    NextBoardCounts(b, m, p);
  }

  /** game_over, stated through the rules g. */
  method IsOver(b: Board, ghost g: Rules) returns (over: bool)
    requires IsReversi(g)
    ensures over == g.over(b)
  {
    assert AgreesAt(g, b, Dark);
    over := CheckGameOver(b);
  }

  /** next_boards(p), stated through the rules g. */
  method Children(b: Board, p: Player, ghost g: Rules) returns (kids: seq<(Move, Board)>)
    requires IsReversi(g)
    ensures kids == g.kids(b, p)
  {
    assert AgreesAt(g, b, p);
    kids := ListNextBoards(b, p);
  }

  /** legal_moves(p), stated through the rules g. */
  method Moves(b: Board, p: Player, ghost g: Rules) returns (moves: seq<Move>)
    requires IsReversi(g)
    ensures moves == g.moves(b, p)
  {
    assert AgreesAt(g, b, p);
    moves := ListLegalMoves(b, p);
  }

  /** next_board(move, p), stated through the rules g. */
  method Apply(b: Board, m: Move, p: Player, ghost g: Rules) returns (r: Option<Board>)
    requires IsReversi(g)
    ensures r == g.next(b, m, p)
  {
    assert PlaysAt(g, b, m, p);
    if !OnBoard(m) {
      return None;
    }
    r := ComputeNextBoard(b, m, p);
  }
}
