/**
 * play_reversi of src/reversi.cpp: the match loop that asks the two actors
 * for moves, charges each actor's time budget, applies the moves and passes
 * the turn until one side forfeits or neither side can move.
 *
 * The actors are function parameters.  How long an actor call takes is not
 * a function of anything the model sees, so the caller supplies it:
 * elapsed(n) is the duration, in seconds, of the n-th actor call (counting
 * from 0).  A budget is Some(seconds left) or None for no limit.  The turn
 * rule consults legal_moves through the rules g (see GameRules).
 */
module Reversi {
  import opened Board
  import opened GameRules

  /** An actor: the move it picks for the board, the player to move and that player's budget. */
  type Actor = (Board, Player, Option<real>) -> Move

  /** What the loop carries from one turn to the next. */
  datatype State = State(board: Board, player: Player, darkBudget: Option<real>, lightBudget: Option<real>)

  /** The outcome of one turn: the game ends with a winner (Empty for a draw), or it goes on. */
  datatype Step = Finished(winner: Disk) | Continue(next: State)

  /** The budget of the player to move. */
  function Budget(s: State): Option<real>
  {
    if s.player == Dark then s.darkBudget else s.lightBudget
  }

  /** A call that took needed seconds exceeded the budget. */
  predicate Overrun(budget: Option<real>, needed: real)
  {
    budget.Some? && needed > budget.value
  }

  /** The budget left after a call that took needed seconds. */
  function Charge(budget: Option<real>, needed: real): Option<real>
  {
    if budget.Some? then Some(budget.value - needed) else None
  }

  /** The result at the end of the game: the sign of the disk sum, none for zero. */
  function Winner(b: Board): Disk
  {
    var diff := DiskSum(b);
    if diff > 0 then Dark else if diff < 0 then Light else Empty
  }

  /** The starting position as a value. */
  function InitialBoard(): (b: Board)
    ensures IsInitial(b)
  {
    seq(Size, x => seq(Size, y => InitialDisk(x, y)))
  }

  /** The state before the first turn: the starting position, dark to move. */
  function Start(darkBudget: Option<real>, lightBudget: Option<real>): State
  {
    State(InitialBoard(), Dark, darkBudget, lightBudget)
  }

  /**
   * One pass through the loop body after the actor of s.player returned
   * move in needed seconds: the budget check, the move, and the turn rule.
   * An off-board move, which the source would index out of range with, is
   * treated as the invalid move it is.
   */
  function TakeTurn(g: Rules, s: State, move: Move, needed: real): Step
  {
    var p, q := s.player, Opponent(s.player);
    if Overrun(Budget(s), needed) then Finished(q)
    else match g.next(s.board, move, p)
    case None => Finished(q)
    case Some(r) =>
      var left := Charge(Budget(s), needed);
      var darkBudget := if p == Dark then left else s.darkBudget;
      var lightBudget := if p == Light then left else s.lightBudget;
      if g.moves(r, q) != [] then Continue(State(r, q, darkBudget, lightBudget))
      else if g.moves(r, p) != [] then Continue(State(r, p, darkBudget, lightBudget))
      else Finished(Winner(r))
  }

  /** The move the actor of s.player picks. */
  function Ask(dark: Actor, light: Actor, s: State): Move
  {
    if s.player == Dark then dark(s.board, Dark, s.darkBudget) else light(s.board, Light, s.lightBudget)
  }

  /** The winner of the game from s on, where turn actor calls have been made before. */
  ghost function Play(g: Rules, dark: Actor, light: Actor, elapsed: nat -> real, s: State, turn: nat): Disk
    requires IsReversi(g)
    decreases Size * Size - DiskNo(s.board)
  {
    var move := Ask(dark, light, s);
    match TakeTurn(g, s, move, elapsed(turn))
    case Finished(w) => w
    case Continue(t) =>
      ContinueAddsDisk(g, s, move, elapsed(turn));
      DiskNoBounds(s.board);
      Play(g, dark, light, elapsed, t, turn + 1)
  }

  /** The number of actor calls the game from s on makes. */
  ghost function Calls(g: Rules, dark: Actor, light: Actor, elapsed: nat -> real, s: State, turn: nat): nat
    requires IsReversi(g)
    decreases Size * Size - DiskNo(s.board)
  {
    var move := Ask(dark, light, s);
    match TakeTurn(g, s, move, elapsed(turn))
    case Finished(_) => 1
    case Continue(t) =>
      ContinueAddsDisk(g, s, move, elapsed(turn));
      DiskNoBounds(s.board);
      1 + Calls(g, dark, light, elapsed, t, turn + 1)
  }

  // ---------------------------------------------------------------------
  // What one turn does
  // ---------------------------------------------------------------------

  /**
   * A call over the remaining budget, an off-board move or an illegal move
   * ends the game at once with the opponent as the winner.
   */
  lemma Forfeit(g: Rules, s: State, move: Move, needed: real)
    requires IsReversi(g)
    requires Overrun(Budget(s), needed) || !OnBoard(move) || !IsLegal(s.board, move, s.player)
    ensures TakeTurn(g, s, move, needed) == Finished(Opponent(s.player))
  {
    NextIffLegal(g, s.board, move, s.player);
  }

  /**
   * After a move the rules play, within the budget, on to board r: the game
   * goes on unless r is over; the opponent moves next if it can, else the
   * mover again; the mover's budget is charged the time of the call and the
   * other budget is unchanged; a game that ends is decided by the disk sum.
   */
  lemma TurnRule(g: Rules, s: State, move: Move, needed: real, r: Board)
    requires IsReversi(g)
    requires !Overrun(Budget(s), needed) && g.next(s.board, move, s.player) == Some(r)
    ensures TakeTurn(g, s, move, needed).Continue? <==> !g.over(r)
    ensures TakeTurn(g, s, move, needed).Continue? ==>
      TakeTurn(g, s, move, needed).next.board == r &&
      Budget(State(r, s.player, TakeTurn(g, s, move, needed).next.darkBudget, TakeTurn(g, s, move, needed).next.lightBudget)) ==
        Charge(Budget(s), needed) &&
      Budget(State(r, Opponent(s.player), TakeTurn(g, s, move, needed).next.darkBudget, TakeTurn(g, s, move, needed).next.lightBudget)) ==
        Budget(State(r, Opponent(s.player), s.darkBudget, s.lightBudget))
    ensures TakeTurn(g, s, move, needed).Continue? ==>
      (TakeTurn(g, s, move, needed).next.player == Opponent(s.player) <==> g.moves(r, Opponent(s.player)) != [])
    ensures TakeTurn(g, s, move, needed).Finished? ==> TakeTurn(g, s, move, needed).winner == Winner(r)
  {
    OverIffStuck(g, r);
  }

  /** A turn that goes on plays a legal move, adds one disk and hands the move to a player who can move. */
  lemma ContinueAddsDisk(g: Rules, s: State, move: Move, needed: real)
    requires IsReversi(g) && TakeTurn(g, s, move, needed).Continue?
    ensures OnBoard(move) && IsLegal(s.board, move, s.player)
    ensures DiskNo(TakeTurn(g, s, move, needed).next.board) == DiskNo(s.board) + 1
    ensures g.moves(TakeTurn(g, s, move, needed).next.board, TakeTurn(g, s, move, needed).next.player) != []
  {
    ContinueShape(g, s, move, needed);
    NextIffLegal(g, s.board, move, s.player);
    NextAddsDisk(g, s.board, move, s.player);
  }

  /** A turn that goes on is on the board the rules play, with a player the rules say can move. */
  lemma ContinueShape(g: Rules, s: State, move: Move, needed: real)
    requires TakeTurn(g, s, move, needed).Continue?
    ensures g.next(s.board, move, s.player).Some?
    ensures TakeTurn(g, s, move, needed).next.board == g.next(s.board, move, s.player).value
    ensures g.moves(TakeTurn(g, s, move, needed).next.board, TakeTurn(g, s, move, needed).next.player) != []
  {
  }

  /** Dark wins on more disks, light on more light disks, and equal counts are a draw. */
  lemma WinnerMeaning(b: Board)
    ensures Winner(b) == Dark <==> Tally(b, Dark) > Tally(b, Light)
    ensures Winner(b) == Light <==> Tally(b, Dark) < Tally(b, Light)
    ensures Winner(b) == Empty <==> Tally(b, Dark) == Tally(b, Light)
  {
    DiskSumIsDifference(b);
  }

  /** One turn of the game: a finished turn decides it; a turn that goes on adds a disk and leaves the rest to the next state. */
  lemma PlayUnfold(g: Rules, dark: Actor, light: Actor, elapsed: nat -> real, s: State, turn: nat)
    requires IsReversi(g)
    ensures TakeTurn(g, s, Ask(dark, light, s), elapsed(turn)).Finished? ==>
      Play(g, dark, light, elapsed, s, turn) == TakeTurn(g, s, Ask(dark, light, s), elapsed(turn)).winner &&
      Calls(g, dark, light, elapsed, s, turn) == 1
    ensures TakeTurn(g, s, Ask(dark, light, s), elapsed(turn)).Continue? ==>
      var t := TakeTurn(g, s, Ask(dark, light, s), elapsed(turn)).next;
      DiskNo(t.board) == DiskNo(s.board) + 1 &&
      Play(g, dark, light, elapsed, s, turn) == Play(g, dark, light, elapsed, t, turn + 1) &&
      Calls(g, dark, light, elapsed, s, turn) == 1 + Calls(g, dark, light, elapsed, t, turn + 1)
  {
    if TakeTurn(g, s, Ask(dark, light, s), elapsed(turn)).Continue? {
      ContinueAddsDisk(g, s, Ask(dark, light, s), elapsed(turn));
    }
  }

  // ---------------------------------------------------------------------
  // The game ends within 60 moves
  // ---------------------------------------------------------------------

  /** A player with a legal move has an empty square to play on. */
  lemma MovableNotFull(b: Board, p: Player)
    requires LegalMoves(b, p) != []
    ensures DiskNo(b) < Size * Size
  {
    LegalMovesSpec(b, p);
    var m := LegalMoves(b, p)[0];
    assert m in LegalMoves(b, p);
    NextBoardIffLegal(b, m, p);
    NextBoardCounts(b, m, p);
    DiskNoBounds(NextBoard(b, m, p).value);
  }

  /** The same, for a player the rules g say can move. */
  lemma MovesNotFull(g: Rules, b: Board, p: Player)
    requires IsReversi(g) && g.moves(b, p) != []
    ensures DiskNo(b) < Size * Size
  {
    assert AgreesAt(g, b, p);
    MovableNotFull(b, p);
  }

  /** Dark has a legal move in the starting position. */
  lemma StartCanMove(g: Rules, b: Board)
    requires IsReversi(g) && IsInitial(b)
    ensures g.moves(b, Dark) != []
  {
    StartDarkLegal(b);
    LegalIsListed(b, Move(3, 2), Dark);
    assert AgreesAt(g, b, Dark);
  }

  /** A legal move is among legal_moves. */
  lemma LegalIsListed(b: Board, m: Move, p: Player)
    requires OnBoard(m) && IsLegal(b, m, p)
    ensures m in LegalMoves(b, p)
  {
    LegalMovesSpec(b, p);
  }

  /** A game whose player to move can move makes at most one call per empty square. */
  lemma {:induction false} CallsBound(g: Rules, dark: Actor, light: Actor, elapsed: nat -> real, s: State, turn: nat)
    requires IsReversi(g) && g.moves(s.board, s.player) != []
    ensures Calls(g, dark, light, elapsed, s, turn) <= Size * Size - DiskNo(s.board)
    decreases Size * Size - DiskNo(s.board)
  {
    MovesNotFull(g, s.board, s.player);
    PlayUnfold(g, dark, light, elapsed, s, turn);
    var step := TakeTurn(g, s, Ask(dark, light, s), elapsed(turn));
    if step.Continue? {
      ContinueShape(g, s, Ask(dark, light, s), elapsed(turn));
      CallsBound(g, dark, light, elapsed, step.next, turn + 1);
    }
  }

  /** Dark can move at the start, so a game makes at most 60 actor calls. */
  lemma GameLength(g: Rules, dark: Actor, light: Actor, elapsed: nat -> real, darkBudget: Option<real>, lightBudget: Option<real>)
    requires IsReversi(g)
    ensures Calls(g, dark, light, elapsed, Start(darkBudget, lightBudget), 0) <= Size * Size - 4
  {
    StartCanMove(g, InitialBoard());
    InitialDiskNo(InitialBoard());
    CallsBound(g, dark, light, elapsed, Start(darkBudget, lightBudget), 0);
  }

  // ---------------------------------------------------------------------
  // The loop
  // ---------------------------------------------------------------------

  /**
   * The loop body after the actor call: charge the mover's budget or
   * forfeit, apply next_board or forfeit, then pass the turn or, when
   * neither side can move, sum the disks.
   */
  method PlayTurn(s: State, move: Move, needed: real, ghost g: Rules) returns (step: Step)
    requires IsReversi(g)
    ensures step == TakeTurn(g, s, move, needed)
  {
    var board, player := s.board, s.player;
    var darkBudget, lightBudget := s.darkBudget, s.lightBudget;
    if player == Dark {
      if darkBudget.Some? {
        if needed > darkBudget.value {
          return Finished(Light);
        }
        darkBudget := Some(darkBudget.value - needed);
      }
    } else {
      if lightBudget.Some? {
        if needed > lightBudget.value {
          return Finished(Dark);
        }
        lightBudget := Some(lightBudget.value - needed);
      }
    }
    var opponent := Opponent(player);
    var next := Apply(board, move, player, g);
    if next.None? {
      return Finished(opponent);
    }
    board := next.value;
    var opponentMoves := Moves(board, opponent, g);
    if opponentMoves != [] {
      return Continue(State(board, opponent, darkBudget, lightBudget));
    }
    var ownMoves := Moves(board, player, g);
    if ownMoves != [] {
      return Continue(State(board, player, darkBudget, lightBudget));
    }
    var diff := DiskDifference(board);
    if diff > 0 {
      return Finished(Dark);
    } else if diff < 0 {
      return Finished(Light);
    } else {
      return Finished(Empty);
    }
  }

  /** One pass of the loop of play_reversi: ask the actor to move, time the call and take the turn. */
  method Round(dark: Actor, light: Actor, elapsed: nat -> real, s: State, turn: nat, ghost g: Rules) returns (step: Step)
    requires IsReversi(g)
    ensures step == TakeTurn(g, s, Ask(dark, light, s), elapsed(turn))
  {
    var move: Move;
    if s.player == Dark {
      move := dark(s.board, Dark, s.darkBudget);
    } else {
      move := light(s.board, Light, s.lightBudget);
    }
    var needed := elapsed(turn);
    step := PlayTurn(s, move, needed, g);
  }

  /**
   * play_reversi: from the starting position with dark to move, ask the
   * actor of the player to move, play the turn, and stop at the first
   * finished turn.  calls counts the actor calls.
   */
  method PlayReversi(dark: Actor, darkBudget: Option<real>, light: Actor, lightBudget: Option<real>, elapsed: nat -> real, ghost g: Rules)
    returns (winner: Disk, ghost calls: nat)
    requires IsReversi(g)
    ensures winner == Play(g, dark, light, elapsed, Start(darkBudget, lightBudget), 0)
    ensures calls == Calls(g, dark, light, elapsed, Start(darkBudget, lightBudget), 0) && calls <= 60
  {
    var board := NewBoard();
    BoardsEqual(board, InitialBoard());
    var s := State(board, Dark, darkBudget, lightBudget);
    var turn: nat := 0;
    ghost var result := Play(g, dark, light, elapsed, s, 0);
    ghost var total := Calls(g, dark, light, elapsed, s, 0);
    GameLength(g, dark, light, elapsed, darkBudget, lightBudget);
    DiskNoBounds(s.board);
    while true
      invariant Play(g, dark, light, elapsed, s, turn) == result
      invariant turn + Calls(g, dark, light, elapsed, s, turn) == total
      invariant DiskNo(s.board) <= Size * Size
      decreases Size * Size - DiskNo(s.board)
    {
      var step := Round(dark, light, elapsed, s, turn, g);
      PlayUnfold(g, dark, light, elapsed, s, turn);
      match step
      case Finished(w) =>
        winner, calls := w, turn + 1;
        return;
      case Continue(t) =>
        DiskNoBounds(t.board);
        s, turn := t, turn + 1;
    }
  }
}
