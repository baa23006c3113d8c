/**
 * The board evaluator of src/minimax.cpp: five sub-scores and their
 * weighted average composite_heuristic.
 *
 * Every sub-score has the form player * (a - c) / (|a| + |c|), or 0 when
 * the denominator is 0, for some dark quantity a and light quantity c.  The
 * source computes in double; all quantities are small integers, so the
 * model computes them exactly as int and the scores as real.
 */
module Evaluation {
  import opened Sums
  import opened Board
  import opened Stability

  function Abs(n: int): nat
  {
    if n < 0 then -n else n
  }

  /** player * (a - c) / (|a| + |c|), and 0 when |a| + |c| is 0. */
  function Ratio(p: Player, a: int, c: int): real
  {
    if Abs(a) + Abs(c) != 0 then (Value(p) * (a - c)) as real / (Abs(a) + Abs(c)) as real else 0.0
  }

  lemma DivBounds(n: int, d: int)
    requires 0 < d && -d <= n <= d
    ensures -1.0 <= n as real / d as real <= 1.0
  {
    var q := n as real / d as real;
    assert q * d as real == n as real;
  }

  lemma DivSign(n: int, d: int)
    requires 0 < d
    ensures n > 0 ==> n as real / d as real > 0.0
    ensures n < 0 ==> n as real / d as real < 0.0
  {
    var q := n as real / d as real;
    assert q * d as real == n as real;
  }

  lemma DivNegate(n: int, d: int)
    requires 0 < d
    ensures (-n) as real / d as real == -(n as real / d as real)
  {
    var q, q' := n as real / d as real, (-n) as real / d as real;
    assert q * d as real == n as real;
    assert q' * d as real == -(n as real);
    assert (q + q') * d as real == 0.0;
  }

  /**
   * The shared ratio lies in [-1, 1], is 0 when its denominator is 0,
   * changes sign with the player, and is positive exactly when the player
   * is ahead.
   */
  lemma RatioFacts(p: Player, a: int, c: int)
    ensures -1.0 <= Ratio(p, a, c) <= 1.0
    ensures Ratio(p, a, c) == -Ratio(Opponent(p), a, c)
    ensures Abs(a) + Abs(c) == 0 ==> Ratio(p, a, c) == 0.0
    ensures Ratio(p, a, c) > 0.0 <==> Value(p) * (a - c) > 0
    ensures Ratio(p, a, c) < 0.0 <==> Value(p) * (a - c) < 0
  {
    if Abs(a) + Abs(c) != 0 {
      var n, d := Value(p) * (a - c), Abs(a) + Abs(c);
      assert -d <= n <= d;
      DivBounds(n, d);
      DivSign(n, d);
      DivNegate(n, d);
      assert Value(Opponent(p)) * (a - c) == -n;
    }
  }

  /** The ratio is 0 exactly when both quantities are equal. */
  lemma RatioZeroIff(p: Player, a: int, c: int)
    ensures Ratio(p, a, c) == 0.0 <==> a == c
  {
    RatioFacts(p, a, c);
    assert Value(p) == 1 || Value(p) == -1;
  }

  /** For counts, the denominator is their sum. */
  lemma RatioOfCounts(p: Player, a: nat, c: nat)
    ensures a + c != 0 ==> Ratio(p, a, c) == (Value(p) * (a - c)) as real / (a + c) as real
    ensures a + c == 0 ==> Ratio(p, a, c) == 0.0
  {
  }

  // ---------------------------------------------------------------------
  // corners_captured
  // ---------------------------------------------------------------------

  /** The corners in the order corners_captured visits them. */
  const Corners: seq<Move> := [Move(0, 0), Move(Size - 1, Size - 1), Move(0, Size - 1), Move(Size - 1, 0)]

  /** corner_diff: the sum of the disk values on the squares cs. */
  function CornerDiff(b: Board, cs: seq<Move>): int
    requires AllOnBoard(cs)
  {
    if cs == [] then 0 else CornerDiff(b, cs[..|cs| - 1]) + Value(At(b, cs[|cs| - 1]))
  }

  /** corners_captured: the number of occupied squares among cs. */
  function CornersTaken(b: Board, cs: seq<Move>): nat
    requires AllOnBoard(cs)
  {
    if cs == [] then 0 else CornersTaken(b, cs[..|cs| - 1]) + (if At(b, cs[|cs| - 1]) != Empty then 1 else 0)
  }

  /** The number of squares among cs holding d. */
  function CornersOf(b: Board, cs: seq<Move>, d: Disk): nat
    requires AllOnBoard(cs)
  {
    if cs == [] then 0 else CornersOf(b, cs[..|cs| - 1], d) + (if At(b, cs[|cs| - 1]) == d then 1 else 0)
  }

  /** The value corners_captured returns. */
  function CornerScore(b: Board, p: Player): real
  {
    var taken := CornersTaken(b, Corners);
    if taken != 0 then (Value(p) * CornerDiff(b, Corners)) as real / taken as real else 0.0
  }

  /** The disk difference and the count of taken squares are dark minus light and dark plus light. */
  lemma {:induction false} CornerCounts(b: Board, cs: seq<Move>)
    requires AllOnBoard(cs)
    ensures CornerDiff(b, cs) == CornersOf(b, cs, Dark) - CornersOf(b, cs, Light)
    ensures CornersTaken(b, cs) == CornersOf(b, cs, Dark) + CornersOf(b, cs, Light)
  {
    if cs != [] {
      CornerCounts(b, cs[..|cs| - 1]);
    }
  }

  /** corners_captured is the shared ratio of the dark and the light corners. */
  lemma CornerScoreIsRatio(b: Board, p: Player)
    ensures CornerScore(b, p) == Ratio(p, CornersOf(b, Corners, Dark), CornersOf(b, Corners, Light))
  {
    CornerCounts(b, Corners);
  }

  method CornersCaptured(b: Board, p: Player) returns (r: real)
    ensures r == CornerScore(b, p)
  {
    var cornerDiff, captured := 0, 0;
    for i := 0 to |Corners|
      invariant cornerDiff == CornerDiff(b, Corners[..i])
      invariant captured == CornersTaken(b, Corners[..i])
    {
      var c := Corners[i];
      assert Corners[..i + 1][..i] == Corners[..i];
      cornerDiff := cornerDiff + Value(b[c.x][c.y]);
      if b[c.x][c.y] != Empty {
        captured := captured + 1;
      }
    }
    assert Corners[..|Corners|] == Corners;
    if captured != 0 {
      r := (Value(p) * cornerDiff) as real / captured as real;
    } else {
      r := 0.0;
    }
  }

  // ---------------------------------------------------------------------
  // Scores summed over the disks of each colour
  // ---------------------------------------------------------------------

  /** w on the squares holding d, 0 elsewhere. */
  function OwnedBy(b: Board, d: Disk, w: (int, int) -> int): (int, int) -> int
  {
    (x: int, y: int) => if 0 <= x < Size && 0 <= y < Size && b[x][y] == d then w(x, y) else 0
  }

  /** The sum of w over the disks of colour d. */
  function Score(b: Board, d: Disk, w: (int, int) -> int): int
  {
    GridSum(OwnedBy(b, d, w), Size, Size)
  }

  /**
   * The loops of stability and static_heuristic: one pass over the board
   * adding the weight of each disk to the score of its colour.
   */
  method ColourScores(b: Board, w: (int, int) -> int) returns (dark: int, light: int)
    ensures dark == Score(b, Dark, w) && light == Score(b, Light, w)
  {
    ghost var fd, fl := OwnedBy(b, Dark, w), OwnedBy(b, Light, w);
    dark, light := 0, 0;
    for x := 0 to Size
      invariant dark == GridSum(fd, x, Size) && light == GridSum(fl, x, Size)
    {
      for y := 0 to Size
        invariant dark == GridSum(fd, x, Size) + ColumnSum(fd, x, y)
        invariant light == GridSum(fl, x, Size) + ColumnSum(fl, x, y)
      {
        match b[x][y]
        case Dark =>
          dark := dark + w(x, y);
        case Light =>
          light := light + w(x, y);
        case Empty =>
      }
    }
  }

  /**
   * The last step of stability and static_heuristic: the score difference
   * from p's side over the sum of the absolute scores, 0 when that sum is 0.
   */
  method ScoreRatio(p: Player, darkScore: int, lightScore: int) returns (r: real)
    ensures r == Ratio(p, darkScore, lightScore)
  {
    var scoreSum := Abs(darkScore) + Abs(lightScore);
    if scoreSum != 0 {
      r := (Value(p) * (darkScore - lightScore)) as real / scoreSum as real;
    } else {
      r := 0.0;
    }
  }

  // ---------------------------------------------------------------------
  // stability
  // ---------------------------------------------------------------------

  /** +1 for a stable disk, -1 for one that is not even semi-stable, 0 otherwise. */
  function StabilityWeight(stable: Mask, semi: Mask): (int, int) -> int
  {
    (x: int, y: int) =>
      if 0 <= x < Size && 0 <= y < Size then
        (if stable[x][y] then 1 else if !semi[x][y] then -1 else 0)
      else 0
  }

  /** The value stability returns. */
  function StabilityScore(b: Board, p: Player): real
  {
    var w := StabilityWeight(StableGrid(b), SemiStableGrid(b));
    Ratio(p, Score(b, Dark, w), Score(b, Light, w))
  }

  method StabilityHeuristic(b: Board, p: Player) returns (r: real)
    ensures r == StabilityScore(b, p)
  {
    var stable, _ := StableDisks(b);
    var semi := SemiStableDisks(b);
    var darkScore, lightScore := ColourScores(b, StabilityWeight(stable, semi));
    r := ScoreRatio(p, darkScore, lightScore);
  }

  // ---------------------------------------------------------------------
  // disk_parity
  // ---------------------------------------------------------------------

  /** The value disk_parity returns; it divides by disk_no, which the caller keeps positive. */
  function Parity(b: Board, p: Player): real
    requires DiskNo(b) > 0
  {
    (Value(p) * DiskSum(b)) as real / DiskNo(b) as real
  }

  lemma CountRatio(p: Player, diff: int, total: int, a: int, c: int)
    requires 0 <= a && 0 <= c && diff == a - c && total == a + c && total > 0
    ensures (Value(p) * diff) as real / total as real == Ratio(p, a, c)
  {
  }

  /** disk_parity is the shared ratio of the dark and the light disk counts. */
  lemma ParityIsRatio(b: Board, p: Player)
    requires DiskNo(b) > 0
    ensures Parity(b, p) == Ratio(p, Tally(b, Dark), Tally(b, Light))
  {
    DiskSumIsDifference(b);
    DiskNoIsTally(b);
    TallyBounds(b, Dark);
    TallyBounds(b, Light);
    CountRatio(p, DiskSum(b), DiskNo(b), Tally(b, Dark), Tally(b, Light));
  }

  method DiskParity(b: Board, p: Player) returns (r: real)
    requires DiskNo(b) > 0
    ensures r == Parity(b, p)
  {
    var diskDiff := DiskDifference(b);
    var no := CountDisks(b);
    r := (Value(p) * diskDiff) as real / no as real;
  }

  // ---------------------------------------------------------------------
  // static_heuristic
  // ---------------------------------------------------------------------

  /** The static square values of static_heuristic, indexed [column][row]. */
  const Weights: seq<seq<int>> := [
    [4, -3, 2, 2, 2, 2, -3, 4], [-3, -4, -1, -1, -1, -1, -4, -3],
    [2, -1, 1, 0, 0, 1, -1, 2], [2, -1, 0, 1, 1, 0, -1, 2],
    [2, -1, 0, 1, 1, 0, -1, 2], [2, -1, 1, 0, 0, 1, -1, 2],
    [-3, -4, -1, -1, -1, -1, -4, -3], [4, -3, 2, 2, 2, 2, -3, 4]]

  function Weight(x: int, y: int): int
  {
    if 0 <= x < Size && 0 <= y < Size then Weights[x][y] else 0
  }

  /** The value static_heuristic returns. */
  function StaticScore(b: Board, p: Player): real
  {
    Ratio(p, Score(b, Dark, Weight), Score(b, Light, Weight))
  }

  method StaticHeuristic(b: Board, p: Player) returns (r: real)
    ensures r == StaticScore(b, p)
  {
    var darkScore, lightScore := ColourScores(b, Weight);
    r := ScoreRatio(p, darkScore, lightScore);
  }

  // ---------------------------------------------------------------------
  // mobility
  // ---------------------------------------------------------------------

  /** The value mobility returns: the ratio of the numbers of legal moves. */
  function MobilityScore(b: Board, p: Player): real
  {
    Ratio(p, |LegalMoves(b, Dark)|, |LegalMoves(b, Light)|)
  }

  method Mobility(b: Board, p: Player) returns (r: real)
    ensures r == MobilityScore(b, p)
  {
    var darkMoves := ListLegalMoves(b, Dark);
    var lightMoves := ListLegalMoves(b, Light);
    var darkMobility, lightMobility := |darkMoves|, |lightMoves|;
    RatioOfCounts(p, darkMobility, lightMobility);
    if darkMobility + lightMobility != 0 {
      r := (Value(p) * (darkMobility - lightMobility)) as real / (darkMobility + lightMobility) as real;
    } else {
      r := 0.0;
    }
  }

  // ---------------------------------------------------------------------
  // The sub-score properties
  // ---------------------------------------------------------------------

  /** Each sub-score lies in [-1, 1] and changes sign with the player. */
  lemma CornerScoreFacts(b: Board, p: Player)
    ensures -1.0 <= CornerScore(b, p) <= 1.0
    ensures CornerScore(b, p) == -CornerScore(b, Opponent(p))
  {
    CornerScoreIsRatio(b, p);
    CornerScoreIsRatio(b, Opponent(p));
    RatioFacts(p, CornersOf(b, Corners, Dark), CornersOf(b, Corners, Light));
  }

  lemma StabilityScoreFacts(b: Board, p: Player)
    ensures -1.0 <= StabilityScore(b, p) <= 1.0
    ensures StabilityScore(b, p) == -StabilityScore(b, Opponent(p))
  {
    var w := StabilityWeight(StableGrid(b), SemiStableGrid(b));
    RatioFacts(p, Score(b, Dark, w), Score(b, Light, w));
  }

  lemma ParityFacts(b: Board, p: Player)
    requires DiskNo(b) > 0
    ensures -1.0 <= Parity(b, p) <= 1.0
    ensures Parity(b, p) == -Parity(b, Opponent(p))
  {
    ParityIsRatio(b, p);
    ParityIsRatio(b, Opponent(p));
    RatioFacts(p, Tally(b, Dark), Tally(b, Light));
  }

  lemma StaticScoreFacts(b: Board, p: Player)
    ensures -1.0 <= StaticScore(b, p) <= 1.0
    ensures StaticScore(b, p) == -StaticScore(b, Opponent(p))
  {
    RatioFacts(p, Score(b, Dark, Weight), Score(b, Light, Weight));
  }

  lemma MobilityScoreFacts(b: Board, p: Player)
    ensures -1.0 <= MobilityScore(b, p) <= 1.0
    ensures MobilityScore(b, p) == -MobilityScore(b, Opponent(p))
  {
    RatioFacts(p, |LegalMoves(b, Dark)|, |LegalMoves(b, Light)|);
  }

  /** A sub-score is 0 when nothing of either colour contributes to it. */
  lemma CornerScoreZero(b: Board, p: Player)
    ensures CornersTaken(b, Corners) == 0 ==> CornerScore(b, p) == 0.0
  {
  }

  lemma MobilityScoreZero(b: Board, p: Player)
    ensures |LegalMoves(b, Dark)| + |LegalMoves(b, Light)| == 0 ==> MobilityScore(b, p) == 0.0
  {
    RatioOfCounts(p, |LegalMoves(b, Dark)|, |LegalMoves(b, Light)|);
  }

  lemma StaticScoreZero(b: Board, p: Player)
    ensures Abs(Score(b, Dark, Weight)) + Abs(Score(b, Light, Weight)) == 0 ==> StaticScore(b, p) == 0.0
  {
  }

  lemma StabilityScoreZero(b: Board, p: Player)
    ensures var w := StabilityWeight(StableGrid(b), SemiStableGrid(b));
      Abs(Score(b, Dark, w)) + Abs(Score(b, Light, w)) == 0 ==> StabilityScore(b, p) == 0.0
  {
  }

  /** disk_parity is 0 exactly when both colours hold as many disks. */
  lemma ParityZero(b: Board, p: Player)
    requires DiskNo(b) > 0
    ensures Parity(b, p) == 0.0 <==> Tally(b, Dark) == Tally(b, Light)
  {
    ParityIsRatio(b, p);
    RatioZeroIff(p, Tally(b, Dark), Tally(b, Light));
  }

  // ---------------------------------------------------------------------
  // composite_heuristic
  // ---------------------------------------------------------------------

  /** The 6/5/1/5/1 weighted average of composite_heuristic. */
  function Combine(corners: real, stability: real, parity: real, statics: real, mobility: real): real
  {
    (6.0 * corners + 5.0 * stability + 1.0 * parity + 5.0 * statics + 1.0 * mobility) / (6.0 + 5.0 + 1.0 + 5.0 + 1.0)
  }

  /** The average of scores in [-1, 1] lies in [-1, 1]. */
  lemma CombineBounds(corners: real, stability: real, parity: real, statics: real, mobility: real)
    requires -1.0 <= corners <= 1.0 && -1.0 <= stability <= 1.0 && -1.0 <= parity <= 1.0
    requires -1.0 <= statics <= 1.0 && -1.0 <= mobility <= 1.0
    ensures -1.0 <= Combine(corners, stability, parity, statics, mobility) <= 1.0
  {
  }

  /** Negating every score negates the average. */
  lemma CombineNegate(corners: real, stability: real, parity: real, statics: real, mobility: real)
    ensures Combine(-corners, -stability, -parity, -statics, -mobility) ==
      -Combine(corners, stability, parity, statics, mobility)
  {
  }

  /**
   * composite_heuristic: disk parity once the game is over (or, in a branch
   * that cannot be taken, when more disks than squares are counted), and
   * otherwise the weighted average of the sub-scores.
   */
  function Composite(b: Board, p: Player): real
    requires DiskNo(b) > 0
  {
    if DiskNo(b) > Size * Size || GameOver(b) then Parity(b, p)
    else Combine(CornerScore(b, p), StabilityScore(b, p), Parity(b, p), StaticScore(b, p), MobilityScore(b, p))
  }

  /** The branch for more disks than squares is never taken. */
  lemma OverflowUnreachable(b: Board)
    ensures !(DiskNo(b) > Size * Size)
  {
    DiskNoBounds(b);
  }

  /** Once the game is over the rating is the disk parity; before, the weighted average. */
  lemma CompositeCases(b: Board, p: Player)
    requires DiskNo(b) > 0
    ensures GameOver(b) ==> Composite(b, p) == Parity(b, p)
    ensures !GameOver(b) ==>
      Composite(b, p) == Combine(CornerScore(b, p), StabilityScore(b, p), Parity(b, p), StaticScore(b, p), MobilityScore(b, p))
  {
    OverflowUnreachable(b);
  }

  /** composite_heuristic rates every board in [-1, 1]. */
  lemma CompositeBounds(b: Board, p: Player)
    requires DiskNo(b) > 0
    ensures -1.0 <= Composite(b, p) <= 1.0
  {
    CornerScoreFacts(b, p);
    StabilityScoreFacts(b, p);
    ParityFacts(b, p);
    StaticScoreFacts(b, p);
    MobilityScoreFacts(b, p);
    OverflowUnreachable(b);
    if !GameOver(b) {
      CombineBounds(CornerScore(b, p), StabilityScore(b, p), Parity(b, p), StaticScore(b, p), MobilityScore(b, p));
    }
  }

  /** composite_heuristic for light is minus the one for dark. */
  lemma CompositeAntisymmetry(b: Board)
    requires DiskNo(b) > 0
    ensures Composite(b, Dark) == -Composite(b, Light)
  {
    CornerScoreFacts(b, Light);
    StabilityScoreFacts(b, Light);
    ParityFacts(b, Light);
    StaticScoreFacts(b, Light);
    MobilityScoreFacts(b, Light);
    OverflowUnreachable(b);
    if !GameOver(b) {
      CombineNegate(CornerScore(b, Light), StabilityScore(b, Light), Parity(b, Light), StaticScore(b, Light), MobilityScore(b, Light));
    }
  }

  /**
   * The heuristic the search uses: composite_heuristic wherever it is
   * defined.  On the empty board, which no game reaches, disk_parity would
   * divide by zero; the model rates it 0.
   */
  function CompositeHeuristic(b: Board, p: Player): real
  {
    if DiskNo(b) > 0 then Composite(b, p) else 0.0
  }

  lemma HeuristicFacts(b: Board, p: Player)
    ensures -1.0 <= CompositeHeuristic(b, p) <= 1.0
    ensures CompositeHeuristic(b, p) == -CompositeHeuristic(b, Opponent(p))
    ensures DiskNo(b) > 0 ==> CompositeHeuristic(b, p) == Composite(b, p)
  {
    if DiskNo(b) > 0 {
      CompositeBounds(b, p);
      CompositeAntisymmetry(b);
    }
  }
}
