/** The rules engine as the server runs it: loops over a mutable 8x8 board
    `board[y, x]`, each proved against the definitions of module Rules. */
module Engine {
  import opened Wrappers
  import opened Rules
  import opened BoardProofs

  predicate IsBoard(board: array2<int>) {
    board.Length0 == 8 && board.Length1 == 8
  }

  /** The board's current contents as a value. */
  function Snapshot(board: array2<int>): (g: Grid)
    reads board
    requires IsBoard(board)
    ensures IsGrid(g)
    ensures forall y, x :: 0 <= y < 8 && 0 <= x < 8 ==> g[y][x] == board[y, x]
  {
    seq(8, y requires 0 <= y < 8 reads board =>
      seq(8, x requires 0 <= x < 8 reads board => board[y, x]))
  }

  /** A fresh board holding the starting position. */
  method CreateInitialBoard() returns (board: array2<int>)
    ensures fresh(board) && IsBoard(board)
    ensures Snapshot(board) == InitialGrid
  {
    board := new int[8, 8];
    var y := 0;
    while y < 8
      invariant 0 <= y <= 8
      invariant forall r, c :: 0 <= r < y && 0 <= c < 8 ==> board[r, c] == Empty
    {
      var x := 0;
      while x < 8
        invariant 0 <= x <= 8
        invariant forall r, c :: 0 <= r < y && 0 <= c < 8 ==> board[r, c] == Empty
        invariant forall c :: 0 <= c < x ==> board[y, c] == Empty
      {
        board[y, x] := Empty;
        x := x + 1;
      }
      y := y + 1;
    }
    board[3, 3], board[4, 4] := Black, Black;
    board[3, 4], board[4, 3] := White, White;
    assert forall y, x :: 0 <= y < 8 && 0 <= x < 8 ==> board[y, x] == InitialCell(x, y);
    InitialGridCells();
    GridsEqual(Snapshot(board), InitialGrid);
  }

  /** A fresh copy of a board (`clone_board`). */
  method CloneBoard(board: array2<int>) returns (copy: array2<int>)
    requires IsBoard(board)
    ensures fresh(copy) && IsBoard(copy)
    ensures Snapshot(copy) == Snapshot(board)
  {
    copy := new int[8, 8];
    var y := 0;
    while y < 8
      invariant 0 <= y <= 8
      invariant forall r, c :: 0 <= r < y && 0 <= c < 8 ==> copy[r, c] == board[r, c]
    {
      var x := 0;
      while x < 8
        invariant 0 <= x <= 8
        invariant forall r, c :: 0 <= r < y && 0 <= c < 8 ==> copy[r, c] == board[r, c]
        invariant forall c :: 0 <= c < x ==> copy[y, c] == board[y, c]
      {
        copy[y, x] := board[y, x];
        x := x + 1;
      }
      y := y + 1;
    }
    GridsEqual(Snapshot(copy), Snapshot(board));
  }

  /** The direction loop of `find_legal_moves` for one empty cell: scan
      each direction in turn and stop at the first that brackets. */
  method CellHasBracket(board: array2<int>, player: int, x: int, y: int) returns (brackets: bool)
    requires IsBoard(board)
    ensures brackets == HasBracket(Snapshot(board), player, x, y)
  {
    ghost var g := Snapshot(board);
    var opponent := 1 - player;
    var i := 0;
    while i < 8
      invariant 0 <= i <= 8
      invariant forall j :: 0 <= j < i ==> !Brackets(g, player, x, y, Directions[j])
    {
      var d := Directions[i];
      var cx, cy := x + d.0, y + d.1;
      var sawOpponent := false;
      while InBounds(cx, cy) && board[cy, cx] == opponent
        invariant RunEnd(g, opponent, cx, cy, d) == RunEnd(g, opponent, x + d.0, y + d.1, d)
        invariant |RunPath(g, opponent, x + d.0, y + d.1, d)| > 0 <==>
          (sawOpponent || |RunPath(g, opponent, cx, cy, d)| > 0)
        decreases StepsLeft(cx, cy, d)
      {
        sawOpponent := true;
        cx, cy := cx + d.0, cy + d.1;
      }
      BracketsWhenScanStops(g, player, x, y, d, cx, cy, sawOpponent);
      if sawOpponent && InBounds(cx, cy) && board[cy, cx] == player {
        return true;
      }
      i := i + 1;
    }
    return false;
  }

  /** `find_legal_moves`: every empty cell from which some direction
      crosses one or more opponent pieces and lands on one of the player's,
      in sorted order. */
  method FindLegalMoves(board: array2<int>, player: int) returns (moves: seq<Pos>)
    requires IsBoard(board)
    ensures moves == LegalMoves(Snapshot(board), player)
  {
    ghost var g := Snapshot(board);
    var found: set<Pos> := {};
    var y := 0;
    while y < 8
      invariant 0 <= y <= 8
      invariant forall m :: m in found <==> InBounds(m.0, m.1) && m.1 < y && IsLegal(g, player, m.0, m.1)
    {
      var x := 0;
      while x < 8
        invariant 0 <= x <= 8
        invariant forall m :: m in found <==>
          InBounds(m.0, m.1) && (m.1 < y || (m.1 == y && m.0 < x)) && IsLegal(g, player, m.0, m.1)
      {
        if board[y, x] == Empty {
          var legal := CellHasBracket(board, player, x, y);
          if legal {
            found := found + {(x, y)};
          }
        }
        x := x + 1;
      }
      y := y + 1;
    }
    assert found == LegalSet(g, player);
    moves := SortedCells(found);
  }

  /** The scan of `apply_player_move` in one direction: the opponent
      pieces crossed from (cx, cy) on, and the cell where the scan stops. */
  method ScanRun(board: array2<int>, opponent: int, cx: int, cy: int, d: Pos) returns (path: seq<Pos>, end: Pos)
    requires IsBoard(board) && d in Directions
    ensures path == RunPath(Snapshot(board), opponent, cx, cy, d)
    ensures end == RunEnd(Snapshot(board), opponent, cx, cy, d)
  {
    ghost var g := Snapshot(board);
    path := [];
    var ex, ey := cx, cy;
    while InBounds(ex, ey) && board[ey, ex] == opponent
      invariant RunEnd(g, opponent, ex, ey, d) == RunEnd(g, opponent, cx, cy, d)
      invariant RunPath(g, opponent, cx, cy, d) == path + RunPath(g, opponent, ex, ey, d)
      decreases StepsLeft(ex, ey, d)
    {
      RunStep(g, opponent, ex, ey, d);
      assert path + RunPath(g, opponent, ex, ey, d) == (path + [(ex, ey)]) + RunPath(g, opponent, ex + d.0, ey + d.1, d);
      path := path + [(ex, ey)];
      ex, ey := ex + d.0, ey + d.1;
    }
    end := (ex, ey);
  }

  /** One direction of `apply_player_move`: the opponent pieces crossed
      from the next cell on, kept when the scan stops on one of the
      player's pieces. */
  method BracketedRun(board: array2<int>, player: int, x: int, y: int, d: Pos) returns (run: seq<Pos>)
    requires IsBoard(board) && d in Directions
    ensures run == Bracketed(Snapshot(board), player, x, y, d)
  {
    var path, end := ScanRun(board, 1 - player, x + d.0, y + d.1, d);
    if |path| > 0 && InBounds(end.0, end.1) && board[end.1, end.0] == player {
      run := path;
    } else {
      run := [];
    }
  }

  /** The direction loop of `apply_player_move`: the bracketed runs of
      every direction, gathered in scan order. */
  method CollectFlips(board: array2<int>, player: int, x: int, y: int) returns (flips: seq<Pos>)
    requires IsBoard(board)
    ensures flips == Flips(Snapshot(board), player, x, y)
  {
    ghost var g := Snapshot(board);
    flips := [];
    var i := 0;
    while i < 8
      invariant 0 <= i <= 8
      invariant flips == FlipsUpTo(g, player, x, y, i)
    {
      var run := BracketedRun(board, player, x, y, Directions[i]);
      flips := flips + run;
      i := i + 1;
    }
  }

  /** `apply_player_move`: on an empty cell of the board that brackets at
      least one run, place the piece and flip every bracketed run in place,
      reporting success and the number of cells changed; otherwise change
      nothing and report `(false, 0)`. */
  method ApplyPlayerMove(board: array2<int>, player: int, x: int, y: int) returns (ok: bool, changed: int)
    requires IsBoard(board)
    modifies board
    ensures ok == IsLegal(old(Snapshot(board)), player, x, y)
    ensures changed == if ok then 1 + |Flips(old(Snapshot(board)), player, x, y)| else 0
    ensures Snapshot(board) == if ok then Place(old(Snapshot(board)), player, x, y) else old(Snapshot(board))
  {
    if !InBounds(x, y) || board[y, x] != Empty {
      return false, 0;
    }
    ghost var g := Snapshot(board);
    var flips := CollectFlips(board, player, x, y);
    FlipsMeaning(g, player, x, y);
    if |flips| == 0 {
      return false, 0;
    }
    PlaceAndFlip(board, player, x, y, flips);
    GridsEqual(Snapshot(board), Place(g, player, x, y));
    return true, 1 + |flips|;
  }

  /** The writes of `apply_player_move`: the played cell, then every
      flipped cell in turn, takes the player's colour. */
  method PlaceAndFlip(board: array2<int>, player: int, x: int, y: int, flips: seq<Pos>)
    requires IsBoard(board) && InBounds(x, y)
    requires forall f :: f in flips ==> InBounds(f.0, f.1)
    modifies board
    ensures forall r, c :: 0 <= r < 8 && 0 <= c < 8 ==>
      board[r, c] == if (c, r) == (x, y) || (c, r) in flips then player else old(board[r, c])
  {
    board[y, x] := player;
    var j := 0;
    while j < |flips|
      invariant 0 <= j <= |flips|
      invariant forall r, c :: 0 <= r < 8 && 0 <= c < 8 ==>
        board[r, c] == if (c, r) == (x, y) || (c, r) in flips[..j] then player else old(board[r, c])
    {
      var f := flips[j];
      assert f in flips;
      board[f.1, f.0] := player;
      j := j + 1;
    }
    assert flips[..j] == flips;
  }

  /** `count_pieces`: the numbers of black and of white pieces, counted
      row by row. */
  method CountPieces(board: array2<int>) returns (black: int, white: int)
    requires IsBoard(board)
    ensures black == Count(Snapshot(board), Black)
    ensures white == Count(Snapshot(board), White)
  {
    ghost var g := Snapshot(board);
    black, white := 0, 0;
    var y := 0;
    while y < 8
      invariant 0 <= y <= 8
      invariant black == |CellsBefore(g, Black, 8 * y)|
      invariant white == |CellsBefore(g, White, 8 * y)|
    {
      var x := 0;
      while x < 8
        invariant 0 <= x <= 8
        invariant black == |CellsBefore(g, Black, 8 * y + x)|
        invariant white == |CellsBefore(g, White, 8 * y + x)|
      {
        CountStepAt(g, Black, x, y);
        CountStepAt(g, White, x, y);
        var c := board[y, x];
        if c == Black {
          black := black + 1;
        } else if c == White {
          white := white + 1;
        }
        x := x + 1;
      }
      y := y + 1;
    }
  }

  /** `check_game_over`: the game is over when neither the player to move
      nor the opponent has a legal move. */
  method CheckGameOver(board: array2<int>, currentTurn: int) returns (over: bool)
    requires IsBoard(board)
    ensures over == GameOver(Snapshot(board), currentTurn)
  {
    var currentMoves := FindLegalMoves(board, currentTurn);
    if currentMoves != [] {
      return false;
    }
    var opponentMoves := FindLegalMoves(board, 1 - currentTurn);
    if opponentMoves != [] {
      return false;
    }
    return true;
  }

  /** The body of the loop of `cpu_select_move` for one legal move: play it
      on a copy of the board and score it. */
  method ScoreMove(board: array2<int>, cpuPlayer: int, m: Pos) returns (success: bool, score: int)
    requires IsBoard(board) && m in LegalMoves(Snapshot(board), cpuPlayer)
    ensures success && score == CpuScore(Snapshot(board), cpuPlayer, m)
  {
    ghost var g := Snapshot(board);
    assert m in LegalSet(g, cpuPlayer);
    assert IsLegal(g, cpuPlayer, m.0, m.1);
    var tmp := CloneBoard(board);
    var flipped;
    success, flipped := ApplyPlayerMove(tmp, cpuPlayer, m.0, m.1);
    assert success && flipped == 1 + |Flips(g, cpuPlayer, m.0, m.1)|;
    score := flipped;
    if m in {(0, 0), (0, 7), (7, 0), (7, 7)} {
      score := score + 100;
    } else if m.0 in {0, 7} || m.1 in {0, 7} {
      score := score + 10;
    }
  }

  /** `cpu_select_move`: None when the CPU has no legal move; otherwise the
      legal move with the highest score (pieces changed, plus 100 on a
      corner or 10 elsewhere on the rim), the earliest in sorted order
      among equal scores. */
  method CpuSelectMove(board: array2<int>, cpuPlayer: int) returns (choice: Option<Pos>)
    requires IsBoard(board)
    ensures choice.None? <==> LegalMoves(Snapshot(board), cpuPlayer) == []
    ensures choice.Some? ==> choice.value in LegalMoves(Snapshot(board), cpuPlayer)
    ensures choice.Some? ==> forall m :: m in LegalMoves(Snapshot(board), cpuPlayer) ==>
      CpuScore(Snapshot(board), cpuPlayer, m) <= CpuScore(Snapshot(board), cpuPlayer, choice.value)
    ensures choice.Some? ==> forall m :: m in LegalMoves(Snapshot(board), cpuPlayer) && LexLess(m, choice.value) ==>
      CpuScore(Snapshot(board), cpuPlayer, m) < CpuScore(Snapshot(board), cpuPlayer, choice.value)
  {
    ghost var g := Snapshot(board);
    var moves := FindLegalMoves(board, cpuPlayer);
    if moves == [] {
      return None;
    }
    var bestScore := -1;
    var bestMove := moves[0];
    ghost var bestIndex := 0;
    var i := 0;
    while i < |moves|
      invariant 0 <= i <= |moves| && 0 <= bestIndex < |moves|
      invariant bestMove == moves[bestIndex] && Snapshot(board) == g
      invariant i == 0 ==> bestScore == -1
      invariant i > 0 ==> bestIndex < i && bestScore == CpuScore(g, cpuPlayer, bestMove)
      invariant forall j :: 0 <= j < i ==> CpuScore(g, cpuPlayer, moves[j]) <= bestScore
      invariant forall j :: 0 <= j < bestIndex ==> CpuScore(g, cpuPlayer, moves[j]) < bestScore
    {
      var m := moves[i];
      var success, score := ScoreMove(board, cpuPlayer, m);
      if success && score > bestScore {
        bestScore := score;
        bestMove := m;
        bestIndex := i;
      }
      i := i + 1;
    }
    choice := Some(bestMove);
    FirstBest(g, cpuPlayer, moves, bestIndex);
  }

  /** A move that scores at least as well as every legal move and better
      than every earlier one beats every move that sorts before it. */
  lemma FirstBest(g: Grid, p: int, moves: seq<Pos>, k: int)
    requires IsGrid(g) && moves == LegalMoves(g, p) && 0 <= k < |moves|
    requires forall j :: 0 <= j < |moves| ==> CpuScore(g, p, moves[j]) <= CpuScore(g, p, moves[k])
    requires forall j :: 0 <= j < k ==> CpuScore(g, p, moves[j]) < CpuScore(g, p, moves[k])
    ensures forall m :: m in moves ==> CpuScore(g, p, m) <= CpuScore(g, p, moves[k])
    ensures forall m :: m in moves && LexLess(m, moves[k]) ==> CpuScore(g, p, m) < CpuScore(g, p, moves[k])
  {
    forall m | m in moves && LexLess(m, moves[k])
      ensures CpuScore(g, p, m) < CpuScore(g, p, moves[k])
    {
      var j :| 0 <= j < |moves| && moves[j] == m;
      if j >= k {
        assert j == k || LexLess(moves[k], moves[j]);
      }
    }
  }
}
