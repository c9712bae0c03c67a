/** Facts about piece counts and the starting position: `count_pieces`
    partitions the board, and `create_initial_board` yields two pieces a
    side, sixty empty cells and four opening moves for black. */
module BoardProofs {
  import opened Rules
  import opened RulesProofs

  /** The cell with rank n in row-major order. */
  function RowMajor(n: int): Pos {
    (n % 8, n / 8)
  }

  /** Counting one more cell in row-major order. */
  lemma CellsBeforeStep(g: Grid, c: int, n: int)
    requires IsGrid(g) && 0 <= n < 64
    ensures RowMajor(n) !in CellsBefore(g, c, n)
    ensures CellsBefore(g, c, n + 1) ==
      CellsBefore(g, c, n) + if g[n / 8][n % 8] == c then {RowMajor(n)} else {}
  {
  }

  /** Counting cell (x, y) adds one exactly when it holds c. */
  lemma CountStepAt(g: Grid, c: int, x: int, y: int)
    requires IsGrid(g) && InBounds(x, y)
    ensures |CellsBefore(g, c, 8 * y + x + 1)| == |CellsBefore(g, c, 8 * y + x)| + if g[y][x] == c then 1 else 0
  {
    var n := 8 * y + x;
    assert n / 8 == y && n % 8 == x;
    CellsBeforeStep(g, c, n);
  }

  /** The black, white and empty cells among the first n are n in all. */
  lemma {:induction false} CellsBeforeSplit(g: Grid, n: int)
    requires IsGrid(g) && CellsOk(g) && 0 <= n <= 64
    ensures |CellsBefore(g, Black, n)| + |CellsBefore(g, White, n)| + |CellsBefore(g, Empty, n)| == n
  {
    if n == 0 {
      assert CellsBefore(g, Black, 0) == {};
      assert CellsBefore(g, White, 0) == {};
      assert CellsBefore(g, Empty, 0) == {};
    } else {
      CellsBeforeSplit(g, n - 1);
      CellsBeforeStep(g, Black, n - 1);
      CellsBeforeStep(g, White, n - 1);
      CellsBeforeStep(g, Empty, n - 1);
    }
  }

  /** Two different colours never share a cell, so among the first n cells
      there are at most n of them together. */
  lemma {:induction false} CellsBeforeBound(g: Grid, a: int, b: int, n: int)
    requires IsGrid(g) && a != b && 0 <= n <= 64
    ensures |CellsBefore(g, a, n)| + |CellsBefore(g, b, n)| <= n
  {
    if n == 0 {
      assert CellsBefore(g, a, 0) == {};
      assert CellsBefore(g, b, 0) == {};
    } else {
      CellsBeforeBound(g, a, b, n - 1);
      CellsBeforeStep(g, a, n - 1);
      CellsBeforeStep(g, b, n - 1);
    }
  }

  /** `count_pieces`: black and white together never exceed the 64 cells,
      and on a well-formed board the empty cells make up the rest. */
  lemma CountsPartition(g: Grid)
    requires IsGrid(g)
    ensures Count(g, Black) + Count(g, White) <= 64
    ensures CellsOk(g) ==> Count(g, Black) + Count(g, White) + Count(g, Empty) == 64
  {
    CellsBeforeBound(g, Black, White, 64);
    if CellsOk(g) {
      CellsBeforeSplit(g, 64);
    }
  }

  /** A legal move keeps every cell black, white or empty. */
  lemma PlaceKeepsCellsOk(g: Grid, p: int, x: int, y: int)
    requires IsGrid(g) && CellsOk(g) && IsPlayer(p)
    ensures CellsOk(Place(g, p, x, y))
  {
  }

  /** Where the starting pieces stand. */
  lemma InitialCells(c: int)
    requires IsPlayer(c)
    ensures CellsBefore(InitialGrid, c, 64) ==
      if c == Black then {(3, 3), (4, 4)} else {(4, 3), (3, 4)}
  {
    forall m: Pos
      ensures m in CellsBefore(InitialGrid, c, 64) <==> InBounds(m.0, m.1) && InitialCell(m.0, m.1) == c
    {
      InCells(InitialGrid, c, m);
    }
  }

  /** `create_initial_board`: two pieces a side and sixty empty cells. */
  lemma InitialCounts()
    ensures IsGrid(InitialGrid) && CellsOk(InitialGrid)
    ensures Count(InitialGrid, Black) == 2 && Count(InitialGrid, White) == 2
    ensures Count(InitialGrid, Empty) == 60
  {
    InitialCells(Black);
    InitialCells(White);
    CellsBeforeSplit(InitialGrid, 64);
  }

  /** A non-empty list holds its first element. */
  lemma HeadIn(s: seq<Pos>)
    ensures s != [] ==> s[0] in s
  {
  }

  /** A strictly sorted list is determined by its elements. */
  lemma {:induction false} SortedEqual(a: seq<Pos>, b: seq<Pos>)
    requires StrictlySorted(a) && StrictlySorted(b)
    requires forall m :: m in a <==> m in b
    ensures a == b
  {
    if a == [] {
      HeadIn(b);
    } else {
      assert b != [] by {
        assert a[0] in b;
      }
      assert a[0] == b[0] by {
        assert a[0] in b;
        assert b[0] in a;
      }
      forall m
        ensures m in a[1..] <==> m in b[1..]
      {
        if m in a[1..] {
          assert m in b;
        }
        if m in b[1..] {
          assert m in a;
        }
      }
      SortedEqual(a[1..], b[1..]);
    }
  }

  /** In the starting position black brackets only from these four cells. */
  lemma InitialSandwich(x: int, y: int, d: Pos, k: int)
    requires d in Directions
    requires SandwichAlong(InitialGrid, Black, x, y, d, k)
    ensures (x, y) in {(2, 4), (3, 5), (4, 2), (5, 3)}
  {
    // Naming the first three cells of the ray lets the solver read them off.
    var c1, c2, c3 := Ray(x, y, d, 1), Ray(x, y, d, 2), Ray(x, y, d, 3);
    var w1, w2, w3 := Holds(InitialGrid, c1, White), Holds(InitialGrid, c2, White), Holds(InitialGrid, c3, White);
    var b2, b3 := Holds(InitialGrid, c2, Black), Holds(InitialGrid, c3, Black);
  }

  /** The brute-force rule picks out the four opening moves of black. */
  lemma InitialSandwichLegal(m: Pos)
    ensures SandwichLegal(InitialGrid, Black, m.0, m.1) <==> m in {(2, 4), (3, 5), (4, 2), (5, 3)}
  {
    if SandwichLegal(InitialGrid, Black, m.0, m.1) {
      var d, k :| d in Directions && SandwichAlong(InitialGrid, Black, m.0, m.1, d, k);
      InitialSandwich(m.0, m.1, d, k);
    } else {
      InitialOpenings(m);
    }
  }

  /** Each of the four opening moves brackets one white piece. */
  lemma InitialOpenings(m: Pos)
    ensures m in {(2, 4), (3, 5), (4, 2), (5, 3)} ==> SandwichLegal(InitialGrid, Black, m.0, m.1)
  {
    if m == (2, 4) {
      assert SandwichAlong(InitialGrid, Black, 2, 4, (1, 0), 1);
    } else if m == (3, 5) {
      assert SandwichAlong(InitialGrid, Black, 3, 5, (0, -1), 1);
    } else if m == (4, 2) {
      assert SandwichAlong(InitialGrid, Black, 4, 2, (0, 1), 1);
    } else if m == (5, 3) {
      assert SandwichAlong(InitialGrid, Black, 5, 3, (-1, 0), 1);
    }
  }

  /** `find_legal_moves` on the starting position gives black exactly
      (2, 4), (3, 5), (4, 2) and (5, 3), in that order. */
  lemma InitialBlackMoves()
    ensures LegalMoves(InitialGrid, Black) == [(2, 4), (3, 5), (4, 2), (5, 3)]
  {
    InitialMovesOf(InitialGrid);
  }

  /** The same, for a grid only known to equal the starting one (which
      keeps the solver from evaluating the scan on the constant). */
  lemma InitialMovesOf(g: Grid)
    requires g == InitialGrid
    ensures LegalMoves(g, Black) == [(2, 4), (3, 5), (4, 2), (5, 3)]
  {
    var expected := [(2, 4), (3, 5), (4, 2), (5, 3)];
    var moves := LegalMoves(g, Black);
    LegalMovesSpec(g, Black);
    forall m: Pos
      ensures m in moves <==> m in expected
    {
      InitialSandwichLegal(m);
    }
    assert StrictlySorted(moves);
    OpeningsSorted();
    SortedEqual(moves, expected);
  }

  lemma OpeningsSorted()
    ensures StrictlySorted([(2, 4), (3, 5), (4, 2), (5, 3)])
  {
  }

  /** A list is empty exactly when nothing is in it. */
  lemma EmptyIffNoMember(s: seq<Pos>)
    ensures s == [] <==> forall m :: m !in s
  {
    if s != [] {
      assert s[0] in s;
    }
  }

  /** No cell passes the brute-force rule for p. */
  ghost predicate Stuck(g: Grid, p: int)
    requires IsGrid(g)
  {
    forall x, y :: !SandwichLegal(g, p, x, y)
  }

  /** A player has no move exactly when no cell passes the brute-force rule. */
  lemma NoMovesMeaning(g: Grid, p: int)
    requires IsGrid(g)
    ensures LegalMoves(g, p) == [] <==> Stuck(g, p)
  {
    LegalMovesSpec(g, p);
    EmptyIffNoMember(LegalMoves(g, p));
    if LegalMoves(g, p) != [] {
      var m := LegalMoves(g, p)[0];
      assert SandwichLegal(g, p, m.0, m.1);
    } else {
      forall x, y
        ensures !SandwichLegal(g, p, x, y)
      {
        assert (x, y) !in LegalMoves(g, p);
      }
    }
  }

  /** `check_game_over`: the game ends exactly when no empty cell is a
      legal move for either player, whichever of them is to move. */
  lemma GameOverMeaning(g: Grid, turn: int)
    requires IsGrid(g)
    ensures GameOver(g, turn) <==> Stuck(g, turn) && Stuck(g, 1 - turn)
    ensures GameOver(g, turn) == GameOver(g, 1 - turn)
  {
    NoMovesMeaning(g, turn);
    NoMovesMeaning(g, 1 - turn);
    assert 1 - (1 - turn) == turn;
  }
}
