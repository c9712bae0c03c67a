/** The rules of Reversi as the game server applies them: the 8x8 board,
    the sandwich rule, flipping, piece counts and the starting position.
    Everything here is a value-level definition over a board snapshot; the
    in-place operations of module Engine are proved against it. */
module Rules {

  /** A board as a list of rows, read `g[y][x]`. */
  type Grid = seq<seq<int>>

  /** A cell `(x, y)`, or a direction `(dx, dy)`. */
  type Pos = (int, int)

  const Black := 0
  const White := 1
  const Empty := 255

  predicate IsGrid(g: Grid) {
    |g| == 8 && forall y :: 0 <= y < 8 ==> |g[y]| == 8
  }

  /** Every cell holds black, white or empty. */
  predicate CellsOk(g: Grid)
    requires IsGrid(g)
  {
    forall y, x :: 0 <= y < 8 && 0 <= x < 8 ==> g[y][x] in {Black, White, Empty}
  }

  /** Two boards with the same cells are the same board. */
  lemma GridsEqual(a: Grid, b: Grid)
    requires IsGrid(a) && IsGrid(b)
    requires forall y, x :: 0 <= y < 8 && 0 <= x < 8 ==> a[y][x] == b[y][x]
    ensures a == b
  {
    forall y | 0 <= y < 8 ensures a[y] == b[y] { }
  }

  predicate InBounds(x: int, y: int) {
    0 <= x < 8 && 0 <= y < 8
  }

  /** Cell f is on the board and holds c. */
  predicate Holds(g: Grid, f: Pos, c: int) {
    InBounds(f.0, f.1) && f.1 < |g| && f.0 < |g[f.1]| && g[f.1][f.0] == c
  }

  predicate IsPlayer(p: int) {
    p == Black || p == White
  }

  /** The eight compass directions, in the order the server scans them. */
  const Directions: seq<Pos> :=
    [(-1, -1), (-1, 0), (-1, 1), (0, -1), (0, 1), (1, -1), (1, 0), (1, 1)]

  /** How many more cells a scan from (cx, cy) in direction d can visit
      before it leaves the board; it shrinks with every step. */
  function StepsLeft(cx: int, cy: int, d: Pos): nat {
    if !InBounds(cx, cy) then 0
    else if d.0 == 1 then 8 - cx
    else if d.0 == -1 then cx + 1
    else if d.1 == 1 then 8 - cy
    else cy + 1
  }

  /** The run of opponent cells a scan crosses, starting at (cx, cy) and
      stepping by d while the cell is on the board and holds `opp`. */
  function RunPath(g: Grid, opp: int, cx: int, cy: int, d: Pos): seq<Pos>
    requires IsGrid(g) && d in Directions
    decreases StepsLeft(cx, cy, d)
  {
    if InBounds(cx, cy) && g[cy][cx] == opp then
      [(cx, cy)] + RunPath(g, opp, cx + d.0, cy + d.1, d)
    else
      []
  }

  /** One step of a scan that is still on an opponent piece. */
  lemma RunStep(g: Grid, opp: int, cx: int, cy: int, d: Pos)
    requires IsGrid(g) && d in Directions
    requires InBounds(cx, cy) && g[cy][cx] == opp
    ensures RunPath(g, opp, cx, cy, d) == [(cx, cy)] + RunPath(g, opp, cx + d.0, cy + d.1, d)
    ensures RunEnd(g, opp, cx, cy, d) == RunEnd(g, opp, cx + d.0, cy + d.1, d)
  {
  }

  /** A run holds only opponent pieces on the board. */
  lemma {:induction false} RunPathCells(g: Grid, opp: int, cx: int, cy: int, d: Pos)
    requires IsGrid(g) && d in Directions
    ensures forall f :: f in RunPath(g, opp, cx, cy, d) ==> Holds(g, f, opp)
    decreases StepsLeft(cx, cy, d)
  {
    if InBounds(cx, cy) && g[cy][cx] == opp {
      RunPathCells(g, opp, cx + d.0, cy + d.1, d);
    }
  }

  /** The cell where that scan stops: off the board or not an opponent. */
  function RunEnd(g: Grid, opp: int, cx: int, cy: int, d: Pos): Pos
    requires IsGrid(g) && d in Directions
    decreases StepsLeft(cx, cy, d)
  {
    if InBounds(cx, cy) && g[cy][cx] == opp then
      RunEnd(g, opp, cx + d.0, cy + d.1, d)
    else
      (cx, cy)
  }

  /** Coordinate v moved i steps in direction dv (one of -1, 0, 1). */
  function Along(v: int, dv: int, i: int): int {
    if dv == 1 then v + i else if dv == -1 then v - i else v
  }

  /** The cell i steps from (x, y) in direction d. */
  function Ray(x: int, y: int, d: Pos, i: int): Pos {
    (Along(x, d.0, i), Along(y, d.1, i))
  }

  /** The sandwich rule read literally, as a reference: k >= 1 steps from
      (x, y) in direction d meet only opponent pieces and step k + 1 meets a
      piece of p. */
  ghost predicate SandwichAlong(g: Grid, p: int, x: int, y: int, d: Pos, k: int) {
    k >= 1 && (forall i :: 1 <= i <= k ==> Holds(g, Ray(x, y, d, i), 1 - p)) && Holds(g, Ray(x, y, d, k + 1), p)
  }

  /** The brute-force definition of a legal move. */
  ghost predicate SandwichLegal(g: Grid, p: int, x: int, y: int)
    requires IsGrid(g)
  {
    InBounds(x, y) && g[y][x] == Empty && exists d, k :: d in Directions && SandwichAlong(g, p, x, y, d, k)
  }

  /** A move by p at (x, y) brackets direction d: the scan from the next
      cell crosses at least one opponent piece and stops on a piece of p. */
  predicate Brackets(g: Grid, p: int, x: int, y: int, d: Pos)
    requires IsGrid(g) && d in Directions
  {
    var e := RunEnd(g, 1 - p, x + d.0, y + d.1, d);
    |RunPath(g, 1 - p, x + d.0, y + d.1, d)| > 0 && InBounds(e.0, e.1) && g[e.1][e.0] == p
  }

  /** What a scan that has stopped at (cx, cy) tells about bracketing:
      the direction brackets exactly when the scan crossed an opponent
      piece and stopped on a piece of p. */
  lemma BracketsWhenScanStops(g: Grid, p: int, x: int, y: int, d: Pos, cx: int, cy: int, saw: bool)
    requires IsGrid(g) && d in Directions
    requires RunEnd(g, 1 - p, cx, cy, d) == RunEnd(g, 1 - p, x + d.0, y + d.1, d)
    requires |RunPath(g, 1 - p, x + d.0, y + d.1, d)| > 0 <==> (saw || |RunPath(g, 1 - p, cx, cy, d)| > 0)
    requires !(InBounds(cx, cy) && g[cy][cx] == 1 - p)
    ensures Brackets(g, p, x, y, d) <==> saw && InBounds(cx, cy) && g[cy][cx] == p
  {
  }

  /** The cells direction d contributes to the flips of a move. */
  function Bracketed(g: Grid, p: int, x: int, y: int, d: Pos): seq<Pos>
    requires IsGrid(g) && d in Directions
  {
    if Brackets(g, p, x, y, d) then RunPath(g, 1 - p, x + d.0, y + d.1, d) else []
  }

  /** The flips gathered from the first k directions, in scan order. */
  function FlipsUpTo(g: Grid, p: int, x: int, y: int, k: nat): (flips: seq<Pos>)
    requires IsGrid(g) && k <= 8
  {
    if k == 0 then [] else FlipsUpTo(g, p, x, y, k - 1) + Bracketed(g, p, x, y, Directions[k - 1])
  }

  /** Flips are opponent pieces on the board. */
  lemma {:induction false} FlipsUpToAreOpponents(g: Grid, p: int, x: int, y: int, k: nat)
    requires IsGrid(g) && k <= 8
    ensures forall f :: f in FlipsUpTo(g, p, x, y, k) ==> Holds(g, f, 1 - p)
  {
    if k > 0 {
      FlipsUpToAreOpponents(g, p, x, y, k - 1);
      var d := Directions[k - 1];
      var run := Bracketed(g, p, x, y, d);
      RunPathCells(g, 1 - p, x + d.0, y + d.1, d);
      assert forall f :: f in run ==> Holds(g, f, 1 - p);
      assert FlipsUpTo(g, p, x, y, k) == FlipsUpTo(g, p, x, y, k - 1) + run;
    }
  }

  /** The first k directions yield no flips exactly when none of them brackets. */
  lemma {:induction false} FlipsUpToEmpty(g: Grid, p: int, x: int, y: int, k: nat)
    requires IsGrid(g) && k <= 8
    ensures |FlipsUpTo(g, p, x, y, k)| == 0 <==> forall j :: 0 <= j < k ==> !Brackets(g, p, x, y, Directions[j])
  {
    if k > 0 {
      FlipsUpToEmpty(g, p, x, y, k - 1);
    }
  }

  /** Every opponent cell a move by p at (x, y) turns over. */
  function Flips(g: Grid, p: int, x: int, y: int): seq<Pos>
    requires IsGrid(g)
  {
    FlipsUpTo(g, p, x, y, 8)
  }

  predicate HasBracket(g: Grid, p: int, x: int, y: int)
    requires IsGrid(g)
  {
    exists i :: 0 <= i < 8 && Brackets(g, p, x, y, Directions[i])
  }

  /** A move flips something exactly when some direction brackets, and
      everything it flips is an opponent piece. */
  lemma FlipsMeaning(g: Grid, p: int, x: int, y: int)
    requires IsGrid(g)
    ensures |Flips(g, p, x, y)| > 0 <==> HasBracket(g, p, x, y)
    ensures forall f :: f in Flips(g, p, x, y) ==> Holds(g, f, 1 - p)
  {
    FlipsUpToEmpty(g, p, x, y, 8);
    FlipsUpToAreOpponents(g, p, x, y, 8);
  }

  /** The sandwich rule: (x, y) is an empty cell on the board and some
      direction brackets a run of opponent pieces. */
  predicate IsLegal(g: Grid, p: int, x: int, y: int)
    requires IsGrid(g)
  {
    InBounds(x, y) && g[y][x] == Empty && HasBracket(g, p, x, y)
  }

  /** The board after p plays a legal move at (x, y): the played cell and
      every flipped cell hold p, every other cell is as before. */
  function Place(g: Grid, p: int, x: int, y: int): (r: Grid)
    requires IsGrid(g)
    ensures IsGrid(r)
  {
    var flips := Flips(g, p, x, y);
    seq(8, row requires 0 <= row < 8 =>
      seq(8, col requires 0 <= col < 8 =>
        if (col, row) == (x, y) || (col, row) in flips then p else g[row][col]))
  }

  /** Cells of colour c among the first n in row-major order. */
  function CellsBefore(g: Grid, c: int, n: int): set<Pos>
    requires IsGrid(g)
  {
    set x, y | 0 <= x < 8 && 0 <= y < 8 && 8 * y + x < n && g[y][x] == c :: (x, y)
  }

  /** The number of pieces of colour c on the board. */
  function Count(g: Grid, c: int): nat
    requires IsGrid(g)
  {
    |CellsBefore(g, c, 64)|
  }

  /** The winner recorded when a game ends: 0 or 1 by piece count, -1 for a tie. */
  function WinnerOf(g: Grid): int
    requires IsGrid(g)
  {
    if Count(g, Black) > Count(g, White) then 0
    else if Count(g, White) > Count(g, Black) then 1
    else -1
  }

  /** Python orders (x, y) tuples lexicographically. */
  predicate LexLess(a: Pos, b: Pos) {
    a.0 < b.0 || (a.0 == b.0 && a.1 < b.1)
  }

  /** Strictly increasing in that order, so without duplicates. */
  predicate StrictlySorted(s: seq<Pos>) {
    forall i, j :: 0 <= i < j < |s| ==> LexLess(s[i], s[j])
  }

  /** The cell with rank i in that order. */
  function LexPos(i: int): Pos {
    (i / 8, i % 8)
  }

  /** The cells of s among the first n in lexicographic order, sorted. */
  function SortedFrom(s: set<Pos>, n: nat): (r: seq<Pos>)
    requires n <= 64
    ensures StrictlySorted(r)
    ensures forall m :: m in r <==> m in s && InBounds(m.0, m.1) && 8 * m.0 + m.1 < n
  {
    if n == 0 then []
    else
      var m := LexPos(n - 1);
      SortedFrom(s, n - 1) + (if m in s then [m] else [])
  }

  /** Python's `sorted` applied to a set of cells. */
  function SortedCells(s: set<Pos>): seq<Pos> {
    SortedFrom(s, 64)
  }

  /** The set of legal moves of p. */
  function LegalSet(g: Grid, p: int): set<Pos>
    requires IsGrid(g)
  {
    set x, y | 0 <= x < 8 && 0 <= y < 8 && IsLegal(g, p, x, y) :: (x, y)
  }

  /** The list `find_legal_moves` returns. */
  function LegalMoves(g: Grid, p: int): seq<Pos>
    requires IsGrid(g)
  {
    SortedCells(LegalSet(g, p))
  }

  /** Neither player has a legal move. */
  predicate GameOver(g: Grid, turn: int)
    requires IsGrid(g)
  {
    LegalMoves(g, turn) == [] && LegalMoves(g, 1 - turn) == []
  }

  function InitialCell(x: int, y: int): int {
    if (x == 3 && y == 3) || (x == 4 && y == 4) then Black
    else if (x == 4 && y == 3) || (x == 3 && y == 4) then White
    else Empty
  }

  /** The starting position: black on (3,3) and (4,4), white on (4,3) and (3,4). */
  const InitialGrid: Grid :=
    seq(8, y => seq(8, x => InitialCell(x, y)))

  lemma InitialGridCells()
    ensures IsGrid(InitialGrid)
    ensures forall y, x :: 0 <= y < 8 && 0 <= x < 8 ==> InitialGrid[y][x] == InitialCell(x, y)
  {
  }

  /** The bonus the CPU adds to a move: 100 on a corner, 10 elsewhere on the rim. */
  function Bonus(m: Pos): int {
    if m in {(0, 0), (0, 7), (7, 0), (7, 7)} then 100
    else if m.0 in {0, 7} || m.1 in {0, 7} then 10
    else 0
  }

  /** The score the CPU gives a legal move: pieces changed plus the bonus. */
  function CpuScore(g: Grid, p: int, m: Pos): int
    requires IsGrid(g)
  {
    1 + |Flips(g, p, m.0, m.1)| + Bonus(m)
  }
}
