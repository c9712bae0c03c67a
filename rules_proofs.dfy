/** Properties of the rules of module Rules: the scan agrees with the
    brute-force sandwich rule, the flips of a move are distinct opponent
    pieces, and piece counts move by exactly the number of cells changed. */
module RulesProofs {
  import opened Rules

  predicate NoDup<T(==)>(s: seq<T>) {
    forall i, j :: 0 <= i < j < |s| ==> s[i] != s[j]
  }

  /** The direction in which cell f lies as seen from (x, y). */
  function Sign(v: int): int {
    if v > 0 then 1 else if v < 0 then -1 else 0
  }

  function DirOf(x: int, y: int, f: Pos): Pos {
    (Sign(f.0 - x), Sign(f.1 - y))
  }

  /** Cell i of a run lies i steps from where the run starts. */
  lemma {:induction false} RunPathAt(g: Grid, opp: int, cx: int, cy: int, d: Pos, i: nat)
    requires IsGrid(g) && d in Directions
    requires i < |RunPath(g, opp, cx, cy, d)|
    ensures RunPath(g, opp, cx, cy, d)[i] == Ray(cx, cy, d, i)
    decreases StepsLeft(cx, cy, d)
  {
    if i > 0 {
      RunPathAt(g, opp, cx + d.0, cy + d.1, d, i - 1);
    }
  }

  /** A scan stops right after its run. */
  lemma {:induction false} RunEndAt(g: Grid, opp: int, cx: int, cy: int, d: Pos)
    requires IsGrid(g) && d in Directions
    ensures RunEnd(g, opp, cx, cy, d) == Ray(cx, cy, d, |RunPath(g, opp, cx, cy, d)|)
    decreases StepsLeft(cx, cy, d)
  {
    if InBounds(cx, cy) && g[cy][cx] == opp {
      RunEndAt(g, opp, cx + d.0, cy + d.1, d);
    }
  }

  /** A run is exactly as long as the stretch of opponent pieces it starts on. */
  lemma {:induction false} RunLength(g: Grid, opp: int, cx: int, cy: int, d: Pos, k: nat)
    requires IsGrid(g) && d in Directions
    requires forall i :: 0 <= i < k ==> Holds(g, Ray(cx, cy, d, i), opp)
    requires !Holds(g, Ray(cx, cy, d, k), opp)
    ensures |RunPath(g, opp, cx, cy, d)| == k
    decreases k
  {
    assert Ray(cx, cy, d, 0) == (cx, cy);
    if k > 0 {
      assert Holds(g, Ray(cx, cy, d, 0), opp);
      var nx, ny := cx + d.0, cy + d.1;
      forall i | 0 <= i < k - 1
        ensures Holds(g, Ray(nx, ny, d, i), opp)
      {
        assert Ray(nx, ny, d, i) == Ray(cx, cy, d, i + 1);
      }
      assert Ray(nx, ny, d, k - 1) == Ray(cx, cy, d, k);
      RunLength(g, opp, nx, ny, d, k - 1);
    }
  }

  /** A bracketing direction satisfies the brute-force rule, with the run
      length as the number of opponent pieces. */
  lemma BracketsGivesSandwich(g: Grid, p: int, x: int, y: int, d: Pos)
    requires IsGrid(g) && d in Directions
    requires Brackets(g, p, x, y, d)
    ensures SandwichAlong(g, p, x, y, d, |RunPath(g, 1 - p, x + d.0, y + d.1, d)|)
  {
    var opp := 1 - p;
    var nx, ny := x + d.0, y + d.1;
    var path := RunPath(g, opp, nx, ny, d);
    var k := |path|;
    forall i | 1 <= i <= k
      ensures Holds(g, Ray(x, y, d, i), opp)
    {
      RunCell(g, opp, x, y, d, i);
    }
    assert Holds(g, Ray(x, y, d, k + 1), p) by {
      RunEndAt(g, opp, nx, ny, d);
      assert Ray(nx, ny, d, k) == Ray(x, y, d, k + 1);
    }
  }

  /** Step i of a run from the cell next to (x, y) is an opponent piece. */
  lemma RunCell(g: Grid, opp: int, x: int, y: int, d: Pos, i: int)
    requires IsGrid(g) && d in Directions
    requires 1 <= i <= |RunPath(g, opp, x + d.0, y + d.1, d)|
    ensures Holds(g, Ray(x, y, d, i), opp)
  {
    var nx, ny := x + d.0, y + d.1;
    var path := RunPath(g, opp, nx, ny, d);
    RunPathCells(g, opp, nx, ny, d);
    RunPathAt(g, opp, nx, ny, d, i - 1);
    assert Ray(nx, ny, d, i - 1) == Ray(x, y, d, i);
    assert path[i - 1] in path;
  }

  /** Stepping once in direction d, then i more steps, is i + 1 steps. */
  lemma RayStep(x: int, y: int, d: Pos, i: int)
    requires d in Directions
    ensures Ray(x + d.0, y + d.1, d, i) == Ray(x, y, d, i + 1)
  {
  }

  /** Under the brute-force rule the scan crosses exactly k opponent pieces. */
  lemma SandwichRunLength(g: Grid, p: int, x: int, y: int, d: Pos, k: int)
    requires IsGrid(g) && d in Directions
    requires SandwichAlong(g, p, x, y, d, k)
    ensures |RunPath(g, 1 - p, x + d.0, y + d.1, d)| == k
  {
    var opp := 1 - p;
    var nx, ny := x + d.0, y + d.1;
    forall i | 0 <= i < k
      ensures Holds(g, Ray(nx, ny, d, i), opp)
    {
      RayStep(x, y, d, i);
      assert Holds(g, Ray(x, y, d, i + 1), opp);
    }
    RayStep(x, y, d, k);
    RunLength(g, opp, nx, ny, d, k);
  }

  /** The brute-force rule in a direction means the scan brackets it. */
  lemma SandwichGivesBrackets(g: Grid, p: int, x: int, y: int, d: Pos, k: int)
    requires IsGrid(g) && d in Directions
    requires SandwichAlong(g, p, x, y, d, k)
    ensures Brackets(g, p, x, y, d)
  {
    var opp := 1 - p;
    var nx, ny := x + d.0, y + d.1;
    SandwichRunLength(g, p, x, y, d, k);
    RunEndAt(g, opp, nx, ny, d);
    RayStep(x, y, d, k);
    assert Holds(g, RunEnd(g, opp, nx, ny, d), p);
  }

  /** The scanning rule of `find_legal_moves` is the brute-force sandwich rule. */
  lemma LegalIffSandwich(g: Grid, p: int, x: int, y: int)
    requires IsGrid(g)
    ensures IsLegal(g, p, x, y) <==> SandwichLegal(g, p, x, y)
  {
    if IsLegal(g, p, x, y) {
      var i :| 0 <= i < 8 && Brackets(g, p, x, y, Directions[i]);
      BracketsGivesSandwich(g, p, x, y, Directions[i]);
    }
    if SandwichLegal(g, p, x, y) {
      var d, k :| d in Directions && SandwichAlong(g, p, x, y, d, k);
      SandwichGivesBrackets(g, p, x, y, d, k);
      var i :| 0 <= i < 8 && Directions[i] == d;
      assert Brackets(g, p, x, y, Directions[i]);
    }
  }

  /** `find_legal_moves` lists (x, y) exactly when the brute-force rule
      allows it, in strictly increasing order (so without duplicates). */
  lemma LegalMovesSpec(g: Grid, p: int)
    requires IsGrid(g)
    ensures forall m :: m in LegalMoves(g, p) <==> SandwichLegal(g, p, m.0, m.1)
    ensures StrictlySorted(LegalMoves(g, p))
  {
    forall m: Pos
      ensures m in LegalMoves(g, p) <==> SandwichLegal(g, p, m.0, m.1)
    {
      LegalIffSandwich(g, p, m.0, m.1);
      assert m in LegalSet(g, p) <==> IsLegal(g, p, m.0, m.1);
    }
  }

  /** Asking whether (x, y) is in the list `find_legal_moves` returns is
      asking whether the move is legal. */
  lemma InLegalMoves(g: Grid, p: int, x: int, y: int)
    requires IsGrid(g)
    ensures (x, y) in LegalMoves(g, p) <==> IsLegal(g, p, x, y)
  {
    if IsLegal(g, p, x, y) {
      assert (x, y) in LegalSet(g, p);
    }
  }

  /** Every cell of the run next to (x, y) in direction d lies in direction d. */
  lemma RunDirection(g: Grid, opp: int, x: int, y: int, d: Pos)
    requires IsGrid(g) && d in Directions
    ensures forall f :: f in RunPath(g, opp, x + d.0, y + d.1, d) ==> DirOf(x, y, f) == d
  {
    var nx, ny := x + d.0, y + d.1;
    var path := RunPath(g, opp, nx, ny, d);
    forall f | f in path
      ensures DirOf(x, y, f) == d
    {
      var i :| 0 <= i < |path| && path[i] == f;
      RunPathAt(g, opp, nx, ny, d, i);
    }
  }

  /** A run visits no cell twice. */
  lemma RunNoDup(g: Grid, opp: int, cx: int, cy: int, d: Pos)
    requires IsGrid(g) && d in Directions
    ensures NoDup(RunPath(g, opp, cx, cy, d))
  {
    var path := RunPath(g, opp, cx, cy, d);
    forall i, j | 0 <= i < j < |path|
      ensures path[i] != path[j]
    {
      RunPathAt(g, opp, cx, cy, d, i);
      RunPathAt(g, opp, cx, cy, d, j);
    }
  }

  lemma NoDupConcat<T>(a: seq<T>, b: seq<T>)
    requires NoDup(a) && NoDup(b)
    requires forall f :: f in a ==> f !in b
    ensures NoDup(a + b)
  {
    forall i, j | 0 <= i < j < |a + b|
      ensures (a + b)[i] != (a + b)[j]
    {
      if j >= |a| && i < |a| {
        assert a[i] in a;
        assert (a + b)[j] == b[j - |a|];
      }
    }
  }

  /** Each flip of the first k directions lies in one of those directions. */
  lemma {:induction false} FlipsUpToDirections(g: Grid, p: int, x: int, y: int, k: nat)
    requires IsGrid(g) && k <= 8
    ensures forall f :: f in FlipsUpTo(g, p, x, y, k) ==> DirOf(x, y, f) in Directions[..k]
  {
    if k > 0 {
      FlipsUpToDirections(g, p, x, y, k - 1);
      var d := Directions[k - 1];
      RunDirection(g, 1 - p, x, y, d);
      assert Directions[..k - 1] <= Directions[..k];
      assert FlipsUpTo(g, p, x, y, k) == FlipsUpTo(g, p, x, y, k - 1) + Bracketed(g, p, x, y, d);
    }
  }

  /** No direction is scanned twice. */
  lemma NewDirection(k: nat)
    requires 0 < k <= 8
    ensures Directions[k - 1] !in Directions[..k - 1]
  {
  }

  /** The flips found in direction j are not among those of the directions before. */
  lemma NewFlipsDisjoint(g: Grid, p: int, x: int, y: int, j: nat)
    requires IsGrid(g) && j < 8
    ensures forall f :: f in FlipsUpTo(g, p, x, y, j) ==> f !in Bracketed(g, p, x, y, Directions[j])
  {
    var d := Directions[j];
    var earlier := FlipsUpTo(g, p, x, y, j);
    var later := Bracketed(g, p, x, y, d);
    FlipsUpToDirections(g, p, x, y, j);
    RunDirection(g, 1 - p, x, y, d);
    NewDirection(j + 1);
    forall f | f in earlier
      ensures f !in later
    {
      if f in later {
        assert false;
      }
    }
  }

  /** The flips of one direction are distinct. */
  lemma BracketedNoDup(g: Grid, p: int, x: int, y: int, d: Pos)
    requires IsGrid(g) && d in Directions
    ensures NoDup(Bracketed(g, p, x, y, d))
  {
    RunNoDup(g, 1 - p, x + d.0, y + d.1, d);
  }

  /** The flips of the first k directions are distinct. */
  lemma {:induction false} FlipsUpToDistinct(g: Grid, p: int, x: int, y: int, k: nat)
    requires IsGrid(g) && k <= 8
    ensures NoDup(FlipsUpTo(g, p, x, y, k))
  {
    if k > 0 {
      var j := k - 1;
      FlipsUpToDistinct(g, p, x, y, j);
      NewFlipsDisjoint(g, p, x, y, j);
      BracketedNoDup(g, p, x, y, Directions[j]);
      NoDupConcat(FlipsUpTo(g, p, x, y, j), Bracketed(g, p, x, y, Directions[j]));
    }
  }

  /** A sequence without duplicates has as many distinct elements as entries. */
  lemma {:induction false} NoDupCard<T>(s: seq<T>)
    requires NoDup(s)
    ensures |set f | f in s| == |s|
  {
    if s != [] {
      NoDupCard(s[1..]);
      assert (set f | f in s) == {s[0]} + (set f | f in s[1..]);
      assert s[0] !in s[1..];
    }
  }

  /** Playing a legal move changes exactly the played cell and the flipped
      cells, and every flipped cell held an opponent piece. */
  lemma PlaceChanges(g: Grid, p: int, x: int, y: int)
    requires IsGrid(g) && IsPlayer(p) && IsLegal(g, p, x, y)
    ensures forall r, c :: 0 <= r < 8 && 0 <= c < 8 ==>
      (Place(g, p, x, y)[r][c] != g[r][c] <==> (c, r) == (x, y) || (c, r) in Flips(g, p, x, y))
    ensures forall r, c :: 0 <= r < 8 && 0 <= c < 8 && (c, r) in Flips(g, p, x, y) ==> g[r][c] == 1 - p
    ensures |Flips(g, p, x, y)| > 0
  {
    FlipsMeaning(g, p, x, y);
  }

  /** Membership in the colour sets that `count_pieces` counts. */
  lemma InCells(g: Grid, c: int, m: Pos)
    requires IsGrid(g)
    ensures m in CellsBefore(g, c, 64) <==> Holds(g, m, c)
  {
    if Holds(g, m, c) {
      assert 8 * m.1 + m.0 < 64;
    }
  }

  /** After a legal move the mover owns what they owned, the flips and the played cell. */
  lemma PlaceMine(g: Grid, p: int, x: int, y: int)
    requires IsGrid(g) && IsPlayer(p) && IsLegal(g, p, x, y)
    ensures CellsBefore(Place(g, p, x, y), p, 64) ==
      CellsBefore(g, p, 64) + (set f | f in Flips(g, p, x, y)) + {(x, y)}
  {
    var h := Place(g, p, x, y);
    var flips := Flips(g, p, x, y);
    FlipsMeaning(g, p, x, y);
    forall m: Pos
      ensures m in CellsBefore(h, p, 64) <==> m in CellsBefore(g, p, 64) || m in flips || m == (x, y)
    {
      InCells(h, p, m);
      InCells(g, p, m);
    }
  }

  /** After a legal move the opponent owns what they owned except the flips. */
  lemma PlaceTheirs(g: Grid, p: int, x: int, y: int)
    requires IsGrid(g) && IsPlayer(p) && IsLegal(g, p, x, y)
    ensures CellsBefore(Place(g, p, x, y), 1 - p, 64) ==
      CellsBefore(g, 1 - p, 64) - (set f | f in Flips(g, p, x, y))
  {
    var h := Place(g, p, x, y);
    var flips := Flips(g, p, x, y);
    forall m: Pos
      ensures m in CellsBefore(h, 1 - p, 64) <==> m in CellsBefore(g, 1 - p, 64) && m !in flips
    {
      InCells(h, 1 - p, m);
      InCells(g, 1 - p, m);
    }
  }

  /** The flips are opponent cells, so the mover owned none of them, nor
      the empty cell played. */
  lemma FlipsOwnership(g: Grid, p: int, x: int, y: int)
    requires IsGrid(g) && IsPlayer(p) && IsLegal(g, p, x, y)
    ensures (set f | f in Flips(g, p, x, y)) <= CellsBefore(g, 1 - p, 64)
    ensures CellsBefore(g, p, 64) !! (set f | f in Flips(g, p, x, y))
    ensures (x, y) !in CellsBefore(g, p, 64) + (set f | f in Flips(g, p, x, y))
  {
    var fs := set f | f in Flips(g, p, x, y);
    FlipsMeaning(g, p, x, y);
    forall f | f in fs
      ensures f in CellsBefore(g, 1 - p, 64) && f !in CellsBefore(g, p, 64)
    {
      InCells(g, 1 - p, f);
      InCells(g, p, f);
    }
    InCells(g, p, (x, y));
  }

  lemma CardinalityShift<T>(mine: set<T>, theirs: set<T>, fs: set<T>, c: T)
    requires fs <= theirs && mine !! fs && c !in mine + fs
    ensures |mine + fs + {c}| == |mine| + |fs| + 1
    ensures |theirs - fs| == |theirs| - |fs|
  {
    assert theirs == (theirs - fs) + fs;
  }

  /** A legal move raises the mover's count by one plus the flips and
      lowers the opponent's by the flips. */
  lemma PlaceCounts(g: Grid, p: int, x: int, y: int)
    requires IsGrid(g) && IsPlayer(p) && IsLegal(g, p, x, y)
    ensures Count(Place(g, p, x, y), p) == Count(g, p) + 1 + |Flips(g, p, x, y)|
    ensures Count(Place(g, p, x, y), 1 - p) == Count(g, 1 - p) - |Flips(g, p, x, y)|
  {
    var flips := Flips(g, p, x, y);
    FlipsUpToDistinct(g, p, x, y, 8);
    NoDupCard(flips);
    PlaceMine(g, p, x, y);
    PlaceTheirs(g, p, x, y);
    FlipsOwnership(g, p, x, y);
    CardinalityShift(CellsBefore(g, p, 64), CellsBefore(g, 1 - p, 64), set f | f in flips, (x, y));
  }
}
