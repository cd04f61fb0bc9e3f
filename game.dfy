/**
 * The grid world of src/game.rs: coordinates and directions, the wall grid
 * drawn from a stored seed, and the list of (coordinate, moniker) entries
 * with the rules for putting, removing, finding and moving monikers.
 */
module Game {
  import opened Wrappers

  newtype u16 = x: int | 0 <= x < 0x1_0000
  newtype u32 = x: int | 0 <= x < 0x1_0000_0000

  const WIDTH: u16 := 30
  const HEIGHT: u16 := 22
  /** The number of cells of the grid. */
  const CELLS: nat := 660

  datatype Moniker = Moniker(c: char)
  datatype Direction = Left | Right | Up | Down
  datatype Coord2D = Coord2D(x: u16, y: u16)

  /** One entry of the essence's moniker list. */
  type Entry = (Coord2D, Moniker)

  datatype GameStateSeed = GameStateSeed(s0: u32, s1: u32, s2: u32, s3: u32)
  datatype GameStateEssence = GameStateEssence(monikers: seq<Entry>, randSeed: GameStateSeed)

  /**
   * The weighted coin of the seeded generator: `rng(seed)(k)` is the outcome of
   * the k-th `gen_weighted_bool(3)` call on an XorShift generator seeded with
   * `seed`. The generator itself is not part of this model.
   */
  type WallDraws = GameStateSeed -> nat -> bool

  // ---------------------------------------------------------------------------
  // Cells and directions

  predicate InBounds(c: Coord2D) {
    c.x < WIDTH && c.y < HEIGHT
  }

  /** Row-major ordinal of a cell: (0,0) is 0, (WIDTH-1,0) is WIDTH-1, (0,1) is WIDTH. */
  function Index(c: Coord2D): nat {
    c.y as nat * 30 + c.x as nat
  }

  /** The cell with row-major ordinal `k`. */
  function CellAt(k: nat): (c: Coord2D)
    requires k < CELLS
    ensures InBounds(c) && Index(c) == k
  {
    Coord2D((k % 30) as u16, (k / 30) as u16)
  }

  lemma IndexInjective(a: Coord2D, b: Coord2D)
    requires InBounds(a) && InBounds(b) && Index(a) == Index(b)
    ensures a == b
  {
  }

  lemma IndexesDiffer(a: Coord2D, b: Coord2D)
    requires InBounds(a) && InBounds(b) && a != b
    ensures Index(a) != Index(b)
  {
  }

  function DeltaX(dir: Direction): int {
    match dir
    case Left => -1
    case Right => 1
    case _ => 0
  }

  function DeltaY(dir: Direction): int {
    match dir
    case Up => -1
    case Down => 1
    case _ => 0
  }

  /**
   * Coord2D::move_with, one step in `dir` (Up decreases y). The source states
   * that it assumes the step is valid; the requires says what that takes: the
   * u16 coordinate must not wrap.
   */
  function MoveWith(c: Coord2D, dir: Direction): (r: Coord2D)
    requires 0 <= c.x as int + DeltaX(dir) < 0x1_0000
    requires 0 <= c.y as int + DeltaY(dir) < 0x1_0000
    ensures r.x as int == c.x as int + DeltaX(dir)
    ensures r.y as int == c.y as int + DeltaY(dir)
  {
    match dir
    case Up => c.(y := c.y - 1)
    case Down => c.(y := c.y + 1)
    case Left => c.(x := c.x - 1)
    case Right => c.(x := c.x + 1)
  }

  /** The boundary test at the head of can_move_at. */
  predicate StaysInside(c: Coord2D, dir: Direction) {
    match dir
    case Up => c.y > 0
    case Down => c.y < HEIGHT - 1
    case Left => c.x > 0
    case Right => c.x < WIDTH - 1
  }

  // ---------------------------------------------------------------------------
  // Entry lists

  predicate Distinct<T(==)>(s: seq<T>) {
    forall i, j :: 0 <= i < j < |s| ==> s[i] != s[j]
  }

  function Names(s: seq<Entry>): seq<Moniker> {
    seq(|s|, i requires 0 <= i < |s| => s[i].1)
  }

  function Coords(s: seq<Entry>): seq<Coord2D> {
    seq(|s|, i requires 0 <= i < |s| => s[i].0)
  }

  /** The shape a valid game keeps its entries in: all on the grid, no two on one cell. */
  predicate Placement(s: seq<Entry>) {
    (forall i :: 0 <= i < |s| ==> InBounds(s[i].0)) && Distinct(Coords(s))
  }

  /** `c` is a cell of the grid that no entry holds; walls are not consulted. */
  predicate FreeIn(s: seq<Entry>, c: Coord2D) {
    InBounds(c) && c !in Coords(s)
  }

  /** The first index at which `x` occurs: the search of index_of_moniker and index_of_moniker_by_coord. */
  function Position<T(==)>(s: seq<T>, x: T): (r: Option<nat>)
    ensures r.Some? ==> r.value < |s| && s[r.value] == x
    ensures r.Some? ==> forall j :: 0 <= j < r.value ==> s[j] != x
    ensures r.None? <==> x !in s
  {
    if s == [] then None
    else if s[0] == x then Some(0)
    else match Position(s[1..], x)
      case None => None
      case Some(i) => Some(i + 1)
  }

  /** The first of `draws` that no entry holds: where the rejection loop of random_free_spot stops. */
  function FirstUnheld(s: seq<Entry>, draws: seq<Coord2D>): (r: Option<Coord2D>)
    ensures r.Some? ==> r.value in draws && r.value !in Coords(s)
    ensures r.Some? ==> exists k :: 0 <= k < |draws| && draws[k] == r.value
                                    && forall j :: 0 <= j < k ==> draws[j] in Coords(s)
    ensures r.None? <==> forall k :: 0 <= k < |draws| ==> draws[k] in Coords(s)
  {
    if draws == [] then None
    else if draws[0] !in Coords(s) then Some(draws[0])
    else
      var r := FirstUnheld(s, draws[1..]);
      assert r.Some? ==> exists k :: 0 <= k < |draws[1..]| && draws[1..][k] == r.value
                                     && forall j :: 0 <= j < k ==> draws[1..][j] in Coords(s);
      r
  }

  /** Every cell of the grid occurs among `draws`, and nothing else does: what a fair generator eventually draws. */
  ghost predicate Covers(draws: seq<Coord2D>) {
    (forall c :: InBounds(c) ==> c in draws) && forall k :: 0 <= k < |draws| ==> InBounds(draws[k])
  }

  // ---------------------------------------------------------------------------
  // Counting cells

  /** Fewer than `n` values leave some value below `n` out. */
  lemma {:induction false} MissingBelow(t: seq<nat>, n: nat)
    requires |t| < n
    ensures exists k :: 0 <= k < n && k !in t
  {
    if n - 1 !in t {
      assert 0 <= n - 1 < n;
    } else {
      var j :| 0 <= j < |t| && t[j] == n - 1;
      var t' := t[..j] + t[j + 1..];
      MissingBelow(t', n - 1);
      var k :| 0 <= k < n - 1 && k !in t';
      forall i | 0 <= i < |t| ensures t[i] != k {
        if i < j {
          assert t[i] == t'[i];
        } else if i > j {
          assert t[i] == t'[i - 1];
        }
      }
      assert 0 <= k < n && k !in t;
    }
  }

  /** Distinct values below `n` number at most `n`. */
  lemma {:induction false} DistinctBelow(t: seq<nat>, n: nat)
    requires forall i :: 0 <= i < |t| ==> t[i] < n
    requires Distinct(t)
    ensures |t| <= n
  {
    if t == [] {
    } else if n - 1 in t {
      assert t[0] < n;
      var j :| 0 <= j < |t| && t[j] == n - 1;
      var t' := t[..j] + t[j + 1..];
      forall i | 0 <= i < |t'| ensures t'[i] < n - 1 {
        if i < j {
          assert t'[i] == t[i] && i != j;
        } else {
          assert t'[i] == t[i + 1] && i + 1 != j;
        }
      }
      forall a, b | 0 <= a < b < |t'| ensures t'[a] != t'[b] {
        var a', b' := if a < j then a else a + 1, if b < j then b else b + 1;
        assert t'[a] == t[a'] && t'[b] == t[b'] && a' < b';
      }
      DistinctBelow(t', n - 1);
    } else {
      assert t[0] < n;
      forall i | 0 <= i < |t| ensures t[i] < n - 1 {
        assert t[i] != n - 1;
      }
      DistinctBelow(t, n - 1);
    }
  }

  function Indexes(s: seq<Entry>): seq<nat> {
    seq(|s|, i requires 0 <= i < |s| => Index(s[i].0))
  }

  /** A valid entry list never holds more entries than the grid has cells. */
  lemma PlacementBounded(s: seq<Entry>)
    requires Placement(s)
    ensures |s| <= CELLS
  {
    var t := Indexes(s);
    forall a, b | 0 <= a < b < |t| ensures t[a] != t[b] {
      assert Coords(s)[a] != Coords(s)[b];
      IndexesDiffer(s[a].0, s[b].0);
    }
    DistinctBelow(t, CELLS);
  }

  /** With fewer entries than cells, some cell is free. */
  lemma FreeCellExists(s: seq<Entry>) returns (c: Coord2D)
    requires |s| < CELLS
    ensures FreeIn(s, c)
  {
    MissingBelow(Indexes(s), CELLS);
    var k :| 0 <= k < CELLS && k !in Indexes(s);
    c := CellAt(k);
    forall i | 0 <= i < |s| ensures Coords(s)[i] != c {
      assert Indexes(s)[i] != k;
    }
  }

  /** A valid entry list with as many entries as cells holds every cell. */
  lemma FullGridHasNoFreeCell(s: seq<Entry>, c: Coord2D)
    requires Placement(s) && |s| >= CELLS && InBounds(c)
    ensures c in Coords(s)
  {
    if c !in Coords(s) {
      var t := Indexes(s) + [Index(c)];
      forall a, b | 0 <= a < b < |t| ensures t[a] != t[b] {
        if b < |s| {
          assert Coords(s)[a] != Coords(s)[b];
          IndexesDiffer(s[a].0, s[b].0);
        } else {
          assert Coords(s)[a] != c;
          IndexesDiffer(s[a].0, c);
        }
      }
      DistinctBelow(t, CELLS);
    }
  }

  // ---------------------------------------------------------------------------
  // The wall grid

  predicate GridShape(g: seq<seq<bool>>) {
    |g| == HEIGHT as int && forall y :: 0 <= y < |g| ==> |g[y]| == WIDTH as int
  }

  /** The walls of from_essence: HEIGHT rows of WIDTH coins, drawn row by row, left to right. */
  function WallGrid(rng: WallDraws, seed: GameStateSeed): (g: seq<seq<bool>>)
    ensures GridShape(g)
    ensures forall y, x :: 0 <= y < HEIGHT as int && 0 <= x < WIDTH as int ==> g[y][x] == rng(seed)(y * 30 + x)
  {
    seq(HEIGHT as int, y requires 0 <= y < HEIGHT as int =>
      seq(WIDTH as int, x requires 0 <= x < WIDTH as int => rng(seed)(y * 30 + x)))
  }

  /** The wall cells whose row-major ordinal is `k` or more, in row-major order. */
  function WallsFrom(g: seq<seq<bool>>, k: nat): seq<Coord2D>
    requires GridShape(g)
    // The grid in the measure keeps the verifier from unrolling the walk from a literal start cell.
    decreases CELLS - k, g
  {
    if k >= CELLS then []
    else
      var c := CellAt(k);
      (if g[c.y][c.x] then [c] else []) + WallsFrom(g, k + 1)
  }

  /** One step of the walk: the cell `c` itself, if its bit is set, then the cells after it. */
  lemma WallsFromStep(g: seq<seq<bool>>, c: Coord2D)
    requires GridShape(g) && InBounds(c)
    ensures g[c.y][c.x] ==> WallsFrom(g, Index(c)) == [c] + WallsFrom(g, Index(c) + 1)
    ensures !g[c.y][c.x] ==> WallsFrom(g, Index(c)) == WallsFrom(g, Index(c) + 1)
  {
    IndexInjective(c, CellAt(Index(c)));
    assert [] + WallsFrom(g, Index(c) + 1) == WallsFrom(g, Index(c) + 1);
  }

  /** The step of the walk from `c` to its right-hand neighbour `n`, which comes next in row-major order. */
  lemma StepRight(g: seq<seq<bool>>, c: Coord2D)
    requires GridShape(g) && InBounds(c)
    ensures var n := Coord2D(c.x + 1, c.y);
            Index(n) == Index(c) + 1
            && (g[c.y][c.x] ==> WallsFrom(g, Index(c)) == [c] + WallsFrom(g, Index(n)))
            && (!g[c.y][c.x] ==> WallsFrom(g, Index(c)) == WallsFrom(g, Index(n)))
  {
    assert Index(Coord2D(c.x + 1, c.y)) == Index(c) + 1;
    WallsFromStep(g, c);
  }

  /** Past the last cell of row `c.y` comes the first cell of the next row; past the last row, nothing. */
  lemma RowEnd(g: seq<seq<bool>>, c: Coord2D)
    requires GridShape(g) && c.x == WIDTH && c.y < HEIGHT
    ensures Index(Coord2D(0, c.y + 1)) == Index(c)
    ensures c.y + 1 == HEIGHT ==> WallsFrom(g, Index(c)) == []
  {
  }

  /** The walk yields exactly the wall cells at or past `k`. */
  lemma {:induction false} WallsFromMembers(g: seq<seq<bool>>, k: nat, c: Coord2D)
    requires GridShape(g)
    ensures c in WallsFrom(g, k) <==> InBounds(c) && Index(c) >= k && g[c.y][c.x]
    decreases CELLS - k, g
  {
    if k < CELLS {
      var d := CellAt(k);
      var head := if g[d.y][d.x] then [d] else [];
      assert WallsFrom(g, k) == head + WallsFrom(g, k + 1);
      assert c in WallsFrom(g, k) <==> c in head || c in WallsFrom(g, k + 1);
      WallsFromMembers(g, k + 1, c);
      if InBounds(c) && Index(c) == k {
        IndexInjective(c, d);
      }
    }
  }

  /** The walk is in strictly increasing row-major order, so no cell comes twice. */
  lemma {:induction false} WallsFromIncreasing(g: seq<seq<bool>>, k: nat)
    requires GridShape(g)
    ensures forall i :: 0 <= i < |WallsFrom(g, k)| ==> Index(WallsFrom(g, k)[i]) >= k
    ensures forall i, j :: 0 <= i < j < |WallsFrom(g, k)| ==> Index(WallsFrom(g, k)[i]) < Index(WallsFrom(g, k)[j])
    decreases CELLS - k, g
  {
    if k < CELLS {
      WallsFromIncreasing(g, k + 1);
    }
  }

  // ---------------------------------------------------------------------------
  // The game state

  class GameState {
    var essence: GameStateEssence
    const walls: seq<seq<bool>>
    /** The generator the walls were drawn from. */
    ghost const rng: WallDraws

    ghost predicate Valid()
      reads this
    {
      walls == WallGrid(rng, essence.randSeed) && Placement(essence.monikers)
    }

    /** from_essence: keep the essence and draw the walls from its seed, row by row. */
    constructor FromEssence(essence: GameStateEssence, rng: WallDraws)
      ensures this.essence == essence && this.rng == rng
      ensures walls == WallGrid(rng, essence.randSeed)
      ensures Valid() <==> Placement(essence.monikers)
    {
      var rows: seq<seq<bool>> := [];
      var y: u16 := 0;
      while y < HEIGHT
        invariant y <= HEIGHT && |rows| == y as int
        invariant forall j :: 0 <= j < y as int ==> rows[j] == WallGrid(rng, essence.randSeed)[j]
      {
        var row: seq<bool> := [];
        var x: u16 := 0;
        while x < WIDTH
          invariant x <= WIDTH && |row| == x as int
          invariant forall i :: 0 <= i < x as int ==> row[i] == rng(essence.randSeed)(y as int * 30 + i)
        {
          row := row + [rng(essence.randSeed)(y as int * 30 + x as int)];
          x := x + 1;
        }
        rows := rows + [row];
        y := y + 1;
      }
      this.essence := essence;
      this.walls := rows;
      this.rng := rng;
    }

    /** is_wall_at: the wall bit of a cell is the coin drawn at its row-major ordinal. */
    function IsWallAt(c: Coord2D): (r: bool)
      reads this
      requires Valid() && InBounds(c)
      ensures r == rng(essence.randSeed)(Index(c))
    {
      walls[c.y][c.x]
    }

    /** contains_moniker */
    function ContainsMoniker(m: Moniker): (r: bool)
      reads this
      ensures r <==> exists i :: 0 <= i < |essence.monikers| && essence.monikers[i].1 == m
    {
      var p := Position(Names(essence.monikers), m);
      assert forall i :: 0 <= i < |essence.monikers| ==> Names(essence.monikers)[i] == essence.monikers[i].1;
      p.Some?
    }

    /**
     * can_move_at: the step from `c` in `dir` lands on the grid, on a cell that is
     * neither a wall nor held by any entry.
     */
    function CanMoveAt(c: Coord2D, dir: Direction): (r: bool)
      reads this
      requires Valid() && InBounds(c)
      ensures r <==> var tx, ty := c.x as int + DeltaX(dir), c.y as int + DeltaY(dir);
                     0 <= tx < WIDTH as int && 0 <= ty < HEIGHT as int && !walls[ty][tx]
                     && Coord2D(tx as u16, ty as u16) !in Coords(essence.monikers)
      ensures r ==> InBounds(MoveWith(c, dir))
    {
      if !StaysInside(c, dir) then false
      else
        var c2 := MoveWith(c, dir);
        !IsWallAt(c2) && Position(Coords(essence.monikers), c2).None?
    }

    /** The test move_moniker_in_dir applies: `m` is on the grid and can_move_at allows the step. */
    ghost predicate CanMove(m: Moniker, dir: Direction)
      reads this
      requires Valid()
    {
      StepAllowed(walls, essence.monikers, m, dir)
    }

    /** The entry list after `m` steps in `dir`: its first entry moved, every other entry kept. */
    ghost function AfterMove(m: Moniker, dir: Direction): seq<Entry>
      reads this
      requires Valid() && CanMove(m, dir)
    {
      Stepped(walls, essence.monikers, m, dir)
    }

    /** index_of_moniker: the first entry named `m`, if any. */
    method IndexOfMoniker(m: Moniker) returns (r: Option<nat>)
      ensures r == Position(Names(essence.monikers), m)
    {
      var i := 0;
      while i < |essence.monikers|
        invariant i <= |essence.monikers|
        invariant forall j :: 0 <= j < i ==> Names(essence.monikers)[j] != m
      {
        if essence.monikers[i].1 == m {
          assert Names(essence.monikers)[i] == m;
          return Some(i);
        }
        i := i + 1;
      }
      return None;
    }

    /** index_of_moniker_by_coord: the first entry on cell `c`, if any. */
    method IndexOfMonikerByCoord(c: Coord2D) returns (r: Option<nat>)
      ensures r == Position(Coords(essence.monikers), c)
    {
      var i := 0;
      while i < |essence.monikers|
        invariant i <= |essence.monikers|
        invariant forall j :: 0 <= j < i ==> Coords(essence.monikers)[j] != c
      {
        if essence.monikers[i].0 == c {
          assert Coords(essence.monikers)[i] == c;
          return Some(i);
        }
        i := i + 1;
      }
      return None;
    }

    /** try_remove_moniker: drop the first entry named `m`, or report that there is none. */
    method TryRemoveMoniker(m: Moniker) returns (ok: bool)
      requires Valid()
      modifies this
      ensures Valid() && essence.randSeed == old(essence.randSeed)
      ensures ok <==> m in old(Names(essence.monikers))
      ensures ok ==> var i := old(Position(Names(essence.monikers), m)).value;
                     essence.monikers == old(essence.monikers[..i] + essence.monikers[i + 1..])
      ensures !ok ==> unchanged(this)
    {
      var index := IndexOfMoniker(m);
      if index.Some? {
        var i := index.value;
        var s := essence.monikers;
        var s' := s[..i] + s[i + 1..];
        RemovalKeepsPlacement(s, i);
        essence := essence.(monikers := s');
        ok := true;
      } else {
        ok := false;
      }
    }

    /**
     * try_put_moniker: append `(coord, m)` unless an entry already holds `coord`.
     * Neither the name nor walls are checked, and neither is the grid bound, so
     * the game stays valid exactly when the cell put on is on the grid.
     */
    method TryPutMoniker(m: Moniker, coord: Coord2D) returns (ok: bool)
      requires Valid()
      modifies this
      ensures essence.randSeed == old(essence.randSeed)
      ensures ok <==> coord !in old(Coords(essence.monikers))
      ensures essence.monikers == if ok then old(essence.monikers) + [(coord, m)] else old(essence.monikers)
      ensures !ok ==> unchanged(this)
      ensures Valid() <==> !ok || InBounds(coord)
    {
      var index := IndexOfMonikerByCoord(coord);
      if index.None? {
        var s := essence.monikers;
        var s' := s + [(coord, m)];
        assert Coords(s') == Coords(s) + [coord];
        assert s'[|s|].0 == coord;
        forall a, b | 0 <= a < b < |s'| ensures Coords(s')[a] != Coords(s')[b] {
          if b < |s| {
            assert Coords(s)[a] != Coords(s)[b];
          } else {
            assert Coords(s)[a] != coord;
          }
        }
        essence := essence.(monikers := s');
        ok := true;
      } else {
        ok := false;
      }
    }

    /**
     * move_moniker_in_dir: step the first entry named `m` one cell in `dir` when
     * can_move_at allows it; otherwise change nothing.
     */
    method MoveMonikerInDir(m: Moniker, dir: Direction) returns (ok: bool)
      requires Valid()
      modifies this
      ensures Valid() && essence.randSeed == old(essence.randSeed)
      ensures ok <==> old(CanMove(m, dir))
      ensures ok ==> essence.monikers == old(AfterMove(m, dir))
      ensures !ok ==> unchanged(this)
      ensures Names(essence.monikers) == old(Names(essence.monikers))
    {
      var index := IndexOfMoniker(m);
      if index.None? {
        return false;
      }
      var currentPos := essence.monikers[index.value].0;
      assert Coords(essence.monikers)[index.value] == currentPos;
      if CanMoveAt(currentPos, dir) {
        var again := IndexOfMoniker(m);
        var i := again.value;
        var s := essence.monikers;
        var target := MoveWith(s[i].0, dir);
        var s' := s[i := (target, s[i].1)];
        assert s[i].1 == m by {
          assert Names(s)[i] == m;
        }
        assert target !in Coords(s);
        RelocationKeepsPlacement(s, i, target);
        essence := essence.(monikers := s');
        ok := true;
      } else {
        ok := false;
      }
    }

    /** The rejection loop of random_free_spot: keep drawing until a cell no entry holds comes up. */
    method FirstFreeDraw(draws: seq<Coord2D>) returns (c: Coord2D)
      requires FirstUnheld(essence.monikers, draws).Some?
      ensures Some(c) == FirstUnheld(essence.monikers, draws)
    {
      var k := 0;
      while true
        invariant k < |draws|
        invariant FirstUnheld(essence.monikers, draws[k..]) == FirstUnheld(essence.monikers, draws)
        decreases |draws| - k
      {
        c := draws[k];
        var held := IndexOfMonikerByCoord(c);
        if held.None? {
          return;
        }
        assert draws[k..][1..] == draws[k + 1..];
        k := k + 1;
      }
    }

    /**
     * random_free_spot with the guard the code evidently means: give up when the
     * grid has no cell left, otherwise return the first drawn cell that no entry
     * holds. A wall may be returned.
     */
    method RandomFreeSpot(draws: seq<Coord2D>) returns (r: Option<Coord2D>)
      requires Valid() && Covers(draws)
      ensures r.None? <==> |essence.monikers| >= CELLS
      ensures r.None? <==> forall c :: InBounds(c) ==> c in Coords(essence.monikers)
      ensures r.Some? ==> FreeIn(essence.monikers, r.value) && r == FirstUnheld(essence.monikers, draws)
    {
      if |essence.monikers| >= CELLS {
        forall c | InBounds(c) ensures c in Coords(essence.monikers) {
          FullGridHasNoFreeCell(essence.monikers, c);
        }
        return None;
      }
      ghost var free := FreeCellExists(essence.monikers);
      ghost var k :| 0 <= k < |draws| && draws[k] == free;
      assert draws[k] !in Coords(essence.monikers);
      var c := FirstFreeDraw(draws);
      return Some(c);
    }

    /**
     * random_free_spot as written: it gives up only when half the number of
     * entries reaches the number of cells; otherwise it draws until it finds a
     * cell that no entry holds, so the draws must hold one.
     */
    method RandomFreeSpotAsWritten(draws: seq<Coord2D>) returns (r: Option<Coord2D>)
      requires Valid() && forall k :: 0 <= k < |draws| ==> InBounds(draws[k])
      requires |essence.monikers| / 2 < CELLS ==> FirstUnheld(essence.monikers, draws).Some?
      ensures r.None? <==> |essence.monikers| / 2 >= CELLS
      ensures r.Some? ==> FreeIn(essence.monikers, r.value) && r == FirstUnheld(essence.monikers, draws)
    {
      if |essence.monikers| / 2 >= CELLS {
        return None;
      }
      var c := FirstFreeDraw(draws);
      return Some(c);
    }

    /** wall_iter: a fresh walk over this game's wall grid from (0,0). */
    method IterWalls() returns (it: WallIter)
      requires Valid()
      ensures fresh(it) && it.Valid() && it.bitGrid == walls
      ensures it.next == Coord2D(0, 0) && it.yielded == [] && it.origin == 0
    {
      it := new WallIter(walls);
    }
  }

  /**
   * The grid full of entries defeats the guard of random_free_spot as written:
   * half of CELLS entries is below CELLS, so the search starts, yet no draw can
   * come up free and the loop never returns.
   */
  lemma FullGridSpinsForever(m: Moniker, draws: seq<Coord2D>)
    requires forall k :: 0 <= k < |draws| ==> InBounds(draws[k])
    ensures Placement(EveryCell(m)) && |EveryCell(m)| == CELLS
    ensures |EveryCell(m)| / 2 < CELLS
    ensures FirstUnheld(EveryCell(m), draws).None?
  {
    var s := EveryCell(m);
    forall a, b | 0 <= a < b < |s| ensures Coords(s)[a] != Coords(s)[b] {
      assert Index(Coords(s)[a]) == a && Index(Coords(s)[b]) == b;
    }
    forall k | 0 <= k < |draws| ensures draws[k] in Coords(s) {
      var i := Index(draws[k]);
      IndexInjective(draws[k], CellAt(i));
      assert Coords(s)[i] == draws[k];
    }
  }

  /** Taking one entry out of a valid entry list leaves a valid one. */
  lemma RemovalKeepsPlacement(s: seq<Entry>, i: nat)
    requires Placement(s) && i < |s|
    ensures Placement(s[..i] + s[i + 1..])
  {
    var s' := s[..i] + s[i + 1..];
    forall a, b | 0 <= a < b < |s'| ensures Coords(s')[a] != Coords(s')[b] {
      var a', b' := if a < i then a else a + 1, if b < i then b else b + 1;
      assert s'[a] == s[a'] && s'[b] == s[b'] && a' < b';
      assert Coords(s)[a'] != Coords(s)[b'];
    }
    forall a | 0 <= a < |s'| ensures InBounds(s'[a].0) {
      assert s'[a] == s[if a < i then a else a + 1];
    }
  }

  /** Moving one entry of a valid entry list to a free cell of the grid leaves a valid list with the same names. */
  lemma RelocationKeepsPlacement(s: seq<Entry>, i: nat, c: Coord2D)
    requires Placement(s) && i < |s| && InBounds(c) && c !in Coords(s)
    ensures Placement(s[i := (c, s[i].1)]) && Names(s[i := (c, s[i].1)]) == Names(s)
  {
    var s' := s[i := (c, s[i].1)];
    forall a, b | 0 <= a < b < |s'| ensures Coords(s')[a] != Coords(s')[b] {
      if a != i && b != i {
        assert Coords(s)[a] != Coords(s)[b];
      } else if a == i {
        assert Coords(s)[b] == s'[b].0;
      } else {
        assert Coords(s)[a] == s'[a].0;
      }
    }
    assert forall a :: 0 <= a < |s'| ==> Names(s')[a] == Names(s)[a];
  }

  /**
   * The test of move_moniker_in_dir on an entry list over the wall grid
   * `walls`: `m` names an entry, and the step from its cell stays on the grid
   * and lands on a cell that is neither a wall nor held by an entry.
   */
  predicate StepAllowed(walls: seq<seq<bool>>, s: seq<Entry>, m: Moniker, dir: Direction)
    requires GridShape(walls) && Placement(s)
  {
    match Position(Names(s), m)
    case None => false
    case Some(i) =>
      assert Names(s)[i] == s[i].1;
      var c := s[i].0;
      StaysInside(c, dir) && var c2 := MoveWith(c, dir); !walls[c2.y][c2.x] && c2 !in Coords(s)
  }

  /** The entry list after an allowed step of `m`: its first entry moved one cell, every other entry kept. */
  function Stepped(walls: seq<seq<bool>>, s: seq<Entry>, m: Moniker, dir: Direction): (r: seq<Entry>)
    requires GridShape(walls) && Placement(s) && StepAllowed(walls, s, m, dir)
    ensures Placement(r) && Names(r) == Names(s)
    ensures var i := Position(Names(s), m).value;
            |r| == |s| && r[i].0 != s[i].0 && forall j :: 0 <= j < |s| && j != i ==> r[j] == s[j]
  {
    var i := Position(Names(s), m).value;
    assert Names(s)[i] == s[i].1;
    var c := MoveWith(s[i].0, dir);
    RelocationKeepsPlacement(s, i, c);
    s[i := (c, m)]
  }

  /** An allowed step moves the entry of `m` exactly one cell in `dir` and keeps its name. */
  lemma SteppedOneCell(walls: seq<seq<bool>>, s: seq<Entry>, m: Moniker, dir: Direction)
    requires GridShape(walls) && Placement(s) && StepAllowed(walls, s, m, dir)
    ensures var i := Position(Names(s), m).value;
            var r := Stepped(walls, s, m, dir);
            r[i].1 == s[i].1 == m
            && r[i].0.x as int == s[i].0.x as int + DeltaX(dir) && r[i].0.y as int == s[i].0.y as int + DeltaY(dir)
  {
    var i := Position(Names(s), m).value;
    assert Names(s)[i] == s[i].1;
  }

  /** Every cell of the grid, each held by `m`, in row-major order. */
  function EveryCell(m: Moniker): seq<Entry> {
    seq(CELLS, k requires 0 <= k < CELLS => (CellAt(k), m))
  }

  /** With cells all on the grid and distinct, the as-written guard never gives up. */
  lemma AsWrittenGuardNeverFires(s: seq<Entry>)
    requires Placement(s)
    ensures |s| / 2 < CELLS
  {
    PlacementBounded(s);
  }

  // ---------------------------------------------------------------------------
  // WallIter

  /** Before anything is yielded, the walk ahead is the whole walk. */
  lemma WalkStart(it: WallIter)
    requires GridShape(it.bitGrid) && it.next == Coord2D(0, 0) && it.yielded == [] && it.origin == 0
    ensures it.Valid()
  {
    EmptyWalk(it.bitGrid, it.Pos(), it.origin);
  }

  /** Nothing yielded and the cursor at the origin: the walk ahead is the whole walk. */
  lemma EmptyWalk(g: seq<seq<bool>>, p: nat, o: nat)
    requires GridShape(g) && p == o
    ensures [] + WallsFrom(g, p) == WallsFrom(g, o)
  {
  }

  /** Yielding one cell moves it from the walk ahead to the cells yielded. */
  lemma YieldOne(yielded: seq<Coord2D>, c: Coord2D, rest: seq<Coord2D>)
    ensures yielded + ([c] + rest) == (yielded + [c]) + rest
  {
  }

  /**
   * The loop of WallIter::next on a cursor: step through the cells from `at`
   * in row-major order, wrapping to the next row at the end of one, and stop
   * just past the first set cell or when the rows run out.
   */
  method ScanWalls(g: seq<seq<bool>>, at: Coord2D) returns (found: Option<Coord2D>, after: Coord2D)
    requires GridShape(g) && at.x <= WIDTH && at.y < HEIGHT
    ensures after.x <= WIDTH && after.y <= HEIGHT && (after.y == HEIGHT ==> after.x == 0)
    ensures Index(at) <= Index(after)
    ensures found.Some? ==> WallsFrom(g, Index(at)) == [found.value] + WallsFrom(g, Index(after))
    ensures found.None? ==> WallsFrom(g, Index(at)) == [] && after == Coord2D(0, HEIGHT)
  {
    after := at;
    while true
      invariant after.x <= WIDTH && after.y < HEIGHT
      invariant Index(at) <= Index(after) && WallsFrom(g, Index(after)) == WallsFrom(g, Index(at))
      decreases CELLS - Index(after)
    {
      if after.x >= WIDTH {
        RowEnd(g, after);
        after := Coord2D(0, after.y + 1);
        if after.y >= HEIGHT {
          return None, after;
        }
      }
      var was := after;
      after := Coord2D(was.x + 1, was.y);
      StepRight(g, was);
      if g[was.y][was.x] {
        return Some(was), after;
      }
    }
  }

  /** WallIter: a row-major walk over a bit grid that yields the cells whose bit is set. */
  class WallIter {
    const bitGrid: seq<seq<bool>>
    /** The next cell to look at; x == WIDTH stands for the end of row y. */
    var next: Coord2D
    /** The cells yielded so far. */
    ghost var yielded: seq<Coord2D>
    /** The ordinal the walk started from. */
    ghost const origin: nat

    function Pos(): nat
      reads this
    {
      Index(next)
    }

    ghost predicate Valid()
      reads this
    {
      GridShape(bitGrid) && next.x <= WIDTH && next.y <= HEIGHT && (next.y == HEIGHT ==> next.x == 0)
      && origin <= Pos() && yielded + WallsFrom(bitGrid, Pos()) == WallsFrom(bitGrid, origin)
    }

    constructor (grid: seq<seq<bool>>)
      requires GridShape(grid)
      ensures Valid() && bitGrid == grid && next == Coord2D(0, 0) && yielded == [] && origin == 0
    {
      bitGrid := grid;
      next := Coord2D(0, 0);
      yielded := [];
      origin := 0;
      new;
      WalkStart(this);
    }

    /**
     * WallIter::next: the first set cell at or after `next`, moving `next` just past
     * it; None once the last row is done. Calling it again after None would index
     * past the last row, which the requires rules out.
     */
    method Next() returns (r: Option<Coord2D>)
      requires Valid() && next.y < HEIGHT
      modifies this
      ensures Valid()
      ensures r.Some? ==> old(WallsFrom(bitGrid, Pos())) == [r.value] + WallsFrom(bitGrid, Pos())
      ensures r.None? ==> old(WallsFrom(bitGrid, Pos())) == [] && next == Coord2D(0, HEIGHT)
      ensures yielded == old(yielded) + (if r.Some? then [r.value] else [])
      ensures r.None? ==> yielded == WallsFrom(bitGrid, origin)
    {
      var found, after := ScanWalls(bitGrid, next);
      next := after;
      if found.Some? {
        YieldOne(yielded, found.value, WallsFrom(bitGrid, Pos()));
        yielded := yielded + [found.value];
      } else {
        assert yielded + [] == yielded;
      }
      r := found;
    }
  }
}
