/**
 * The game logic of 2048 (class TwentyFortyEight of 2048.py): a grid of
 * tiles, where 0 is an empty square, that a move slides in one of four
 * directions, line by line, after which a new tile appears on an empty
 * square if anything changed.
 */
module Game2048 {
  import opened LineMerge

  datatype Direction = Up | Down | Left | Right

  /** OFFSETS (2048.py:16-19): the (row, column) step from one square of a line to the next. */
  function Offset(d: Direction): (int, int)
  {
    match d
    case Up => (1, 0)
    case Down => (-1, 0)
    case Left => (0, 1)
    case Right => (0, -1)
  }

  /** How many lines a move in direction `d` processes: columns for Up and Down, rows otherwise. */
  function NumLines(d: Direction, h: nat, w: nat): nat
  {
    if d == Up || d == Down then w else h
  }

  /** How many squares each of those lines has. */
  function LineLength(d: Direction, h: nat, w: nat): nat
  {
    if d == Up || d == Down then h else w
  }

  /** Square `k` of line `i`: `k` offset steps away from the line's first square. */
  function LineCell(d: Direction, h: nat, w: nat, i: int, k: int): (int, int)
  {
    match d
    case Up => (k, i)
    case Down => (h - 1 - k, i)
    case Left => (i, k)
    case Right => (i, w - 1 - k)
  }

  /** Which line the square (r, c) belongs to. */
  function LineOf(d: Direction, r: int, c: int): int
  {
    if d == Up || d == Down then c else r
  }

  /** At which position of its line the square (r, c) lies. */
  function PosOf(d: Direction, h: nat, w: nat, r: int, c: int): int
  {
    match d
    case Up => r
    case Down => h - 1 - r
    case Left => c
    case Right => w - 1 - c
  }

  /**
   * initial_tiles[d] (2048.py:59-62): the first square of every line, in
   * the order a move visits them; each line then runs along Offset(d).
   */
  function InitialTiles(d: Direction, h: nat, w: nat): (tiles: seq<(int, int)>)
    ensures |tiles| == NumLines(d, h, w)
    ensures forall i :: 0 <= i < |tiles| ==> tiles[i] == LineCell(d, h, w, i, 0)
  {
    match d
    case Up => seq(w, c => (0, c))
    case Down => seq(w, c => (h - 1, c))
    case Left => seq(h, r => (r, 0))
    case Right => seq(h, r => (r, w - 1))
  }

  /**
   * The lines of a direction partition the grid: square k of line i is
   * one offset step after square k - 1, it lies on the grid exactly when
   * i and k are in range, and every square of the grid is square
   * PosOf of line LineOf and of no other line.
   */
  lemma LinesPartitionGrid(d: Direction, h: nat, w: nat, i: int, k: int, r: int, c: int)
    ensures LineCell(d, h, w, i, k + 1) == (LineCell(d, h, w, i, k).0 + Offset(d).0, LineCell(d, h, w, i, k).1 + Offset(d).1)
    ensures 0 <= i < NumLines(d, h, w) ==>
              ((0 <= k < LineLength(d, h, w)) <==> (0 <= LineCell(d, h, w, i, k).0 < h && 0 <= LineCell(d, h, w, i, k).1 < w))
    ensures 0 <= r < h && 0 <= c < w ==>
              0 <= LineOf(d, r, c) < NumLines(d, h, w) && 0 <= PosOf(d, h, w, r, c) < LineLength(d, h, w)
    ensures 0 <= r < h && 0 <= c < w ==>
              (LineCell(d, h, w, i, k) == (r, c) <==> i == LineOf(d, r, c) && k == PosOf(d, h, w, r, c))
  {
  }

  /** A grid of h rows of w squares each. */
  ghost predicate IsGrid(g: seq<seq<int>>, h: nat, w: nat)
  {
    |g| == h && forall r :: 0 <= r < h ==> |g[r]| == w
  }

  /** The grid with square (r, c) set to v. */
  function SetCell(g: seq<seq<int>>, r: nat, c: nat, v: int): seq<seq<int>>
    requires r < |g| && c < |g[r]|
  {
    g[r := g[r][c := v]]
  }

  /** A grid with every square empty. */
  function EmptyGrid(h: nat, w: nat): (g: seq<seq<int>>)
    ensures IsGrid(g, h, w)
    ensures forall r, c :: 0 <= r < h && 0 <= c < w ==> g[r][c] == 0
  {
    seq(h, _ => Zeros(w))
  }

  /** Line i of direction d, read from its first square along Offset(d). */
  function GridLine(g: seq<seq<int>>, h: nat, w: nat, d: Direction, i: int): (line: seq<int>)
    requires IsGrid(g, h, w) && 0 <= i < NumLines(d, h, w)
    ensures |line| == LineLength(d, h, w)
  {
    seq(LineLength(d, h, w), k requires 0 <= k < LineLength(d, h, w) =>
      g[LineCell(d, h, w, i, k).0][LineCell(d, h, w, i, k).1])
  }

  /** The grid in which every line of direction d is replaced by its merge. */
  function Slide(g: seq<seq<int>>, h: nat, w: nat, d: Direction): (g': seq<seq<int>>)
    requires IsGrid(g, h, w)
    ensures IsGrid(g', h, w)
  {
    seq(h, r requires 0 <= r < h =>
      seq(w, c requires 0 <= c < w =>
        Merged(GridLine(g, h, w, d, LineOf(d, r, c)))[PosOf(d, h, w, r, c)]))
  }

  lemma SlideAt(g: seq<seq<int>>, h: nat, w: nat, d: Direction, r: int, c: int)
    requires IsGrid(g, h, w) && 0 <= r < h && 0 <= c < w
    ensures 0 <= LineOf(d, r, c) < NumLines(d, h, w) && 0 <= PosOf(d, h, w, r, c) < LineLength(d, h, w)
    ensures Slide(g, h, w, d)[r][c] == Merged(GridLine(g, h, w, d, LineOf(d, r, c)))[PosOf(d, h, w, r, c)]
  {
  }

  /** move with direction d replaces every line, read from its first square along the offset, by merge of that line. */
  lemma SlideMergesEveryLine(g: seq<seq<int>>, h: nat, w: nat, d: Direction, i: int)
    requires IsGrid(g, h, w) && 0 <= i < NumLines(d, h, w)
    ensures GridLine(Slide(g, h, w, d), h, w, d, i) == Merged(GridLine(g, h, w, d, i))
  {
    var s := Slide(g, h, w, d);
    forall k | 0 <= k < LineLength(d, h, w)
      ensures GridLine(s, h, w, d, i)[k] == Merged(GridLine(g, h, w, d, i))[k]
    {
      var p := LineCell(d, h, w, i, k);
      LinesPartitionGrid(d, h, w, i, k, p.0, p.1);
    }
  }

  /** Sliding leaves the grid as it is exactly when merging leaves every line as it is. */
  lemma SlideUnchangedIff(g: seq<seq<int>>, h: nat, w: nat, d: Direction)
    requires IsGrid(g, h, w)
    ensures Slide(g, h, w, d) == g <==>
              forall i :: 0 <= i < NumLines(d, h, w) ==> Merged(GridLine(g, h, w, d, i)) == GridLine(g, h, w, d, i)
  {
    var s := Slide(g, h, w, d);
    if s == g {
      forall i | 0 <= i < NumLines(d, h, w)
        ensures Merged(GridLine(g, h, w, d, i)) == GridLine(g, h, w, d, i)
      {
        SlideMergesEveryLine(g, h, w, d, i);
      }
    }
    if forall i :: 0 <= i < NumLines(d, h, w) ==> Merged(GridLine(g, h, w, d, i)) == GridLine(g, h, w, d, i) {
      forall r | 0 <= r < h ensures s[r] == g[r] {
        forall c | 0 <= c < w ensures s[r][c] == g[r][c] {
          var i, k := LineOf(d, r, c), PosOf(d, h, w, r, c);
          LinesPartitionGrid(d, h, w, i, k, r, c);
          assert GridLine(g, h, w, d, i)[k] == g[r][c];
        }
      }
    }
  }

  /** A line none of whose squares differs between g and g' reads the same in both. */
  lemma UntouchedLine(g: seq<seq<int>>, g': seq<seq<int>>, h: nat, w: nat, d: Direction, i: int)
    requires IsGrid(g, h, w) && IsGrid(g', h, w) && 0 <= i < NumLines(d, h, w)
    requires forall r, c :: 0 <= r < h && 0 <= c < w && LineOf(d, r, c) == i ==> g'[r][c] == g[r][c]
    ensures GridLine(g', h, w, d, i) == GridLine(g, h, w, d, i)
  {
    forall k | 0 <= k < LineLength(d, h, w)
      ensures GridLine(g', h, w, d, i)[k] == GridLine(g, h, w, d, i)[k]
    {
      var p := LineCell(d, h, w, i, k);
      LinesPartitionGrid(d, h, w, i, k, p.0, p.1);
    }
  }

  /** g is g0 with the lines before line n of direction d slid and all others untouched. */
  ghost predicate SlidUpTo(g0: seq<seq<int>>, g: seq<seq<int>>, h: nat, w: nat, d: Direction, n: int)
  {
    IsGrid(g0, h, w) && IsGrid(g, h, w) &&
    forall r, c :: 0 <= r < h && 0 <= c < w ==>
      g[r][c] == if LineOf(d, r, c) < n then Slide(g0, h, w, d)[r][c] else g0[r][c]
  }

  lemma SlidUpToUntouched(g0: seq<seq<int>>, g: seq<seq<int>>, h: nat, w: nat, d: Direction, i: int)
    requires SlidUpTo(g0, g, h, w, d, i) && 0 <= i < NumLines(d, h, w)
    ensures GridLine(g, h, w, d, i) == GridLine(g0, h, w, d, i)
  {
    UntouchedLine(g0, g, h, w, d, i);
  }

  lemma SlidUpToStep(g0: seq<seq<int>>, g: seq<seq<int>>, g': seq<seq<int>>, h: nat, w: nat, d: Direction, i: int)
    requires SlidUpTo(g0, g, h, w, d, i) && 0 <= i < NumLines(d, h, w) && IsGrid(g', h, w)
    requires forall r, c :: 0 <= r < h && 0 <= c < w ==>
               g'[r][c] == if LineOf(d, r, c) == i then Merged(GridLine(g0, h, w, d, i))[PosOf(d, h, w, r, c)] else g[r][c]
    ensures SlidUpTo(g0, g', h, w, d, i + 1)
  {
    forall r, c | 0 <= r < h && 0 <= c < w
      ensures g'[r][c] == if LineOf(d, r, c) < i + 1 then Slide(g0, h, w, d)[r][c] else g0[r][c]
    {
      if LineOf(d, r, c) == i {
        SlideAt(g0, h, w, d, r, c);
      }
    }
  }

  lemma SlidUpToAll(g0: seq<seq<int>>, g: seq<seq<int>>, h: nat, w: nat, d: Direction)
    requires SlidUpTo(g0, g, h, w, d, NumLines(d, h, w))
    ensures g == Slide(g0, h, w, d)
  {
    var s := Slide(g0, h, w, d);
    forall r | 0 <= r < h ensures g[r] == s[r] {
      forall c | 0 <= c < w ensures g[r][c] == s[r][c] {
        LinesPartitionGrid(d, h, w, 0, 0, r, c);
      }
    }
  }

  /** Merging changes at least one of the first n lines of direction d. */
  ghost predicate SomeLineChanges(g: seq<seq<int>>, h: nat, w: nat, d: Direction, n: int)
    requires IsGrid(g, h, w)
  {
    exists j :: 0 <= j < n && j < NumLines(d, h, w) && Merged(GridLine(g, h, w, d, j)) != GridLine(g, h, w, d, j)
  }

  lemma SomeLineChangesStep(g: seq<seq<int>>, h: nat, w: nat, d: Direction, i: int)
    requires IsGrid(g, h, w) && 0 <= i < NumLines(d, h, w)
    ensures SomeLineChanges(g, h, w, d, i + 1) <==>
              SomeLineChanges(g, h, w, d, i) || Merged(GridLine(g, h, w, d, i)) != GridLine(g, h, w, d, i)
  {
  }

  lemma SomeLineChangesAll(g: seq<seq<int>>, h: nat, w: nat, d: Direction)
    requires IsGrid(g, h, w)
    ensures SomeLineChanges(g, h, w, d, NumLines(d, h, w)) <==>
              !forall i :: 0 <= i < NumLines(d, h, w) ==> Merged(GridLine(g, h, w, d, i)) == GridLine(g, h, w, d, i)
  {
  }

  /** The squares (row, column) of row r, among its first n, that hold no tile, left to right. */
  function EmptyInRow(row: seq<int>, r: int, n: nat): seq<(int, int)>
    requires n <= |row|
  {
    if n == 0 then []
    else EmptyInRow(row, r, n - 1) + (if row[n - 1] == 0 then [(r, n - 1)] else [])
  }

  /** The empty squares of the first n rows, row by row (empty_squares of new_tile). */
  function EmptySquares(g: seq<seq<int>>, w: nat, n: nat): seq<(int, int)>
    requires n <= |g| && IsGrid(g, |g|, w)
  {
    if n == 0 then [] else EmptySquares(g, w, n - 1) + EmptyInRow(g[n - 1], n - 1, w)
  }

  lemma {:induction false} EmptyInRowMembers(row: seq<int>, r: int, n: nat, p: (int, int))
    requires n <= |row|
    ensures p in EmptyInRow(row, r, n) <==> p.0 == r && 0 <= p.1 < n && row[p.1] == 0
  {
    if n > 0 {
      EmptyInRowMembers(row, r, n - 1, p);
    }
  }

  /** new_tile's list of empty squares holds exactly the squares of the grid that are 0. */
  lemma {:induction false} EmptySquaresMembers(g: seq<seq<int>>, w: nat, n: nat, p: (int, int))
    requires n <= |g| && IsGrid(g, |g|, w)
    ensures p in EmptySquares(g, w, n) <==> 0 <= p.0 < n && 0 <= p.1 < w && g[p.0][p.1] == 0
  {
    if n > 0 {
      var prev, row := EmptySquares(g, w, n - 1), EmptyInRow(g[n - 1], n - 1, w);
      assert EmptySquares(g, w, n) == prev + row;
      EmptySquaresMembers(g, w, n - 1, p);
      EmptyInRowMembers(g[n - 1], n - 1, w, p);
      assert p in row ==> p.0 == n - 1;
      assert p in prev ==> p.0 < n - 1;
    }
  }

  /** g is g0 with the first k squares of line i of direction d set from `line`. */
  ghost predicate WrittenUpTo(g0: seq<seq<int>>, g: seq<seq<int>>, h: nat, w: nat, d: Direction, i: int, line: seq<int>, k: int)
  {
    IsGrid(g0, h, w) && IsGrid(g, h, w) && |line| == LineLength(d, h, w) &&
    forall r, c :: 0 <= r < h && 0 <= c < w ==>
      g[r][c] == if LineOf(d, r, c) == i && PosOf(d, h, w, r, c) < k
                 then line[PosOf(d, h, w, r, c)] else g0[r][c]
  }

  lemma WrittenStep(g0: seq<seq<int>>, g: seq<seq<int>>, h: nat, w: nat, d: Direction, i: int, line: seq<int>, k: nat)
    requires WrittenUpTo(g0, g, h, w, d, i, line, k) && 0 <= i < NumLines(d, h, w) && k < |line|
    requires 0 <= LineCell(d, h, w, i, k).0 < h && 0 <= LineCell(d, h, w, i, k).1 < w
    ensures WrittenUpTo(g0, SetCell(g, LineCell(d, h, w, i, k).0, LineCell(d, h, w, i, k).1, line[k]), h, w, d, i, line, k + 1)
  {
    var p := LineCell(d, h, w, i, k);
    var g' := SetCell(g, p.0, p.1, line[k]);
    forall r, c | 0 <= r < h && 0 <= c < w
      ensures g'[r][c] == if LineOf(d, r, c) == i && PosOf(d, h, w, r, c) < k + 1
                          then line[PosOf(d, h, w, r, c)] else g0[r][c]
    {
      LinesPartitionGrid(d, h, w, i, k, r, c);
    }
  }

  /**
   * g' is g after new_tile: if g has an empty square, one of its empty
   * squares now holds 2 or 4 and nothing else changed; a full grid stays
   * as it is.
   */
  ghost predicate TileAdded(g: seq<seq<int>>, g': seq<seq<int>>, h: nat, w: nat)
    requires IsGrid(g, h, w)
  {
    ((forall r, c :: 0 <= r < h && 0 <= c < w ==> g[r][c] != 0) && g' == g)
    || exists r: nat, c: nat, v: int ::
         r < h && c < w && g[r][c] == 0 && (v == 2 || v == 4) && g' == SetCell(g, r, c, v)
  }

  /** The game state of TwentyFortyEight (2048.py:50-139). */
  class TwentyFortyEight {
    const height: nat
    const width: nat
    var cells: seq<seq<int>>

    ghost predicate Valid()
      reads this
    {
      IsGrid(cells, height, width)
    }

    /** __init__ (2048.py:55-62): remember the dimensions and start from an empty grid. */
    constructor (gridHeight: nat, gridWidth: nat)
      ensures height == gridHeight && width == gridWidth
      ensures Valid() && cells == EmptyGrid(gridHeight, gridWidth)
    {
      height := gridHeight;
      width := gridWidth;
      new;
      Reset();
    }

    /** reset (2048.py:64-68): every square becomes empty. */
    method Reset()
      modifies this
      ensures Valid() && cells == EmptyGrid(height, width)
    {
      cells := EmptyGrid(height, width);
    }

    /** set_tile (2048.py:129-133). */
    method SetTile(row: nat, col: nat, value: int)
      requires Valid() && row < height && col < width
      modifies this
      ensures Valid() && cells == SetCell(old(cells), row, col, value)
      ensures cells[row][col] == value
      ensures forall r, c :: 0 <= r < height && 0 <= c < width && (r, c) != (row, col) ==>
                cells[r][c] == old(cells)[r][c]
    {
      cells := cells[row := cells[row][col := value]];
    }

    /** get_tile (2048.py:135-139). */
    method GetTile(row: nat, col: nat) returns (value: int)
      requires Valid() && row < height && col < width
      ensures value == cells[row][col]
    {
      value := cells[row][col];
    }

    /**
     * new_tile (2048.py:114-127): list the empty squares row by row and,
     * if there is one, put a 2 or a 4 on one of them. The random choice of
     * square and value is left open.
     */
    method NewTile()
      requires Valid()
      modifies this
      ensures Valid()
      ensures TileAdded(old(cells), cells, height, width)
    {
      var emptySquares: seq<(int, int)> := [];
      for row := 0 to height
        invariant emptySquares == EmptySquares(cells, width, row)
      {
        for col := 0 to width
          invariant emptySquares == EmptySquares(cells, width, row) + EmptyInRow(cells[row], row, col)
        {
          if cells[row][col] == 0 {
            emptySquares := emptySquares + [(row, col)];
          }
        }
      }
      if emptySquares != [] {
        assert emptySquares[0] in emptySquares;
        var choice :| choice in emptySquares;
        EmptySquaresMembers(cells, width, height, choice);
        var value :| value in {2, 4};
        cells := SetCell(cells, choice.0, choice.1, value);
      } else {
        forall r, c | 0 <= r < height && 0 <= c < width ensures cells[r][c] != 0 {
          EmptySquaresMembers(cells, width, height, (r, c));
        }
      }
    }

    /**
     * The reading loop of move (2048.py:95-101): collect the squares of
     * the line that starts at `start`, stepping by the offset until the
     * grid's edge.
     */
    method ReadLine(d: Direction, ghost i: int, start: (int, int)) returns (line: seq<int>)
      requires Valid() && 0 <= i < NumLines(d, height, width)
      requires start == InitialTiles(d, height, width)[i]
      ensures line == GridLine(cells, height, width, d, i)
    {
      line := [];
      var row, col := start.0, start.1;
      while 0 <= row < height && 0 <= col < width
        invariant |line| <= LineLength(d, height, width)
        invariant (row, col) == LineCell(d, height, width, i, |line|)
        invariant line == GridLine(cells, height, width, d, i)[..|line|]
        decreases LineLength(d, height, width) - |line|
      {
        LinesPartitionGrid(d, height, width, i, |line|, row, col);
        line := line + [cells[row][col]];
        row, col := row + Offset(d).0, col + Offset(d).1;
      }
      LinesPartitionGrid(d, height, width, i, |line|, row, col);
    }

    /**
     * The writing loop of move (2048.py:103-108): store `line` square by
     * square from `start` along the offset; only the squares of that line
     * change.
     */
    method WriteLine(d: Direction, ghost i: int, start: (int, int), line: seq<int>)
      requires Valid() && 0 <= i < NumLines(d, height, width)
      requires start == InitialTiles(d, height, width)[i]
      requires |line| == LineLength(d, height, width)
      modifies this
      ensures Valid()
      ensures forall r, c :: 0 <= r < height && 0 <= c < width ==>
                cells[r][c] == if LineOf(d, r, c) == i then line[PosOf(d, height, width, r, c)] else old(cells)[r][c]
    {
      ghost var g0 := cells;
      var row, col := start.0, start.1;
      for k := 0 to |line|
        invariant (row, col) == LineCell(d, height, width, i, k)
        invariant WrittenUpTo(g0, cells, height, width, d, i, line, k)
      {
        LinesPartitionGrid(d, height, width, i, k, row, col);
        ghost var before := cells;
        cells := SetCell(cells, row, col, line[k]);
        WrittenStep(g0, before, height, width, d, i, line, k);
        row, col := row + Offset(d).0, col + Offset(d).1;
      }
    }

    /**
     * move (2048.py:88-112): replace every line of the direction by its
     * merge, in place, and add a new tile if some line changed; the grid
     * keeps its height and width.
     */
    method Move(d: Direction)
      requires Valid()
      modifies this
      ensures Valid()
      ensures var slid := Slide(old(cells), height, width, d);
              if slid == old(cells) then cells == slid else TileAdded(slid, cells, height, width)
    {
      ghost var g0 := cells;
      var moved := false;
      var tiles := InitialTiles(d, height, width);
      for i := 0 to |tiles|
        invariant SlidUpTo(g0, cells, height, width, d, i)
        invariant moved == SomeLineChanges(g0, height, width, d, i)
      {
        var oldLine := ReadLine(d, i, tiles[i]);
        SlidUpToUntouched(g0, cells, height, width, d, i);
        var newLine := Merge(oldLine);
        ghost var before := cells;
        WriteLine(d, i, tiles[i], newLine);
        SlidUpToStep(g0, before, cells, height, width, d, i);
        SomeLineChangesStep(g0, height, width, d, i);
        if newLine != oldLine {
          moved := true;
        }
      }
      SlidUpToAll(g0, cells, height, width, d);
      SlideUnchangedIff(g0, height, width, d);
      SomeLineChangesAll(g0, height, width, d);
      if moved {
        NewTile();
      }
    }
  }
}
