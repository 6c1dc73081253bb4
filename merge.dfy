/**
 * The line merge of 2048 (the function `merge` of 2048.py): the non-zero
 * tiles of a row or column slide to the front, equal neighbours combine
 * into one tile of twice the value, every tile takes part in at most one
 * combination, and the line is padded with zeros to its old length.
 */
module LineMerge {
  import opened Sums


  /** A line of `n` empty squares. */
  function Zeros(n: nat): (z: seq<int>)
    ensures |z| == n
    ensures forall i :: 0 <= i < n ==> z[i] == 0
  {
    seq(n, _ => 0)
  }

  lemma {:induction false} SumZeros(n: nat)
    ensures Sum(Zeros(n)) == 0
  {
    if n > 0 {
      assert Zeros(n)[1..] == Zeros(n - 1);
      SumZeros(n - 1);
    }
  }

  /** The non-zero tiles of `line`, in their order; 0 marks an empty square. */
  function Compact(line: seq<int>): (r: seq<int>)
    ensures |r| <= |line|
    ensures forall i :: 0 <= i < |r| ==> r[i] != 0
  {
    if line == [] then []
    else if line[|line| - 1] != 0 then Compact(line[..|line| - 1]) + [line[|line| - 1]]
    else Compact(line[..|line| - 1])
  }

  /**
   * One pass over compacted tiles from the front: an equal adjacent pair
   * becomes a single tile of twice the value and both of its tiles are
   * used up, any other tile is copied.
   */
  function MergeTiles(t: seq<int>): (r: seq<int>)
    ensures |r| <= |t| <= 2 * |r|
    decreases |t|
  {
    if |t| <= 1 then t
    else if t[0] == t[1] then [t[0] * 2] + MergeTiles(t[2..])
    else [t[0]] + MergeTiles(t[1..])
  }

  /** The line that `merge(line)` returns. */
  function Merged(line: seq<int>): (r: seq<int>)
    ensures |r| == |line|
  {
    var m := MergeTiles(Compact(line));
    m + Zeros(|line| - |m|)
  }

  /** The first loop of merge (2048.py:25-28): keep the non-zero tiles in order. */
  method CompactTiles(line: seq<int>) returns (rstLine: seq<int>)
    ensures rstLine == Compact(line)
  {
    rstLine := [];
    for i := 0 to |line|
      invariant rstLine == Compact(line[..i])
    {
      assert line[..i + 1][..i] == line[..i];
      if line[i] != 0 {
        rstLine := rstLine + [line[i]];
      }
    }
    assert line[..|line|] == line;
  }

  /**
   * One step of the pass at position i: a pair adds its double and skips
   * both tiles, a lone tile is copied.
   */
  lemma MergeTilesAt(t: seq<int>, i: nat, done: seq<int>)
    requires i + 1 < |t|
    requires done + MergeTiles(t[i..]) == MergeTiles(t)
    ensures t[i] == t[i + 1] ==> (done + [t[i] * 2]) + MergeTiles(t[i + 2..]) == MergeTiles(t)
    ensures t[i] != t[i + 1] ==> (done + [t[i]]) + MergeTiles(t[i + 1..]) == MergeTiles(t)
  {
    var u := t[i..];
    assert u[0] == t[i] && u[1] == t[i + 1];
    if t[i] == t[i + 1] {
      assert u[2..] == t[i + 2..];
      var x := [t[i] * 2];
      assert MergeTiles(u) == x + MergeTiles(t[i + 2..]);
      assert (done + x) + MergeTiles(t[i + 2..]) == done + (x + MergeTiles(t[i + 2..]));
    } else {
      assert u[1..] == t[i + 1..];
      var x := [t[i]];
      assert MergeTiles(u) == x + MergeTiles(t[i + 1..]);
      assert (done + x) + MergeTiles(t[i + 1..]) == done + (x + MergeTiles(t[i + 1..]));
    }
  }

  /**
   * The second loop of merge (2048.py:31-44): walk the tiles with an index
   * that skips over a merged pair; `final` records whether the last tile
   * is still to be copied.
   */
  method MergePairs(rstLine: seq<int>) returns (newLine: seq<int>)
    requires |rstLine| > 1
    ensures newLine == MergeTiles(rstLine)
  {
    newLine := [];
    var index := 0;
    var final := true;
    while index < |rstLine| - 1
      invariant 0 <= index <= |rstLine|
      invariant final == (index < |rstLine|)
      invariant newLine + MergeTiles(rstLine[index..]) == MergeTiles(rstLine)
    {
      MergeTilesAt(rstLine, index, newLine);
      if rstLine[index] == rstLine[index + 1] {
        newLine := newLine + [rstLine[index] * 2];
        if index + 1 == |rstLine| - 1 {
          final := false;
        }
        index := index + 2;
      } else {
        newLine := newLine + [rstLine[index]];
        index := index + 1;
      }
    }
    if final {
      assert rstLine[index..] == [rstLine[|rstLine| - 1]];
      newLine := newLine + [rstLine[|rstLine| - 1]];
    } else {
      assert rstLine[index..] == [];
    }
  }

  /**
   * merge (2048.py:21-48): collect the non-zero tiles, merge neighbouring
   * pairs when there are at least two of them, then pad with zeros.
   */
  method Merge(line: seq<int>) returns (newLine: seq<int>)
    ensures newLine == Merged(line)
    ensures |newLine| == |line|
  {
    var rstLine := CompactTiles(line);
    newLine := [];
    if |rstLine| > 1 {
      newLine := MergePairs(rstLine);
    } else if |rstLine| == 1 {
      newLine := rstLine;
    }
    newLine := newLine + Zeros(|line| - |newLine|);
  }

  // ---------------------------------------------------------------------
  // Properties of the merge

  lemma {:induction false} CompactSum(line: seq<int>)
    ensures Sum(Compact(line)) == Sum(line)
  {
    if line != [] {
      var init, last := line[..|line| - 1], line[|line| - 1];
      assert line == init + [last];
      CompactSum(init);
      SumConcat(init, [last]);
      if last != 0 {
        SumConcat(Compact(init), [last]);
      }
    }
  }

  lemma {:induction false} MergeTilesSum(t: seq<int>)
    ensures Sum(MergeTiles(t)) == Sum(t)
    decreases |t|
  {
    if |t| > 1 {
      if t[0] == t[1] {
        assert t[1..][1..] == t[2..];
        MergeTilesSum(t[2..]);
        SumConcat([t[0] * 2], MergeTiles(t[2..]));
      } else {
        MergeTilesSum(t[1..]);
        SumConcat([t[0]], MergeTiles(t[1..]));
      }
    }
  }

  /** Merging conserves the total of the tiles: a pair is replaced by its double. */
  lemma MergedSum(line: seq<int>)
    ensures Sum(Merged(line)) == Sum(line)
  {
    var m := MergeTiles(Compact(line));
    CompactSum(line);
    MergeTilesSum(Compact(line));
    SumConcat(m, Zeros(|line| - |m|));
    SumZeros(|line| - |m|);
  }

  lemma {:induction false} MergeTilesNonZero(t: seq<int>)
    requires forall i :: 0 <= i < |t| ==> t[i] != 0
    ensures forall i :: 0 <= i < |MergeTiles(t)| ==> MergeTiles(t)[i] != 0
    decreases |t|
  {
    if |t| > 1 {
      if t[0] == t[1] {
        MergeTilesNonZero(t[2..]);
      } else {
        MergeTilesNonZero(t[1..]);
      }
    }
  }

  /**
   * The merged line holds its tiles in front: the squares holding a tile
   * are exactly the first |MergeTiles(Compact(line))| ones, so no tile
   * follows an empty square.
   */
  lemma MergedZerosLast(line: seq<int>)
    ensures forall i :: 0 <= i < |line| ==>
              (Merged(line)[i] != 0 <==> i < |MergeTiles(Compact(line))|)
    ensures forall i, j :: 0 <= i <= j < |line| && Merged(line)[i] == 0 ==> Merged(line)[j] == 0
  {
    MergeTilesNonZero(Compact(line));
  }

  /** No two neighbouring tiles are equal. */
  ghost predicate NoEqualNeighbours(t: seq<int>)
  {
    forall i :: 0 <= i < |t| - 1 ==> t[i] != t[i + 1]
  }

  /** A pass over compacted tiles changes nothing exactly when no two neighbours are equal. */
  lemma {:induction false} MergeTilesIdentity(t: seq<int>)
    ensures MergeTiles(t) == t <==> NoEqualNeighbours(t)
    decreases |t|
  {
    if |t| > 1 {
      if t[0] == t[1] {
        assert !NoEqualNeighbours(t) by { assert t[0] == t[1]; }
        assert |MergeTiles(t)| < |t|;
      } else {
        MergeTilesIdentity(t[1..]);
        if NoEqualNeighbours(t) {
          assert NoEqualNeighbours(t[1..]) by {
            forall i | 0 <= i < |t[1..]| - 1 ensures t[1..][i] != t[1..][i + 1] {
              assert t[1..][i] == t[i + 1] && t[1..][i + 1] == t[i + 2];
            }
          }
        } else {
          var i :| 0 <= i < |t| - 1 && t[i] == t[i + 1];
          assert i > 0;
          assert t[1..][i - 1] == t[1..][i];
          assert !NoEqualNeighbours(t[1..]);
          assert MergeTiles(t)[1..] == MergeTiles(t[1..]);
        }
      }
    }
  }

  /**
   * If no two consecutive tiles of the line are equal, merge only slides
   * the tiles to the front, in their order, and pads with zeros.
   */
  lemma MergedWithoutPairs(line: seq<int>)
    requires NoEqualNeighbours(Compact(line))
    ensures Merged(line) == Compact(line) + Zeros(|line| - |Compact(line)|)
  {
    MergeTilesIdentity(Compact(line));
  }

  /** A line with at most one tile merges to that tile at the front, padded with zeros. */
  lemma MergedAtMostOneTile(line: seq<int>)
    requires |Compact(line)| <= 1
    ensures Merged(line) == Compact(line) + Zeros(|line| - |Compact(line)|)
  {
  }

  // ---------------------------------------------------------------------
  // Each tile takes part in at most one merge

  /**
   * The group whose first tile is t[start], of `size` tiles, contributes
   * `tile` to the output: a lone tile is copied and is never followed by an
   * equal tile (pairs are taken greedily from the front), a pair is two
   * equal tiles replaced by their sum.
   */
  ghost predicate GroupOk(t: seq<int>, start: int, size: int, tile: int)
  {
    0 <= start &&
    ((size == 1 && start < |t| && tile == t[start] && (start + 1 < |t| ==> t[start] != t[start + 1]))
     || (size == 2 && start + 1 < |t| && t[start] == t[start + 1] && tile == t[start] + t[start + 1]))
  }

  /**
   * `sizes` cuts `t` into consecutive groups of one or two tiles that cover
   * every tile exactly once (group k starts where the first k groups end),
   * and output tile k is what group k contributes.
   */
  ghost predicate IsGreedyGrouping(t: seq<int>, sizes: seq<int>, out: seq<int>)
  {
    |sizes| == |out| && Sum(sizes) == |t| &&
    forall k :: 0 <= k < |sizes| ==> GroupOk(t, Sum(sizes[..k]), sizes[k], out[k])
  }

  /** The group sizes of one pass over `t`. */
  function GroupSizes(t: seq<int>): seq<int>
    decreases |t|
  {
    if |t| <= 1 then seq(|t|, _ => 1)
    else if t[0] == t[1] then [2] + GroupSizes(t[2..])
    else [1] + GroupSizes(t[1..])
  }

  lemma GroupOkShift(t: seq<int>, d: nat, start: int, size: int, tile: int)
    requires d <= |t| && 0 <= start
    ensures GroupOk(t[d..], start, size, tile) <==> GroupOk(t, start + d, size, tile)
  {
  }

  lemma PrefixSumCons(x: int, s: seq<int>, k: nat)
    requires 1 <= k <= |s| + 1
    ensures Sum(([x] + s)[..k]) == x + Sum(s[..k - 1])
  {
    assert ([x] + s)[..k] == [x] + s[..k - 1];
    assert ([x] + s[..k - 1])[1..] == s[..k - 1];
  }

  lemma GroupingCons(t: seq<int>, d: nat, size: int, tile: int, sizes: seq<int>, out: seq<int>)
    requires 1 <= d == size <= 2 && d <= |t|
    requires GroupOk(t, 0, size, tile)
    requires IsGreedyGrouping(t[d..], sizes, out)
    ensures IsGreedyGrouping(t, [size] + sizes, [tile] + out)
  {
    var g, o := [size] + sizes, [tile] + out;
    assert g[1..] == sizes;
    forall k | 0 <= k < |g| ensures GroupOk(t, Sum(g[..k]), g[k], o[k]) {
      if k == 0 {
        assert g[..0] == [];
      } else {
        PrefixSumCons(size, sizes, k);
        GroupOkShift(t, d, Sum(sizes[..k - 1]), sizes[k - 1], out[k - 1]);
      }
    }
  }

  lemma {:induction false} GroupSizesGroup(t: seq<int>)
    ensures IsGreedyGrouping(t, GroupSizes(t), MergeTiles(t))
    decreases |t|
  {
    if |t| == 0 {
    } else if |t| == 1 {
      assert GroupSizes(t) == [1];
      assert GroupSizes(t)[..0] == [];
    } else if t[0] == t[1] {
      GroupSizesGroup(t[2..]);
      GroupingCons(t, 2, 2, t[0] * 2, GroupSizes(t[2..]), MergeTiles(t[2..]));
    } else {
      GroupSizesGroup(t[1..]);
      GroupingCons(t, 1, 1, t[0], GroupSizes(t[1..]), MergeTiles(t[1..]));
    }
  }

  lemma {:induction false} SumNonNegative(s: seq<int>)
    requires forall i :: 0 <= i < |s| ==> s[i] >= 0
    ensures Sum(s) >= 0
  {
    if s != [] {
      SumNonNegative(s[1..]);
    }
  }

  lemma GroupingTail(t: seq<int>, d: nat, sizes: seq<int>, out: seq<int>)
    requires IsGreedyGrouping(t, sizes, out) && |sizes| > 0 && sizes[0] == d && d <= |t|
    ensures IsGreedyGrouping(t[d..], sizes[1..], out[1..])
  {
    assert sizes == [d] + sizes[1..];
    assert Sum(sizes[1..]) == |t[d..]|;
    forall k | 0 <= k < |sizes[1..]|
      ensures GroupOk(t[d..], Sum(sizes[1..][..k]), sizes[1..][k], out[1..][k])
    {
      PrefixSumCons(d, sizes[1..], k + 1);
      forall j | 0 <= j < k ensures sizes[1..][..k][j] >= 0 {
        assert GroupOk(t, Sum(sizes[..j + 1]), sizes[j + 1], out[j + 1]);
      }
      SumNonNegative(sizes[1..][..k]);
      assert GroupOk(t, Sum(sizes[..k + 1]), sizes[k + 1], out[k + 1]);
      GroupOkShift(t, d, Sum(sizes[1..][..k]), sizes[1..][k], out[1..][k]);
    }
  }

  lemma MergeTilesFront(t: seq<int>, d: int, tile: int)
    requires GroupOk(t, 0, d, tile)
    ensures MergeTiles(t) == [tile] + MergeTiles(t[d..])
  {
    if d == 1 {
      assert tile == t[0];
      if |t| == 1 {
        assert t[1..] == [];
      } else {
        assert t[0] != t[1];
      }
    } else {
      assert d == 2 && t[0] == t[1] && tile == t[0] + t[1];
      assert tile == t[0] * 2;
    }
  }

  lemma {:induction false} GroupingUnique(t: seq<int>, sizes: seq<int>, out: seq<int>)
    requires IsGreedyGrouping(t, sizes, out)
    ensures out == MergeTiles(t)
    decreases |t|
  {
    if |sizes| == 0 {
      assert t == [];
    } else {
      assert sizes[..0] == [];
      assert GroupOk(t, 0, sizes[0], out[0]);
      var d := sizes[0];
      GroupingTail(t, d, sizes, out);
      GroupingUnique(t[d..], sizes[1..], out[1..]);
      MergeTilesFront(t, d, out[0]);
      assert out == [out[0]] + out[1..];
    }
  }

  /**
   * Each tile takes part in at most one merge: the result of one pass is
   * exactly what a greedy, left-to-right cutting of the tiles into lone
   * tiles and equal pairs yields, and no other output is.
   */
  lemma MergeTilesIsGreedyGrouping(t: seq<int>, out: seq<int>)
    ensures out == MergeTiles(t) <==> exists sizes :: IsGreedyGrouping(t, sizes, out)
  {
    GroupSizesGroup(t);
    if exists sizes :: IsGreedyGrouping(t, sizes, out) {
      var sizes :| IsGreedyGrouping(t, sizes, out);
      GroupingUnique(t, sizes, out);
    }
  }

  /** Four equal tiles give two merged tiles, not one tile of four times the value. */
  lemma MergeFourEqual()
    ensures Merged([2, 2, 2, 2]) == [4, 4, 0, 0]
  {
    assert Compact([2, 2, 2, 2]) == [2, 2, 2, 2] by {
      assert [2, 2, 2, 2][..3] == [2, 2, 2];
      assert [2, 2, 2][..2] == [2, 2];
      assert [2, 2][..1] == [2];
      assert [2][..0] == [];
    }
    assert MergeTiles([2, 2, 2, 2]) == [4, 4] by {
      assert [2, 2, 2, 2][2..] == [2, 2];
      assert [2, 2][2..] == [];
    }
  }

  /** A tile made by a merge does not merge again in the same pass. */
  lemma MergeNoChain()
    ensures Merged([4, 4, 8, 0]) == [8, 8, 0, 0]
  {
    assert Compact([4, 4, 8, 0]) == [4, 4, 8] by {
      assert [4, 4, 8, 0][..3] == [4, 4, 8];
      assert [4, 4, 8][..2] == [4, 4];
      assert [4, 4][..1] == [4];
      assert [4][..0] == [];
    }
    assert MergeTiles([4, 4, 8]) == [8, 8] by {
      assert [4, 4, 8][2..] == [8];
    }
  }

  /** Tiles separated by empty squares still merge. */
  lemma MergeAcrossGaps()
    ensures Merged([0, 2, 0, 2]) == [4, 0, 0, 0]
  {
    assert Compact([0, 2, 0, 2]) == [2, 2] by {
      assert [0, 2, 0, 2][..3] == [0, 2, 0];
      assert [0, 2, 0][..2] == [0, 2];
      assert [0, 2][..1] == [0];
      assert [0][..0] == [];
    }
    assert MergeTiles([2, 2]) == [4] by {
      assert [2, 2][2..] == [];
    }
  }
}
