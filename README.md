# 2048 and the Yahtzee planner, in Dafny

This project models two programs from a course on the principles of
computing and proves properties of the models.

- **2048** (`2048.py`). `merge` slides the tiles of one row or column to
  the front and combines equal neighbours. A combined tile is never
  combined again in the same move. The class `TwentyFortyEight` holds the
  grid as a list of rows. `move` reads every line of a direction from its
  first square along the direction's offset, merges it and writes it
  back. If anything changed, `new_tile` puts a 2 or a 4 on an empty
  square.
- **Yahtzee** (`Yahtzee.py`). Only discard-and-roll is allowed and only
  the upper section of the score card is scored. `gen_all_sequences`
  enumerates every roll of a number of dice. `score` takes the best
  upper-section box of a hand. `expected_value` averages the score over
  every roll of the free dice. `gen_all_holds` enumerates the sub-hands
  that can be kept. `strategy` picks a hold of greatest expected value.

Files:

- `wrappers.dfy` (`Option`) and `sums.dfy` (`Sum` of a sequence) are
  shared helpers.
- `merge.dfy` (module `LineMerge`) holds `merge`. A method follows the
  source's loops, and it is proved equal to the function `Merged`. The
  lemmas about the merge are stated on `Merged`.
- `board.dfy` (module `Game2048`) holds the class `TwentyFortyEight`. Its
  field `cells` is a `seq<seq<int>>` that each method reassigns square by
  square, as the source does. `move` is specified by the pure function
  `Slide`, which merges every line of a direction.
- `yahtzee.dfy` (module `Yahtzee`) holds the planner. Each function of the
  source is a method with the source's loops, specified by a pure function:
  - `AllSequences`, a set built up one position at a time;
  - `UpperScore`;
  - `ExpectedSpec`, a recursive enumeration of the rolls face by face;
  - `AllHolds`.

  Every place where Python raises becomes `None`:
  - `max` of an empty sequence in `score`;
  - the division by zero in `expected_value` when a die has no faces.

  `expected_value` returns an exact fraction (`real`) rather than a
  float.

The tie-break in `strategy` (the first hold in set iteration order
that strictly improves) is not determined by the code, so the model
leaves it open.

## Model

| member | source | states |
|---|---|---|
| `LineMerge.CompactTiles` | 2048.py:25-28 | The first loop keeps exactly the non-zero tiles, in their order. |
| `LineMerge.MergePairs` | 2048.py:31-44 | The index walk on two or more compacted tiles returns one pass of `MergeTiles`. An equal pair becomes its double and both tiles are skipped. The last tile is copied only if it was not used up by a pair. |
| `LineMerge.Merge` | 2048.py:21-48 | merge returns `Merged(line)`, of the same length as `line`. This covers the 0 and 1 tile branches and the zero padding. |
| `LineMerge.MergedSum` | 2048.py:21-48 | Merging keeps the sum of the line: each pair is replaced by its double. |
| `LineMerge.MergedZerosLast` | 2048.py:25-48 | A square of the merged line holds a tile exactly when it is among the first merged tiles. No tile follows an empty square. |
| `LineMerge.MergeTilesIdentity` | 2048.py:31-44 | One pass over compacted tiles leaves them unchanged if and only if no two neighbours are equal. |
| `LineMerge.MergedWithoutPairs` | 2048.py:21-48 | When no two consecutive tiles are equal, merge only slides the tiles to the front and pads with zeros. |
| `LineMerge.MergedAtMostOneTile` | 2048.py:45-48 | A line with at most one tile merges to that tile (if any) at the front, followed by zeros. |
| `LineMerge.MergeTilesIsGreedyGrouping` | 2048.py:31-44 | Each tile takes part in at most one merge. An output equals one pass if and only if some cutting of the tiles yields it. The cutting goes left to right into lone tiles and equal pairs. It is greedy: a lone tile is never followed by an equal tile. |
| `LineMerge.MergeFourEqual` | 2048.py:21-48 | [2, 2, 2, 2] merges to [4, 4, 0, 0]. |
| `LineMerge.MergeNoChain` | 2048.py:21-48 | [4, 4, 8, 0] merges to [8, 8, 0, 0]: a merged tile does not merge again. |
| `LineMerge.MergeAcrossGaps` | 2048.py:21-48 | [0, 2, 0, 2] merges to [4, 0, 0, 0]: empty squares between tiles do not stop a merge. |
| `Game2048.InitialTiles` | 2048.py:59-62 | initial_tiles of a direction lists the first square of each of its lines, one per column for up and down and one per row for left and right. |
| `Game2048.LinesPartitionGrid` | 2048.py:16-19 | Each square of a line is one offset step after the previous square. A square is on the grid exactly when its line and its position are in range. Every grid square lies on exactly one line, at exactly one position. |
| `Game2048.SlideMergesEveryLine` | 2048.py:94-108 | After a slide, every line of the direction reads as merge of the old line. |
| `Game2048.SlideUnchangedIff` | 2048.py:109-110 | The slide leaves the grid unchanged if and only if merge leaves every line unchanged. This is the condition under which `moved` stays false. |
| `Game2048.EmptySquaresMembers` | 2048.py:120-124 | new_tile's list of empty squares holds exactly the grid squares that are 0. |
| `Game2048.TwentyFortyEight.constructor` | 2048.py:55-62 | The dimensions are kept and the grid starts empty. |
| `Game2048.TwentyFortyEight.Reset` | 2048.py:64-68 | The grid becomes height rows of width zeros. |
| `Game2048.TwentyFortyEight.SetTile` | 2048.py:129-133 | Square (row, col) takes the value and every other square keeps its value. |
| `Game2048.TwentyFortyEight.GetTile` | 2048.py:135-139 | Returns the value at (row, col) and changes nothing. |
| `Game2048.TwentyFortyEight.NewTile` | 2048.py:114-127 | If the grid has an empty square, exactly one empty square becomes 2 or 4. A full grid stays as it is. The grid keeps its shape. |
| `Game2048.TwentyFortyEight.ReadLine` | 2048.py:95-101 | The loop that walks from the first square by the offset until the grid's edge reads exactly the line of that direction. |
| `Game2048.TwentyFortyEight.WriteLine` | 2048.py:103-108 | Writing the merged line back changes only the squares of that line, each to its entry of the line. |
| `Game2048.TwentyFortyEight.Move` | 2048.py:88-112 | The grid keeps its shape. If merge changes no line, the grid is unchanged. Otherwise the grid is the slid grid plus one new tile of 2 or 4 on one of its empty squares. |
| `Yahtzee.AllSequencesMembers` | Yahtzee.py:10-25 | The sequences of length n contain exactly the sequences of that length whose entries all come from the outcomes. |
| `Yahtzee.AllSequencesCount` | Yahtzee.py:10-25 | There are k^n of them, where k is the number of distinct outcomes. For n = 0 there is only the empty sequence. |
| `Yahtzee.GenAllSequences` | Yahtzee.py:10-25 | The nested loops return exactly the length-n sequences over the outcomes, and k^n of them for k distinct outcomes. |
| `Yahtzee.Score` | Yahtzee.py:28-42 | The box loops return `UpperScore(hand)`. None stands for the ValueError of an empty hand or a hand with no die of at least 1. |
| `Yahtzee.ScoreIsBestBox` | Yahtzee.py:28-42 | The score exists if and only if some die is at least 1. It is then the largest v × (number of dice showing v) over all v ≥ 1, and some v on the hand attains it. |
| `Yahtzee.BoxIsValueTimesCount` | Yahtzee.py:38-41 | The inner loop's box for v adds v once per die showing v, so it equals v × (number of dice showing v). |
| `Yahtzee.ScoreBounds` | Yahtzee.py:28-42 | For a hand of dice of at least 0, a score that exists lies between max(hand) and sum(hand). |
| `Yahtzee.ScoreAtLeastOne` | Yahtzee.py:28-42 | A score that exists is at least 1. |
| `Yahtzee.RollsCount` | Yahtzee.py:56 | The free dice have sides^free rolls; n sides means faces 1..n. |
| `Yahtzee.RollTotalIsSetTotal` | Yahtzee.py:56-59 | The face-by-face recursive total equals the score total over the set of rolls that gen_all_sequences builds. |
| `Yahtzee.ExpectedIsSetAverage` | Yahtzee.py:45-60 | The expected value is the sum of score(held + o) over all rolls o, divided by the number of rolls. It is None exactly when there is no roll or some hand cannot be scored. |
| `Yahtzee.SumScores` | Yahtzee.py:57-59 | The loop adds score(held + o) over the rolls. It returns None if one of those scores fails. |
| `Yahtzee.ExpectedValue` | Yahtzee.py:45-60 | Enumerating the rolls, summing the scores and dividing gives `ExpectedSpec`. |
| `Yahtzee.ExpectedDefined` | Yahtzee.py:45-60 | With dice of at least one side, and either a free die or a held hand that can be scored, expected_value does not fail. |
| `Yahtzee.ExpectedAtLeastOne` | Yahtzee.py:45-60 | An expected value that exists is at least 1. |
| `Yahtzee.HoldsAreSelections` | Yahtzee.py:63-80 | The holds are exactly the order-preserving selections of dice from the hand, one per mask of kept dice. |
| `Yahtzee.HoldsContainNoneAndAll` | Yahtzee.py:63-80 | Holding nothing and holding the whole hand are both holds. |
| `Yahtzee.HoldsDrawFromHand` | Yahtzee.py:63-80 | Every die of a hold is a die of the hand. |
| `Yahtzee.HoldsCount` | Yahtzee.py:63-80 | A hand of n dice has at most 2^n holds. |
| `Yahtzee.GenAllHolds` | Yahtzee.py:63-80 | The loop returns `AllHolds(hand)`: die by die, every hold so far with and without that die. |
| `Yahtzee.Strategy` | Yahtzee.py:82-99 | Fails if and only if the expected value of some hold fails. Otherwise it returns a hold of the hand with its expected value, and no hold of the hand has a greater one. |
| `Yahtzee.BestPlanFound` | Yahtzee.py:94-99 | When every hold has been tried without failure, the best value found is a real maximum. Holding nothing scores at least 1, so the starting value 0 is always beaten. |
| `Yahtzee.StrategyDefined` | Yahtzee.py:82-99 | On a non-empty hand of dice of at least 1, with dice of at least one side, every hold has an expected value, so strategy does not fail. |

## Left out

- The GUI (`poc_2048_gui`), `codeskulptor.set_timeout`, `run_example` and the test-suite hook are I/O or environment set-up.
- `__str__` only formats the grid for debugging.
- The random choices of `new_tile` are a nondeterministic choice. The square is any empty square and the value is 2 or 4. The odds of 2 over 4 (nine to one) are not modelled.
- `get_grid_height` and `get_grid_width` are the constant fields `height` and `width`.
- Directions are a datatype, not the integers 1 to 4, so the `KeyError` of an unknown direction cannot arise.
- `initial_tiles` is a function of the direction and the dimensions rather than a stored dictionary: the dictionary is never changed after `__init__`.
- Game2048.TwentyFortyEight.SetTile: requires the square to be on the grid. Python's negative indices and its `IndexError` are not modelled.
- Game2048.TwentyFortyEight.GetTile: requires the square to be on the grid, for the same reason as SetTile.
- Floating point: `expected_value` and `strategy` use exact fractions.
- Yahtzee.Strategy: the source calls `expected_value` three times for an improving hold. Those calls are pure and give the same value, so the model calls it once.
- Yahtzee.Strategy: which of several equally good holds is returned depends on set iteration order and is left open.
- Yahtzee.Strategy: if no hold beats 0, the source returns `tuple([])` (an empty tuple). No input that gets past the failure cases reaches that, since every expected value is at least 1 (`BestPlanFound`). `Plan` therefore always carries a value and a hold.
- Yahtzee.ExpectedValue: states that the result equals `ExpectedSpec`. The link to the set-average reading goes through `ExpectedIsSetAverage` rather than through a second ensures.
