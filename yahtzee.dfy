/**
 * The Yahtzee planner of Yahtzee.py: with only discard-and-roll allowed
 * and only the upper section of the score card counted, find the dice to
 * hold that give the best expected score after rerolling the others.
 */
module Yahtzee {
  import opened Wrappers
  import opened Sums

  function Pow(b: nat, e: nat): (p: nat)
    ensures b >= 1 ==> p >= 1
  {
    if e == 0 then 1 else b * Pow(b, e - 1)
  }

  // ---------------------------------------------------------------------
  // gen_all_sequences (Yahtzee.py:10-25)

  /** The distinct entries of a sequence. */
  function Elements(s: seq<int>): set<int>
  {
    set x | x in s
  }

  /** Every sequence of S extended by one more entry taken from O. */
  function Extend(S: set<seq<int>>, O: set<int>): set<seq<int>>
  {
    set s, o | s in S && o in O :: s + [o]
  }

  /** The sequences of length n over O, built one position at a time from the empty sequence. */
  function AllSequences(O: set<int>, n: nat): set<seq<int>>
  {
    if n == 0 then {[]} else Extend(AllSequences(O, n - 1), O)
  }

  /** AllSequences(O, n) holds exactly the sequences of length n whose entries all come from O. */
  lemma {:induction false} AllSequencesMembers(O: set<int>, n: nat, s: seq<int>)
    ensures s in AllSequences(O, n) <==> |s| == n && forall i :: 0 <= i < |s| ==> s[i] in O
  {
    if n > 0 {
      if s in AllSequences(O, n) {
        var p, o :| p in AllSequences(O, n - 1) && o in O && s == p + [o];
        AllSequencesMembers(O, n - 1, p);
        forall i | 0 <= i < |s| ensures s[i] in O {
          if i < |p| {
            assert s[i] == p[i];
          }
        }
      }
      if |s| == n && forall i :: 0 <= i < |s| ==> s[i] in O {
        var p := s[..n - 1];
        forall i | 0 <= i < |p| ensures p[i] in O {
          assert p[i] == s[i];
        }
        AllSequencesMembers(O, n - 1, p);
        assert s == p + [s[n - 1]];
        ExtendMember(AllSequences(O, n - 1), O, p, s[n - 1]);
      }
    } else {
      if |s| == 0 {
        assert s == [];
      }
    }
  }

  /** The sequence s0 extended by each entry of O. */
  function AppendEach(s0: seq<int>, O: set<int>): set<seq<int>>
  {
    set o | o in O :: s0 + [o]
  }

  lemma ExtendMember(S: set<seq<int>>, O: set<int>, p: seq<int>, o: int)
    requires p in S && o in O
    ensures p + [o] in Extend(S, O)
  {
  }

  lemma ExtendAdd(D: set<seq<int>>, O: set<int>, p: seq<int>)
    ensures Extend(D + {p}, O) == Extend(D, O) + AppendEach(p, O)
  {
    forall x | x in Extend(D + {p}, O) ensures x in Extend(D, O) + AppendEach(p, O) {
      var q, o :| q in D + {p} && o in O && x == q + [o];
      if q == p {
        assert x in AppendEach(p, O);
      } else {
        ExtendMember(D, O, q, o);
      }
    }
    forall x | x in Extend(D, O) + AppendEach(p, O) ensures x in Extend(D + {p}, O) {
      if x in Extend(D, O) {
        var q, o :| q in D && o in O && x == q + [o];
        ExtendMember(D + {p}, O, q, o);
      } else {
        var o :| o in O && x == p + [o];
        ExtendMember(D + {p}, O, p, o);
      }
    }
  }

  lemma AppendEachAdd(s0: seq<int>, O: set<int>, o: int)
    ensures AppendEach(s0, O + {o}) == AppendEach(s0, O) + {s0 + [o]}
  {
  }

  /** Appending one entry loses nothing: the prefix and the entry can be read back. */
  lemma AppendInjective(p: seq<int>, d: int, q: seq<int>, e: int)
    ensures p + [d] == q + [e] ==> p == q && d == e
  {
    if p + [d] == q + [e] {
      assert |p| == |q|;
      assert p == (p + [d])[..|p|];
      assert q == (q + [e])[..|q|];
      assert (p + [d])[|p|] == d;
    }
  }

  /** Appending entries of a list of outcomes one by one: as many sequences as distinct outcomes. */
  lemma {:induction false} AppendEachCount(s0: seq<int>, outcomes: seq<int>)
    ensures |AppendEach(s0, Elements(outcomes))| == |Elements(outcomes)|
  {
    if outcomes == [] {
      assert Elements(outcomes) == {};
      assert AppendEach(s0, Elements(outcomes)) == {};
    } else {
      var init, last := outcomes[..|outcomes| - 1], outcomes[|outcomes| - 1];
      AppendEachCount(s0, init);
      var E := Elements(init);
      assert Elements(outcomes) == E + {last} by {
        assert outcomes == init + [last];
      }
      AppendEachAdd(s0, E, last);
      if last !in E {
        forall o | o in E ensures s0 + [o] != s0 + [last] {
          AppendInjective(s0, o, s0, last);
        }
        assert s0 + [last] !in AppendEach(s0, E);
      } else {
        assert E + {last} == E;
      }
    }
  }

  lemma ExtendDisjoint(R: set<seq<int>>, O: set<int>, s0: seq<int>, n: nat)
    requires forall s :: s in R ==> |s| == n
    requires |s0| == n && s0 !in R
    ensures Extend(R, O) !! AppendEach(s0, O)
  {
    forall x | x in Extend(R, O) ensures x !in AppendEach(s0, O) {
      var s, o :| s in R && o in O && x == s + [o];
      forall o' | o' in O ensures x != s0 + [o'] {
        AppendInjective(s, o, s0, o');
      }
    }
  }

  lemma ExtendEmpty(O: set<int>)
    ensures Extend({}, O) == {}
  {
  }

  lemma MulSucc(a: nat, b: nat)
    ensures (a + 1) * b == a * b + b
  {
  }

  lemma ExtendCountStep(S: set<seq<int>>, outcomes: seq<int>, s0: seq<int>, n: nat)
    requires forall s :: s in S ==> |s| == n
    requires s0 in S
    ensures |Extend(S, Elements(outcomes))| == |Extend(S - {s0}, Elements(outcomes))| + |Elements(outcomes)|
  {
    var O := Elements(outcomes);
    var R := S - {s0};
    assert R + {s0} == S;
    AppendEachCount(s0, outcomes);
    ExtendAdd(R, O, s0);
    ExtendDisjoint(R, O, s0, n);
  }

  lemma {:induction false} ExtendCount(S: set<seq<int>>, outcomes: seq<int>, n: nat)
    requires forall s :: s in S ==> |s| == n
    ensures |Extend(S, Elements(outcomes))| == |S| * |Elements(outcomes)|
    decreases S
  {
    if S == {} {
      ExtendEmpty(Elements(outcomes));
    } else {
      var s0 :| s0 in S;
      var R := S - {s0};
      ExtendCount(R, outcomes, n);
      ExtendCountStep(S, outcomes, s0, n);
      MulSucc(|R|, |Elements(outcomes)|);
    }
  }

  /**
   * Over the distinct outcomes O of a list, there are |O|^n sequences of
   * length n; for n = 0 just the empty one.
   */
  lemma {:induction false} AllSequencesCount(outcomes: seq<int>, n: nat)
    ensures |AllSequences(Elements(outcomes), n)| == Pow(|Elements(outcomes)|, n)
  {
    var O := Elements(outcomes);
    if n > 0 {
      AllSequencesCount(outcomes, n - 1);
      forall s | s in AllSequences(O, n - 1) ensures |s| == n - 1 {
        AllSequencesMembers(O, n - 1, s);
      }
      ExtendCount(AllSequences(O, n - 1), outcomes, n - 1);
    }
  }

  /**
   * gen_all_sequences (Yahtzee.py:10-25): start from the set holding the
   * empty sequence and, `length` times, extend every sequence of the set
   * by every outcome.
   */
  method GenAllSequences(outcomes: seq<int>, length: nat) returns (answer: set<seq<int>>)
    ensures answer == AllSequences(Elements(outcomes), length)
    ensures forall s :: s in answer <==> |s| == length && forall i :: 0 <= i < |s| ==> s[i] in outcomes
    ensures |answer| == Pow(|Elements(outcomes)|, length)
  {
    ghost var O := Elements(outcomes);
    answer := {[]};
    for idx := 0 to length
      invariant answer == AllSequences(O, idx)
    {
      var temp := {};
      var rest := answer;
      while rest != {}
        invariant rest <= answer
        invariant temp == Extend(answer - rest, O)
        decreases rest
      {
        var partial :| partial in rest;
        ghost var done := answer - rest;
        for j := 0 to |outcomes|
          invariant temp == Extend(done, O) + AppendEach(partial, Elements(outcomes[..j]))
        {
          assert Elements(outcomes[..j + 1]) == Elements(outcomes[..j]) + {outcomes[j]} by {
            assert outcomes[..j + 1] == outcomes[..j] + [outcomes[j]];
          }
          AppendEachAdd(partial, Elements(outcomes[..j]), outcomes[j]);
          temp := temp + {partial + [outcomes[j]]};
        }
        assert outcomes[..|outcomes|] == outcomes;
        ExtendAdd(done, O, partial);
        rest := rest - {partial};
        assert answer - rest == done + {partial};
      }
      assert answer - rest == answer;
      answer := temp;
    }
    forall s ensures s in answer <==> |s| == length && forall i :: 0 <= i < |s| ==> s[i] in outcomes {
      AllSequencesMembers(O, length, s);
    }
    AllSequencesCount(outcomes, length);
  }

  // ---------------------------------------------------------------------
  // score (Yahtzee.py:28-42)

  /** How many dice of the hand show v. */
  function Count(hand: seq<int>, v: int): nat
  {
    if hand == [] then 0
    else Count(hand[..|hand| - 1], v) + (if hand[|hand| - 1] == v then 1 else 0)
  }

  /** The largest entry of a non-empty sequence (Python's max). */
  function MaxOf(s: seq<int>): (m: int)
    requires |s| > 0
    ensures m in s
    ensures forall i :: 0 <= i < |s| ==> s[i] <= m
  {
    if |s| == 1 then s[0]
    else
      var prev := MaxOf(s[..|s| - 1]);
      assert forall i :: 0 <= i < |s| - 1 ==> s[i] == s[..|s| - 1][i];
      if s[|s| - 1] > prev then s[|s| - 1] else prev
  }

  /**
   * What the upper section scores for value v: v added for every die
   * showing v, as score's inner loop does (equal to v * Count(hand, v),
   * see BoxIsValueTimesCount).
   */
  function BoxValue(hand: seq<int>, v: int): (b: int)
    ensures v >= 0 ==> b >= 0
  {
    if hand == [] then 0
    else BoxValue(hand[..|hand| - 1], v) + (if hand[|hand| - 1] == v then v else 0)
  }

  /** Box v - 1 holds the upper-section score for v. */
  function Boxes(hand: seq<int>, top: nat): (boxes: seq<int>)
    ensures |boxes| == top
    ensures forall k :: 0 <= k < top ==> boxes[k] == BoxValue(hand, k + 1)
    decreases top
  {
    if top == 0 then [] else Boxes(hand, top - 1) + [BoxValue(hand, top)]
  }

  /**
   * The upper-section score of a hand, or None where score raises: an
   * empty hand (max of an empty sequence), or a hand with no die of at
   * least 1 (no boxes, so max of an empty list).
   */
  function UpperScore(hand: seq<int>): Option<int>
  {
    if |hand| == 0 || MaxOf(hand) < 1 then None
    else Some(MaxOf(Boxes(hand, MaxOf(hand))))
  }

  /** score (Yahtzee.py:28-42): add each die to the box of its value, then take the largest box. */
  method Score(hand: seq<int>) returns (r: Option<int>)
    ensures r == UpperScore(hand)
  {
    if |hand| == 0 {
      return None;
    }
    var top := MaxOf(hand);
    if top < 1 {
      return None;
    }
    var scores := seq(top, _ => 0);
    for num := 1 to top + 1
      invariant |scores| == top
      invariant forall k :: 0 <= k < num - 1 ==> scores[k] == BoxValue(hand, k + 1)
      invariant forall k :: num - 1 <= k < top ==> scores[k] == 0
    {
      for j := 0 to |hand|
        invariant |scores| == top
        invariant forall k :: 0 <= k < num - 1 ==> scores[k] == BoxValue(hand, k + 1)
        invariant scores[num - 1] == BoxValue(hand[..j], num)
        invariant forall k :: num - 1 < k < top ==> scores[k] == 0
      {
        assert hand[..j + 1][..j] == hand[..j];
        if hand[j] == num {
          scores := scores[num - 1 := scores[num - 1] + num];
        }
      }
      assert hand[..|hand|] == hand;
    }
    assert scores == Boxes(hand, top);
    r := Some(MaxOf(scores));
  }

  /** A box is v times the number of dice showing v. */
  lemma {:induction false} BoxIsValueTimesCount(hand: seq<int>, v: int)
    ensures BoxValue(hand, v) == v * Count(hand, v)
  {
    if hand != [] {
      var init := hand[..|hand| - 1];
      BoxIsValueTimesCount(init, v);
      var c := Count(init, v);
      if hand[|hand| - 1] == v {
        assert v * (c + 1) == v * c + v;
      }
    }
  }

  /** The box of a value above every die is empty. */
  lemma {:induction false} BoxAbove(hand: seq<int>, v: int)
    requires forall i :: 0 <= i < |hand| ==> hand[i] < v
    ensures BoxValue(hand, v) == 0
  {
    if hand != [] {
      BoxAbove(hand[..|hand| - 1], v);
    }
  }

  /** A value of at least 1 shown by some die scores at least that value. */
  lemma {:induction false} BoxOfMember(hand: seq<int>, v: int)
    requires v in hand && v >= 1
    ensures BoxValue(hand, v) >= v
  {
    if hand[|hand| - 1] != v {
      assert v in hand[..|hand| - 1] by {
        var i :| 0 <= i < |hand| && hand[i] == v;
        assert hand[..|hand| - 1][i] == v;
      }
      BoxOfMember(hand[..|hand| - 1], v);
    }
  }

  /** The box of a value no die shows is empty. */
  lemma {:induction false} BoxOfAbsent(hand: seq<int>, v: int)
    requires v !in hand
    ensures BoxValue(hand, v) == 0
  {
    if hand != [] {
      assert v !in hand[..|hand| - 1];
      BoxOfAbsent(hand[..|hand| - 1], v);
    }
  }

  /** No box of a value of at least 1 is larger than the largest of the boxes 1..MaxOf(hand). */
  lemma BoxesBound(hand: seq<int>)
    requires |hand| > 0 && MaxOf(hand) >= 1
    ensures forall v :: v >= 1 ==> BoxValue(hand, v) <= MaxOf(Boxes(hand, MaxOf(hand)))
  {
    var top := MaxOf(hand);
    var boxes := Boxes(hand, top);
    forall v | v >= 1 ensures BoxValue(hand, v) <= MaxOf(boxes) {
      if v > top {
        BoxAbove(hand, v);
      } else {
        assert boxes[v - 1] == BoxValue(hand, v);
      }
    }
  }

  /** The largest of the boxes 1..MaxOf(hand) belongs to a value shown by some die. */
  lemma BoxesAttained(hand: seq<int>)
    requires |hand| > 0 && MaxOf(hand) >= 1
    ensures exists v :: v in hand && v >= 1 && MaxOf(Boxes(hand, MaxOf(hand))) == BoxValue(hand, v)
  {
    var top := MaxOf(hand);
    var boxes := Boxes(hand, top);
    var s := MaxOf(boxes);
    var k :| 0 <= k < top && boxes[k] == s;
    assert s == BoxValue(hand, k + 1);
    BoxOfMember(hand, top);
    assert 1 <= boxes[top - 1] <= s;
    if k + 1 !in hand {
      BoxOfAbsent(hand, k + 1);
      assert false;
    }
  }

  /**
   * score returns a value exactly when the hand holds a die of at least 1,
   * and that value is the best box: the largest v * (the number of dice
   * showing v) over all values v >= 1, attained by a value on the hand.
   */
  lemma ScoreIsBestBox(hand: seq<int>)
    ensures UpperScore(hand).Some? <==> exists i :: 0 <= i < |hand| && hand[i] >= 1
    ensures UpperScore(hand).Some? ==>
              (forall v :: v >= 1 ==> BoxValue(hand, v) <= UpperScore(hand).value) &&
              exists v :: v in hand && v >= 1 && UpperScore(hand).value == BoxValue(hand, v)
  {
    if |hand| > 0 && MaxOf(hand) >= 1 {
      BoxesBound(hand);
      BoxesAttained(hand);
    }
  }

  lemma {:induction false} BoxAtMostSum(hand: seq<int>, v: int)
    requires v >= 1 && forall i :: 0 <= i < |hand| ==> hand[i] >= 0
    ensures BoxValue(hand, v) <= Sum(hand)
  {
    if hand != [] {
      var init, last := hand[..|hand| - 1], hand[|hand| - 1];
      assert hand == init + [last];
      assert forall i :: 0 <= i < |init| ==> init[i] == hand[i];
      BoxAtMostSum(init, v);
      SumConcat(init, [last]);
      assert Sum([last]) == last;
    }
  }

  /** For a hand of dice of at least 0, a score that exists lies between the largest die and the sum of the dice. */
  lemma ScoreBounds(hand: seq<int>)
    requires forall i :: 0 <= i < |hand| ==> hand[i] >= 0
    ensures UpperScore(hand).Some? ==> MaxOf(hand) <= UpperScore(hand).value <= Sum(hand)
  {
    if UpperScore(hand).Some? {
      ScoreIsBestBox(hand);
      var top := MaxOf(hand);
      BoxOfMember(hand, top);
      var v :| v in hand && v >= 1 && UpperScore(hand).value == BoxValue(hand, v);
      BoxAtMostSum(hand, v);
    }
  }

  /** A hand with a die of at least 1 scores at least 1. */
  lemma ScoreAtLeastOne(hand: seq<int>)
    requires UpperScore(hand).Some?
    ensures UpperScore(hand).value >= 1
  {
    var top := MaxOf(hand);
    BoxOfMember(hand, top);
    assert Boxes(hand, top)[top - 1] >= 1;
  }

  // ---------------------------------------------------------------------
  // expected_value (Yahtzee.py:45-60)

  /** The number of faces of a die with `sides` sides: xrange(1, sides + 1) is empty below 1. */
  function NumFaces(sides: int): nat
  {
    if sides > 0 then sides else 0
  }

  /** xrange(1, sides + 1): the faces of one die. */
  function DieFaces(sides: int): (faces: seq<int>)
    ensures |faces| == NumFaces(sides)
    ensures forall i :: 0 <= i < |faces| ==> faces[i] == i + 1
  {
    seq(NumFaces(sides), i => i + 1)
  }

  lemma DieFacesMembers(sides: int, x: int)
    ensures x in Elements(DieFaces(sides)) <==> 1 <= x <= sides
  {
    var faces := DieFaces(sides);
    if 1 <= x <= sides {
      assert faces[x - 1] == x;
    }
  }

  lemma {:induction false} DieFacesCount(sides: int)
    ensures |Elements(DieFaces(sides))| == NumFaces(sides)
    decreases NumFaces(sides)
  {
    if sides > 0 {
      DieFacesCount(sides - 1);
      assert Elements(DieFaces(sides)) == Elements(DieFaces(sides - 1)) + {sides} by {
        assert DieFaces(sides) == DieFaces(sides - 1) + [sides];
      }
    } else {
      assert Elements(DieFaces(sides)) == {};
    }
  }

  /** The possible rolls of `free` dice with `sides` sides each, as gen_all_sequences builds them. */
  ghost function Rolls(sides: int, free: nat): set<seq<int>>
  {
    AllSequences(Elements(DieFaces(sides)), free)
  }

  /** A roll of `free` dice shows `free` faces, each between 1 and sides. */
  ghost predicate IsRoll(sides: int, free: nat, o: seq<int>)
  {
    |o| == free && forall i :: 0 <= i < |o| ==> 1 <= o[i] <= sides
  }

  lemma RollsMembers(sides: int, free: nat, o: seq<int>)
    ensures o in Rolls(sides, free) <==> IsRoll(sides, free, o)
  {
    AllSequencesMembers(Elements(DieFaces(sides)), free, o);
    forall i | 0 <= i < |o| ensures o[i] in Elements(DieFaces(sides)) <==> 1 <= o[i] <= sides {
      DieFacesMembers(sides, o[i]);
    }
  }

  /** There are sides^free rolls (none at all when a die has no faces and some die is free). */
  lemma RollsCount(sides: int, free: nat)
    ensures |Rolls(sides, free)| == Pow(NumFaces(sides), free)
  {
    DieFacesCount(sides);
    AllSequencesCount(DieFaces(sides), free);
  }

  /** Sums two totals; a total that raised makes the sum raise. */
  function AddTotals(a: Option<int>, b: Option<int>): Option<int>
  {
    if a.Some? && b.Some? then Some(a.value + b.value) else None
  }

  /**
   * The total score of held + o over every roll o of `free` dice, or None
   * if one of those hands cannot be scored: the first free die shows each
   * face in turn, and the remaining dice are rolled after it.
   */
  function RollTotal(held: seq<int>, sides: int, free: nat): Option<int>
    decreases free, 1, 0
  {
    if free == 0 then UpperScore(held) else FaceTotal(held, sides, free, NumFaces(sides))
  }

  /** RollTotal restricted to the rolls whose first die shows a face of at most k. */
  function FaceTotal(held: seq<int>, sides: int, free: nat, k: nat): Option<int>
    requires free > 0
    decreases free, 0, k
  {
    if k == 0 then Some(0)
    else AddTotals(FaceTotal(held, sides, free, k - 1), RollTotal(held + [k], sides, free - 1))
  }

  /**
   * What expected_value returns: the total score over all rolls of the
   * free dice divided by the number sides^free of rolls, or None where
   * expected_value raises (a score raises, or there is no roll to divide by).
   */
  function ExpectedSpec(held: seq<int>, sides: int, free: nat): Option<real>
  {
    var total := RollTotal(held, sides, free);
    var count := Pow(NumFaces(sides), free);
    if total.None? || count == 0 then None else Some(total.value as real / count as real)
  }

  /** The score of a hand, counted as 0 where score raises. */
  function ScoreOrZero(hand: seq<int>): int
  {
    match UpperScore(hand)
    case Some(s) => s
    case None => 0
  }

  /** The total score of held + o over the rolls o, in whatever order they are taken. */
  ghost function ScoreSum(held: seq<int>, rolls: set<seq<int>>): int
    decreases rolls
  {
    if rolls == {} then 0
    else
      var o :| o in rolls;
      ScoreOrZero(held + o) + ScoreSum(held, rolls - {o})
  }

  lemma ScoreSumRemove(held: seq<int>, rolls: set<seq<int>>, o: seq<int>)
    requires o in rolls
    ensures ScoreSum(held, rolls) == ScoreOrZero(held + o) + ScoreSum(held, rolls - {o})
    decreases rolls
  {
    var y :| y in rolls && ScoreSum(held, rolls) == ScoreOrZero(held + y) + ScoreSum(held, rolls - {y});
    if y != o {
      ScoreSumRemove(held, rolls - {y}, o);
      ScoreSumRemove(held, rolls - {o}, y);
      assert rolls - {y} - {o} == rolls - {o} - {y};
    }
  }

  /** Every hand held + o, for o among the rolls, can be scored. */
  ghost predicate AllScored(held: seq<int>, rolls: set<seq<int>>)
  {
    forall o :: o in rolls ==> UpperScore(held + o).Some?
  }

  /** The total score of held + o over a set of rolls, or None if one of those hands cannot be scored. */
  ghost function SetTotal(held: seq<int>, rolls: set<seq<int>>): Option<int>
  {
    if AllScored(held, rolls) then Some(ScoreSum(held, rolls)) else None
  }

  /** The average score of held + o over a set of rolls, as expected_value's loop and division compute it. */
  ghost function SetAverage(held: seq<int>, rolls: set<seq<int>>): Option<real>
  {
    if rolls == {} || !AllScored(held, rolls) then None
    else Some(ScoreSum(held, rolls) as real / |rolls| as real)
  }

  lemma {:induction false} ScoreSumUnion(held: seq<int>, A: set<seq<int>>, B: set<seq<int>>)
    requires A !! B
    ensures ScoreSum(held, A + B) == ScoreSum(held, A) + ScoreSum(held, B)
    decreases B
  {
    if B == {} {
      assert A + B == A;
    } else {
      var b :| b in B;
      ScoreSumRemove(held, A + B, b);
      assert (A + B) - {b} == A + (B - {b});
      ScoreSumUnion(held, A, B - {b});
      ScoreSumRemove(held, B, b);
    }
  }

  lemma AllScoredUnion(held: seq<int>, A: set<seq<int>>, B: set<seq<int>>)
    ensures AllScored(held, A + B) <==> AllScored(held, A) && AllScored(held, B)
  {
  }

  lemma SetTotalUnion(held: seq<int>, A: set<seq<int>>, B: set<seq<int>>, C: set<seq<int>>)
    requires A !! B && C == A + B
    ensures SetTotal(held, C) == AddTotals(SetTotal(held, A), SetTotal(held, B))
  {
    AllScoredUnion(held, A, B);
    if AllScored(held, A) && AllScored(held, B) {
      ScoreSumUnion(held, A, B);
      assert SetTotal(held, A + B) == Some(ScoreSum(held, A + B));
    } else {
      assert SetTotal(held, A + B) == None;
    }
  }

  /** Every sequence of S with k put in front. */
  function Prepend(k: int, S: set<seq<int>>): set<seq<int>>
  {
    set s | s in S :: [k] + s
  }

  lemma {:induction false} ScoreSumPrepend(held: seq<int>, k: int, S: set<seq<int>>)
    ensures ScoreSum(held, Prepend(k, S)) == ScoreSum(held + [k], S)
    decreases S
  {
    if S == {} {
      assert Prepend(k, S) == {};
    } else {
      var s :| s in S;
      var R := S - {s};
      assert Prepend(k, S) - {[k] + s} == Prepend(k, R) by {
        forall t | t in R ensures [k] + t != [k] + s {
          assert ([k] + t)[1..] == t && ([k] + s)[1..] == s;
        }
      }
      ScoreSumRemove(held, Prepend(k, S), [k] + s);
      ScoreSumPrepend(held, k, R);
      ScoreSumRemove(held + [k], S, s);
      assert held + ([k] + s) == held + [k] + s;
    }
  }

  lemma AllScoredPrepend(held: seq<int>, k: int, S: set<seq<int>>)
    ensures AllScored(held, Prepend(k, S)) <==> AllScored(held + [k], S)
  {
    forall s | s in S ensures held + ([k] + s) == held + [k] + s {
    }
  }

  lemma SetTotalPrepend(held: seq<int>, k: int, S: set<seq<int>>)
    ensures SetTotal(held, Prepend(k, S)) == SetTotal(held + [k], S)
  {
    ScoreSumPrepend(held, k, S);
    AllScoredPrepend(held, k, S);
  }

  /** The rolls of `free` > 0 dice whose first die shows a face of at most k. */
  ghost function FirstAtMost(sides: int, free: nat, k: int): set<seq<int>>
  {
    set o | o in Rolls(sides, free) && |o| > 0 && o[0] <= k
  }

  lemma FirstAtMostStep(sides: int, free: nat, k: int)
    requires free > 0 && 1 <= k <= sides
    ensures FirstAtMost(sides, free, k) == FirstAtMost(sides, free, k - 1) + Prepend(k, Rolls(sides, free - 1))
    ensures FirstAtMost(sides, free, k - 1) !! Prepend(k, Rolls(sides, free - 1))
  {
    var P := Prepend(k, Rolls(sides, free - 1));
    forall o ensures o in FirstAtMost(sides, free, k) <==> o in FirstAtMost(sides, free, k - 1) || o in P {
      RollsMembers(sides, free, o);
      if |o| > 0 {
        RollsMembers(sides, free - 1, o[1..]);
        assert o == [o[0]] + o[1..];
      }
    }
    forall o | o in P ensures o[0] == k {
    }
  }

  lemma FirstAtMostEnds(sides: int, free: nat)
    requires free > 0
    ensures FirstAtMost(sides, free, 0) == {}
    ensures FirstAtMost(sides, free, NumFaces(sides)) == Rolls(sides, free)
  {
    forall o | o in Rolls(sides, free) ensures |o| > 0 && 1 <= o[0] <= NumFaces(sides) {
      RollsMembers(sides, free, o);
    }
  }

  lemma {:induction false} FaceTotalIsSetTotal(held: seq<int>, sides: int, free: nat, k: nat)
    requires free > 0 && k <= NumFaces(sides)
    ensures FaceTotal(held, sides, free, k) == SetTotal(held, FirstAtMost(sides, free, k))
    decreases free, 0, k, 1
  {
    if k == 0 {
      FirstAtMostEnds(sides, free);
      assert SetTotal(held, {}) == Some(0) by {
        assert AllScored(held, {});
      }
      assert FaceTotal(held, sides, free, k) == SetTotal(held, FirstAtMost(sides, free, k));
    } else {
      FaceTotalIsSetTotal(held, sides, free, k - 1);
      FaceTotalStep(held, sides, free, k);
      assert FaceTotal(held, sides, free, k) == AddTotals(FaceTotal(held, sides, free, k - 1), RollTotal(held + [k], sides, free - 1));
    }
  }

  /** Adding the rolls whose first die shows k to those whose first die shows less. */
  lemma {:induction false} FaceTotalStep(held: seq<int>, sides: int, free: nat, k: nat)
    requires free > 0 && 1 <= k <= NumFaces(sides)
    ensures AddTotals(SetTotal(held, FirstAtMost(sides, free, k - 1)), RollTotal(held + [k], sides, free - 1))
            == SetTotal(held, FirstAtMost(sides, free, k))
    decreases free, 0, k, 0
  {
    RollTotalIsSetTotal(held + [k], sides, free - 1);
    SetTotalPrepend(held, k, Rolls(sides, free - 1));
    FirstAtMostStep(sides, free, k);
    SetTotalUnion(held, FirstAtMost(sides, free, k - 1), Prepend(k, Rolls(sides, free - 1)), FirstAtMost(sides, free, k));
  }

  /** The recursive total over all rolls is the total over the set of rolls gen_all_sequences enumerates. */
  lemma {:induction false} RollTotalIsSetTotal(held: seq<int>, sides: int, free: nat)
    ensures RollTotal(held, sides, free) == SetTotal(held, Rolls(sides, free))
    decreases free, 1, 0
  {
    if free == 0 {
      var none: seq<int> := [];
      assert Rolls(sides, free) == {none};
      ScoreSumRemove(held, {none}, none);
      assert {none} - {none} == {};
      assert held + none == held;
    } else {
      FaceTotalIsSetTotal(held, sides, free, NumFaces(sides));
      FirstAtMostEnds(sides, free);
    }
  }

  /**
   * expected_value's answer is the average score of held + o over the set
   * of all rolls o of the free dice, and None exactly when that set is
   * empty or one of its hands cannot be scored.
   */
  lemma ExpectedIsSetAverage(held: seq<int>, sides: int, free: nat)
    ensures ExpectedSpec(held, sides, free) == SetAverage(held, Rolls(sides, free))
  {
    RollTotalIsSetTotal(held, sides, free);
    RollsCount(sides, free);
  }

  /**
   * The loop of expected_value: the total score of held + o over the
   * rolls o, or None as soon as one of those hands cannot be scored.
   */
  method SumScores(held: seq<int>, rolls: set<seq<int>>) returns (r: Option<int>)
    ensures r == SetTotal(held, rolls)
  {
    var scoreSum := 0;
    var rest := rolls;
    ghost var done := {};
    while rest != {}
      invariant done + rest == rolls && done !! rest
      invariant scoreSum == ScoreSum(held, done)
      invariant AllScored(held, done)
      decreases rest
    {
      var outcome :| outcome in rest;
      var s := Score(held + outcome);
      if s.None? {
        return None;
      }
      ScoreSumRemove(held, done + {outcome}, outcome);
      assert done + {outcome} - {outcome} == done;
      scoreSum := scoreSum + s.value;
      rest := rest - {outcome};
      done := done + {outcome};
    }
    assert done == rolls;
    r := Some(scoreSum);
  }

  /**
   * expected_value (Yahtzee.py:45-60): enumerate the rolls of the free
   * dice, add up the score of each held + roll, divide by the number of
   * rolls. The value is an exact fraction.
   */
  method ExpectedValue(heldDice: seq<int>, numDieSides: int, numFreeDice: nat) returns (r: Option<real>)
    ensures r == ExpectedSpec(heldDice, numDieSides, numFreeDice)
  {
    var outcomes := GenAllSequences(DieFaces(numDieSides), numFreeDice);
    assert outcomes == Rolls(numDieSides, numFreeDice);
    var scoreSum := SumScores(heldDice, outcomes);
    ExpectedIsSetAverage(heldDice, numDieSides, numFreeDice);
    if scoreSum.None? || |outcomes| == 0 {
      return None;
    }
    r := Some(scoreSum.value as real / |outcomes| as real);
  }

  /**
   * With dice of at least one side, and either a free die or a held hand
   * that can be scored, expected_value does not raise.
   */
  lemma ExpectedDefined(held: seq<int>, sides: int, free: nat)
    requires sides >= 1
    requires free >= 1 || UpperScore(held).Some?
    ensures ExpectedSpec(held, sides, free).Some?
  {
    ExpectedIsSetAverage(held, sides, free);
    RollsCount(sides, free);
    forall o | o in Rolls(sides, free) ensures UpperScore(held + o).Some? {
      RollsMembers(sides, free, o);
      ScoreIsBestBox(held + o);
      if free >= 1 {
        assert (held + o)[|held|] == o[0] >= 1;
      } else {
        assert held + o == held;
        ScoreIsBestBox(held);
        var i :| 0 <= i < |held| && held[i] >= 1;
        assert (held + o)[i] == held[i];
      }
    }
  }

  lemma ScoreSumAtLeast(held: seq<int>, rolls: set<seq<int>>)
    requires AllScored(held, rolls)
    ensures ScoreSum(held, rolls) >= |rolls|
    decreases rolls
  {
    if rolls != {} {
      var o :| o in rolls;
      ScoreSumRemove(held, rolls, o);
      ScoreSumAtLeast(held, rolls - {o});
      ScoreAtLeastOne(held + o);
    }
  }

  /** Whenever expected_value returns, its value is at least 1: every scored hand scores at least 1. */
  lemma ExpectedAtLeastOne(held: seq<int>, sides: int, free: nat)
    requires ExpectedSpec(held, sides, free).Some?
    ensures ExpectedSpec(held, sides, free).value >= 1.0
  {
    ExpectedIsSetAverage(held, sides, free);
    var rolls := Rolls(sides, free);
    assert rolls != {} && AllScored(held, rolls);
    ScoreSumAtLeast(held, rolls);
    DivAtLeastOne(ScoreSum(held, rolls) as real, |rolls| as real);
  }

  lemma DivAtLeastOne(t: real, n: real)
    requires n > 0.0 && t >= n
    ensures t / n >= 1.0
  {
    assert (t / n) * n == t;
  }

  // ---------------------------------------------------------------------
  // gen_all_holds (Yahtzee.py:63-80)

  /** Every sequence of S with d appended. */
  function AppendToEach(S: set<seq<int>>, d: int): set<seq<int>>
  {
    set p | p in S :: p + [d]
  }

  /** The holds of a hand: for each die in turn, every hold so far, with and without that die. */
  function AllHolds(hand: seq<int>): (holds: set<seq<int>>)
    ensures forall p :: p in holds ==> |p| <= |hand|
    decreases |hand|
  {
    if hand == [] then {[]}
    else
      var prev := AllHolds(hand[..|hand| - 1]);
      prev + AppendToEach(prev, hand[|hand| - 1])
  }

  /** The dice of `hand` whose entry in `mask` is true, in the hand's order. */
  function Select(hand: seq<int>, mask: seq<bool>): seq<int>
    requires |mask| == |hand|
  {
    if hand == [] then []
    else Select(hand[..|hand| - 1], mask[..|mask| - 1]) + (if mask[|mask| - 1] then [hand[|hand| - 1]] else [])
  }

  /** Every selection of dice from the hand, order kept, is a hold. */
  lemma {:induction false} SelectionIsHold(hand: seq<int>, mask: seq<bool>)
    requires |mask| == |hand|
    ensures Select(hand, mask) in AllHolds(hand)
    decreases |hand|
  {
    if hand != [] {
      var init, last := hand[..|hand| - 1], hand[|hand| - 1];
      var m := mask[..|mask| - 1];
      SelectionIsHold(init, m);
      var q := Select(init, m);
      if mask[|mask| - 1] {
        assert Select(hand, mask) == q + [last];
        assert q + [last] in AppendToEach(AllHolds(init), last);
      } else {
        assert Select(hand, mask) == q;
      }
    }
  }

  /** Every hold is a selection of dice from the hand, order kept: here is its mask. */
  lemma {:induction false} HoldMask(hand: seq<int>, p: seq<int>) returns (mask: seq<bool>)
    requires p in AllHolds(hand)
    ensures |mask| == |hand| && p == Select(hand, mask)
    decreases |hand|
  {
    if hand == [] {
      mask := [];
    } else {
      var init, last := hand[..|hand| - 1], hand[|hand| - 1];
      var prev := AllHolds(init);
      var q, b;
      if p in prev {
        q, b := p, false;
      } else {
        q :| q in prev && p == q + [last];
        b := true;
      }
      var m := HoldMask(init, q);
      mask := m + [b];
      assert mask[..|mask| - 1] == m;
    }
  }

  /** The holds of a hand are exactly its order-preserving sub-selections. */
  lemma HoldsAreSelections(hand: seq<int>, p: seq<int>)
    ensures p in AllHolds(hand) <==> exists mask :: |mask| == |hand| && p == Select(hand, mask)
  {
    if p in AllHolds(hand) {
      var mask := HoldMask(hand, p);
    }
    if exists mask :: |mask| == |hand| && p == Select(hand, mask) {
      var mask :| |mask| == |hand| && p == Select(hand, mask);
      SelectionIsHold(hand, mask);
    }
  }

  /** Holding nothing and holding the whole hand are both among the holds. */
  lemma {:induction false} HoldsContainNoneAndAll(hand: seq<int>)
    ensures [] in AllHolds(hand) && hand in AllHolds(hand)
    decreases |hand|
  {
    if hand != [] {
      var init := hand[..|hand| - 1];
      HoldsContainNoneAndAll(init);
      assert hand == init + [hand[|hand| - 1]];
    }
  }

  /** Every die of a hold is a die of the hand. */
  lemma {:induction false} HoldsDrawFromHand(hand: seq<int>, p: seq<int>)
    requires p in AllHolds(hand)
    ensures forall i :: 0 <= i < |p| ==> p[i] in hand
    decreases |hand|
  {
    if hand != [] {
      var init, last := hand[..|hand| - 1], hand[|hand| - 1];
      if p in AllHolds(init) {
        HoldsDrawFromHand(init, p);
      } else {
        var q :| q in AllHolds(init) && p == q + [last];
        HoldsDrawFromHand(init, q);
        forall i | 0 <= i < |p| ensures p[i] in hand {
          if i < |q| {
            assert p[i] == q[i];
          }
        }
      }
      forall x | x in init ensures x in hand {
      }
    }
  }

  lemma {:induction false} AppendToEachCount(S: set<seq<int>>, d: int)
    ensures |AppendToEach(S, d)| == |S|
    decreases S
  {
    if S != {} {
      var p0 :| p0 in S;
      var R := S - {p0};
      AppendToEachCount(R, d);
      assert AppendToEach(S, d) == AppendToEach(R, d) + {p0 + [d]};
      forall p | p in R ensures p + [d] != p0 + [d] {
        AppendInjective(p, d, p0, d);
      }
    } else {
      assert AppendToEach(S, d) == {};
    }
  }

  /** A hand of n dice has at most 2^n holds. */
  lemma {:induction false} HoldsCount(hand: seq<int>)
    ensures |AllHolds(hand)| <= Pow(2, |hand|)
    decreases |hand|
  {
    if hand != [] {
      var init := hand[..|hand| - 1];
      HoldsCount(init);
      AppendToEachCount(AllHolds(init), hand[|hand| - 1]);
    }
  }

  /**
   * gen_all_holds (Yahtzee.py:63-80): start from the set holding the empty
   * hold and, die by die, keep every hold both without and with that die.
   */
  /** Appending a die to each of one more hold adds just that hold extended. */
  lemma AppendToEachAdd(S: set<seq<int>>, p: seq<int>, d: int)
    ensures AppendToEach(S + {p}, d) == AppendToEach(S, d) + {p + [d]}
  {
  }

  /** The holds of one more die are the previous holds, with and without it. */
  lemma HoldsStep(hand: seq<int>, i: nat)
    requires i < |hand|
    ensures AllHolds(hand[..i + 1]) == AllHolds(hand[..i]) + AppendToEach(AllHolds(hand[..i]), hand[i])
  {
    assert hand[..i + 1][..i] == hand[..i];
  }

  method GenAllHolds(hand: seq<int>) returns (holds: set<seq<int>>)
    ensures holds == AllHolds(hand)
  {
    holds := {[]};
    for i := 0 to |hand|
      invariant holds == AllHolds(hand[..i])
    {
      var die := hand[i];
      var temp := {};
      var rest := holds;
      while rest != {}
        invariant rest <= holds
        invariant temp == (holds - rest) + AppendToEach(holds - rest, die)
        decreases rest
      {
        var partialHold :| partialHold in rest;
        ghost var done := holds - rest;
        temp := temp + {partialHold};
        temp := temp + {partialHold + [die]};
        rest := rest - {partialHold};
        assert holds - rest == done + {partialHold};
        AppendToEachAdd(done, partialHold, die);
      }
      HoldsStep(hand, i);
      holds := temp;
    }
    assert hand[..|hand|] == hand;
  }

  // ---------------------------------------------------------------------
  // strategy (Yahtzee.py:82-99)

  /** What strategy returns: the expected score and the dice to hold. */
  datatype Plan = Plan(value: real, hold: seq<int>)

  /** The expected score of keeping `hold` and rerolling the rest of the hand. */
  ghost function HoldValue(hand: seq<int>, sides: int, hold: seq<int>): Option<real>
    requires |hold| <= |hand|
  {
    ExpectedSpec(hold, sides, |hand| - |hold|)
  }

  /** Every hold in S has an expected score, and none exceeds v. */
  ghost predicate NoBetterHold(hand: seq<int>, sides: int, S: set<seq<int>>, v: real)
  {
    forall h :: h in S ==>
      |h| <= |hand| && HoldValue(hand, sides, h).Some? && HoldValue(hand, sides, h).value <= v
  }

  /** p names a hold of the hand and its expected score, and no hold of the hand does better. */
  ghost predicate IsBestPlan(hand: seq<int>, sides: int, p: Plan)
  {
    p.hold in AllHolds(hand) && HoldValue(hand, sides, p.hold) == Some(p.value) &&
    NoBetterHold(hand, sides, AllHolds(hand), p.value)
  }

  lemma NoBetterHoldAdd(hand: seq<int>, sides: int, S: set<seq<int>>, v: real, w: real, h: seq<int>)
    requires NoBetterHold(hand, sides, S, v) && v <= w
    requires |h| <= |hand| && HoldValue(hand, sides, h).Some? && HoldValue(hand, sides, h).value <= w
    ensures NoBetterHold(hand, sides, S + {h}, w)
  {
  }

  /**
   * strategy (Yahtzee.py:82-99): go through all holds, keeping the first
   * one whose expected value beats the best so far (which starts at 0).
   * It fails exactly when the expected value of some hold fails; otherwise
   * it returns a hold of greatest expected value with that value. Which
   * hold wins a tie is left open, as it depends on set iteration order.
   */
  method Strategy(hand: seq<int>, numDieSides: int) returns (r: Option<Plan>)
    ensures r.None? <==> exists h :: h in AllHolds(hand) && HoldValue(hand, numDieSides, h).None?
    ensures r.Some? ==> IsBestPlan(hand, numDieSides, r.value)
  {
    var maxValue: real := 0.0;
    var best: seq<int> := [];
    ghost var found := false;
    var holds := GenAllHolds(hand);
    var rest := holds;
    ghost var done := {};
    while rest != {}
      invariant done + rest == holds && done !! rest
      invariant NoBetterHold(hand, numDieSides, done, maxValue)
      invariant found ==> best in holds && HoldValue(hand, numDieSides, best) == Some(maxValue)
      invariant !found ==> maxValue == 0.0
      decreases rest
    {
      var hold :| hold in rest;
      var value := ExpectedValue(hold, numDieSides, |hand| - |hold|);
      if value.None? {
        assert hold in AllHolds(hand) && HoldValue(hand, numDieSides, hold).None?;
        return None;
      }
      var newMax := if value.value > maxValue then value.value else maxValue;
      NoBetterHoldAdd(hand, numDieSides, done, maxValue, newMax, hold);
      if value.value > maxValue {
        best := hold;
        found := true;
      }
      maxValue := newMax;
      rest := rest - {hold};
      done := done + {hold};
    }
    assert done == holds;
    BestPlanFound(hand, numDieSides, maxValue, best, found);
    r := Some(Plan(maxValue, best));
  }

  /**
   * When every hold has been tried and none failed, the loop of strategy
   * has found a best plan: holding nothing scores at least 1, so some hold
   * beat the starting value 0.
   */
  lemma BestPlanFound(hand: seq<int>, sides: int, maxValue: real, best: seq<int>, found: bool)
    requires NoBetterHold(hand, sides, AllHolds(hand), maxValue)
    requires found ==> best in AllHolds(hand) && HoldValue(hand, sides, best) == Some(maxValue)
    requires !found ==> maxValue == 0.0
    ensures IsBestPlan(hand, sides, Plan(maxValue, best))
    ensures !exists h :: h in AllHolds(hand) && HoldValue(hand, sides, h).None?
  {
    HoldsContainNoneAndAll(hand);
    ExpectedAtLeastOne([], sides, |hand|);
  }

  /** On a non-empty hand of dice of at least 1, with dice of at least one side, strategy never fails. */
  lemma StrategyDefined(hand: seq<int>, sides: int)
    requires |hand| > 0 && forall i :: 0 <= i < |hand| ==> hand[i] >= 1
    requires sides >= 1
    ensures forall h :: h in AllHolds(hand) ==> HoldValue(hand, sides, h).Some?
  {
    forall h | h in AllHolds(hand) ensures HoldValue(hand, sides, h).Some? {
      if |h| == |hand| {
        HoldsDrawFromHand(hand, h);
        ScoreIsBestBox(h);
        var i :| 0 <= i < |hand| && hand[i] == h[0];
      }
      ExpectedDefined(h, sides, |hand| - |h|);
    }
  }
}
