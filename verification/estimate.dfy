/** Turning cast votes into a suggested estimate: the mean of the numeric
    votes and the card of the estimation scale nearest to it. Averages are
    exact rationals; every tie between two cards is a half-integer, which a
    double holds exactly, so the tie rule comes out as in the client. */
module Estimate {
  import opened Basics
  import opened Domain

  /** The numeric estimation scale, ascending. */
  const Scale: seq<int> := [1, 2, 3, 5, 8, 13, 21, 34, 55, 89]

  /** `Number(s)` for the numerals votes carry: surrounding white space is
      ignored, an empty or blank string is 0, and an optionally signed run of
      decimal digits is its value. Every other string is `NaN` here. */
  function ParseNumber(s: string): (r: Option<int>)
    ensures Trim(s) == [] ==> r == Some(0)
    ensures Trim(s) != [] && AllDigits(Trim(s)) ==> r == Some(DigitsValue(Trim(s)))
    ensures r.Some? && r.value < 0 ==> Trim(s)[0] == '-'
  {
    var t := Trim(s);
    if t == [] then Some(0)
    else if (t[0] == '-' || t[0] == '+') && |t| > 1 && AllDigits(t[1..]) then
      var m: int := DigitsValue(t[1..]);
      Some(if t[0] == '-' then -m else m)
    else if AllDigits(t) then Some(DigitsValue(t))
    else None
  }

  /** The number a vote contributes to the average: none for the `'?'`
      card or a value that is `NaN`. */
  function VoteNumber(value: string): Option<int> {
    if value == "?" then None else ParseNumber(value)
  }

  /** A written number reads back as itself. */
  lemma ParseNumberOfNumeral(n: nat)
    ensures ParseNumber(NatToString(n)) == Some(n)
  {
    var s := NatToString(n);
    assert !IsJsWhitespace(s[0]) && !IsJsWhitespace(s[|s| - 1]);
    assert TrimStart(s) == s;
    assert Trim(s) == s;
    NatToStringValue(n);
  }

  /** `votes.filter(numeric).map(v => Number(v.voteValue))`. */
  function NumericValues(votes: seq<Vote>): (xs: seq<int>)
    ensures |xs| <= |votes|
    ensures (forall v :: v in votes ==> VoteNumber(v.voteValue).None?) ==> xs == []
    ensures (forall v :: v in votes ==> VoteNumber(v.voteValue).Some?) ==> |xs| == |votes|
  {
    if votes == [] then []
    else
      var rest := NumericValues(votes[1..]);
      assert votes[0] in votes && forall v :: v in votes[1..] ==> v in votes;
      match VoteNumber(votes[0].voteValue)
      case Some(x) => [x] + rest
      case None => rest
  }

  /** The filter-map works vote by vote: the values of two runs of votes
      are the values of the first run followed by those of the second. */
  lemma {:induction false} NumericValuesAppend(a: seq<Vote>, b: seq<Vote>)
    ensures NumericValues(a + b) == NumericValues(a) + NumericValues(b)
  {
    if a != [] {
      assert (a + b)[0] == a[0];
      assert (a + b)[1..] == a[1..] + b;
      NumericValuesAppend(a[1..], b);
    } else {
      assert a + b == b;
    }
  }

  /** A single vote contributes its number, or nothing. */
  lemma NumericValuesOne(v: Vote)
    ensures NumericValues([v]) == if VoteNumber(v.voteValue).Some? then [VoteNumber(v.voteValue).value] else []
  {
    assert [v][1..] == [];
  }

  function Sum(xs: seq<int>): int {
    if xs == [] then 0 else xs[0] + Sum(xs[1..])
  }

  function Min(xs: seq<int>): (m: int)
    requires xs != []
    ensures m in xs && forall x :: x in xs ==> m <= x
  {
    if |xs| == 1 then xs[0]
    else
      var m := Min(xs[1..]);
      assert forall x :: x in xs ==> x == xs[0] || x in xs[1..];
      if xs[0] < m then xs[0] else m
  }

  function Max(xs: seq<int>): (m: int)
    requires xs != []
    ensures m in xs && forall x :: x in xs ==> x <= m
  {
    if |xs| == 1 then xs[0]
    else
      var m := Max(xs[1..]);
      assert forall x :: x in xs ==> x == xs[0] || x in xs[1..];
      if xs[0] > m then xs[0] else m
  }

  lemma {:induction false} SumAtLeast(xs: seq<int>, lo: int)
    requires forall x :: x in xs ==> lo <= x
    ensures |xs| * lo <= Sum(xs)
  {
    if xs != [] {
      assert forall x :: x in xs[1..] ==> x in xs;
      SumAtLeast(xs[1..], lo);
      assert xs[0] in xs;
      assert Sum(xs) == xs[0] + Sum(xs[1..]);
      assert |xs| * lo == lo + (|xs| - 1) * lo;
    }
  }

  lemma {:induction false} SumAtMost(xs: seq<int>, hi: int)
    requires forall x :: x in xs ==> x <= hi
    ensures Sum(xs) <= |xs| * hi
  {
    if xs != [] {
      assert forall x :: x in xs[1..] ==> x in xs;
      SumAtMost(xs[1..], hi);
      assert xs[0] in xs;
      assert Sum(xs) == xs[0] + Sum(xs[1..]);
      assert |xs| * hi == hi + (|xs| - 1) * hi;
    }
  }

  /** Dividing a total bounded by `count * lo` and `count * hi` by the
      positive `count`. */
  lemma DivideBounds(total: int, count: int, lo: int, hi: int)
    requires count > 0 && count * lo <= total <= count * hi
    ensures lo as real <= total as real / count as real <= hi as real
  {
    assert (count * lo) as real == count as real * lo as real;
    assert (count * hi) as real == count as real * hi as real;
  }

  /** The total that an average over `count` values stands for. */
  function Weighted(average: real, count: nat): real {
    average * count as real
  }

  /** The arithmetic mean of some values. */
  function MeanOf(xs: seq<int>): real
    requires xs != []
  {
    Sum(xs) as real / |xs| as real
  }

  /** The mean is the value that, taken once per element, makes up the
      total. */
  lemma MeanOfTotal(xs: seq<int>)
    requires xs != []
    ensures Weighted(MeanOf(xs), |xs|) == Sum(xs) as real
  {
    RatioTimesCount(Sum(xs), |xs|);
  }

  lemma RatioTimesCount(total: int, count: int)
    requires count > 0
    ensures (total as real / count as real) * count as real == total as real
  {
  }

  /** The mean lies between the least and the greatest value. */
  lemma MeanOfBounds(xs: seq<int>)
    requires xs != []
    ensures Min(xs) as real <= MeanOf(xs) <= Max(xs) as real
  {
    SumAtLeast(xs, Min(xs));
    SumAtMost(xs, Max(xs));
    DivideBounds(Sum(xs), |xs|, Min(xs), Max(xs));
  }

  /** `calculateAverageNumber()`: 0 when no vote is numeric, otherwise the
      mean of the numeric votes, which lies between the lowest and the
      highest of them. */
  function AverageNumber(votes: seq<Vote>): (r: real)
    ensures NumericValues(votes) == [] ==> r == 0.0
    ensures NumericValues(votes) != [] ==>
      Min(NumericValues(votes)) as real <= r <= Max(NumericValues(votes)) as real
  {
    var xs := NumericValues(votes);
    if xs == [] then 0.0 else MeanOfBounds(xs); MeanOf(xs)
  }

  lemma {:induction false} SumAppend(a: seq<int>, b: seq<int>)
    ensures Sum(a + b) == Sum(a) + Sum(b)
  {
    if a == [] {
      assert a + b == b;
    } else {
      assert (a + b)[0] == a[0];
      assert (a + b)[1..] == a[1..] + b;
      SumAppend(a[1..], b);
    }
  }

  /** The average, weighted by the number of numeric votes, is their total;
      with no numeric vote both sides are 0. */
  lemma AverageTimesCount(votes: seq<Vote>)
    ensures Weighted(AverageNumber(votes), |NumericValues(votes)|) == Sum(NumericValues(votes)) as real
  {
    var xs := NumericValues(votes);
    if xs != [] {
      MeanOfTotal(xs);
      assert AverageNumber(votes) == MeanOf(xs);
    }
  }

  /** A single numeric vote averages to its own number. */
  lemma AverageOfOne(w: Vote)
    requires VoteNumber(w.voteValue).Some?
    ensures AverageNumber([w]) == VoteNumber(w.voteValue).value as real
  {
    NumericValuesOne(w);
    var xs := NumericValues([w]);
    assert xs == [VoteNumber(w.voteValue).value];
    assert Sum(xs) == xs[0] + Sum(xs[1..]);
  }

  /** Averages combine by weight: the average of two runs of votes, times
      the number of numeric votes in both, is each run's average times its
      own count, added up. With `AverageOfOne` this fixes the average of
      every list of votes: it is the arithmetic mean of the numeric ones. */
  lemma AverageCombines(a: seq<Vote>, b: seq<Vote>)
    ensures |NumericValues(a + b)| == |NumericValues(a)| + |NumericValues(b)|
    ensures Weighted(AverageNumber(a + b), |NumericValues(a + b)|) ==
      Weighted(AverageNumber(a), |NumericValues(a)|) + Weighted(AverageNumber(b), |NumericValues(b)|)
  {
    NumericValuesAppend(a, b);
    SumAppend(NumericValues(a), NumericValues(b));
    AverageTimesCount(a);
    AverageTimesCount(b);
    AverageTimesCount(a + b);
  }

  /** A `'?'` card or any other vote that is not a number leaves the
      average as it was. */
  lemma AverageIgnoresNonNumeric(votes: seq<Vote>, w: Vote)
    requires VoteNumber(w.voteValue).None?
    ensures AverageNumber(votes + [w]) == AverageNumber(votes)
  {
    NumericValuesAppend(votes, [w]);
    NumericValuesOne(w);
    assert NumericValues(votes) + [] == NumericValues(votes);
  }

  /** `Math.abs(x - average)`. */
  function Dist(x: int, average: real): real {
    if x as real >= average then x as real - average else average - x as real
  }

  /** One step of the reduce: the current card replaces the best so far only
      when strictly closer. */
  function Closer(closest: int, current: int, average: real): int {
    if Dist(current, average) < Dist(closest, average) then current else closest
  }

  /** `rest.reduce(step, acc)`. */
  function ReduceClosest(acc: int, rest: seq<int>, average: real): int
    decreases |rest|
  {
    if rest == [] then acc else ReduceClosest(Closer(acc, rest[0], average), rest[1..], average)
  }

  /** `r` is the first element of `xs` at the least distance from `average`. */
  predicate FirstNearest(xs: seq<int>, average: real, r: int) {
    exists k :: 0 <= k < |xs| && xs[k] == r
      && (forall i :: 0 <= i < |xs| ==> Dist(r, average) <= Dist(xs[i], average))
      && (forall i :: 0 <= i < k ==> Dist(r, average) < Dist(xs[i], average))
  }

  /** The reduce keeps the earliest element among those nearest to the
      average. */
  lemma {:induction false} ReduceClosestIsFirstNearest(acc: int, rest: seq<int>, average: real)
    ensures FirstNearest([acc] + rest, average, ReduceClosest(acc, rest, average))
    decreases |rest|
  {
    var xs := [acc] + rest;
    var r := ReduceClosest(acc, rest, average);
    if rest == [] {
      assert xs[0] == r;
    } else {
      var acc' := Closer(acc, rest[0], average);
      ReduceClosestIsFirstNearest(acc', rest[1..], average);
      var ys := [acc'] + rest[1..];
      var k :| 0 <= k < |ys| && ys[k] == r
        && (forall i :: 0 <= i < |ys| ==> Dist(r, average) <= Dist(ys[i], average))
        && (forall i :: 0 <= i < k ==> Dist(r, average) < Dist(ys[i], average));
      forall i | 0 <= i < |xs|
        ensures Dist(r, average) <= Dist(xs[i], average)
      {
        if i >= 2 {
          assert xs[i] == ys[i - 1];
        } else {
          assert Dist(r, average) <= Dist(ys[0], average);
        }
      }
      if k == 0 {
        if acc' == acc {
          assert xs[0] == r;
        } else {
          assert xs[1] == r;
          assert Dist(r, average) < Dist(xs[0], average);
        }
      } else {
        assert xs[k + 1] == r;
        forall i | 0 <= i < k + 1
          ensures Dist(r, average) < Dist(xs[i], average)
        {
          if i >= 2 {
            assert xs[i] == ys[i - 1];
          } else {
            assert Dist(r, average) < Dist(ys[0], average);
          }
        }
      }
    }
  }

  /** In an ascending sequence the first nearest element is the smallest of
      the nearest ones. */
  lemma FirstNearestAscending(xs: seq<int>, average: real, r: int)
    requires forall i :: 0 <= i < |xs| - 1 ==> xs[i] < xs[i + 1]
    requires FirstNearest(xs, average, r)
    ensures r in xs
    ensures forall x :: x in xs ==> Dist(r, average) <= Dist(x, average)
    ensures forall x :: x in xs && Dist(x, average) == Dist(r, average) ==> r <= x
  {
    var k :| 0 <= k < |xs| && xs[k] == r
      && (forall i :: 0 <= i < |xs| ==> Dist(r, average) <= Dist(xs[i], average))
      && (forall i :: 0 <= i < k ==> Dist(r, average) < Dist(xs[i], average));
    forall x | x in xs && Dist(x, average) == Dist(r, average)
      ensures r <= x
    {
      var j :| 0 <= j < |xs| && xs[j] == x;
      if j >= k {
        Ascending(xs, k, j);
      }
    }
  }

  lemma {:induction false} Ascending(xs: seq<int>, i: int, j: int)
    requires forall i :: 0 <= i < |xs| - 1 ==> xs[i] < xs[i + 1]
    requires 0 <= i <= j < |xs|
    ensures xs[i] <= xs[j]
    decreases j - i
  {
    if i < j {
      Ascending(xs, i + 1, j);
    }
  }

  /** `getClosestFibonacci(average)`: a card of the scale at the least
      distance from the average; between two equally near cards the smaller
      one. */
  function ClosestFibonacci(average: real): (r: int)
    ensures r in Scale
    ensures forall x :: x in Scale ==> Dist(r, average) <= Dist(x, average)
    ensures forall x :: x in Scale && Dist(x, average) == Dist(r, average) ==> r <= x
  {
    var r := ReduceClosest(Scale[0], Scale[1..], average);
    assert [Scale[0]] + Scale[1..] == Scale;
    ReduceClosestIsFirstNearest(Scale[0], Scale[1..], average);
    FirstNearestAscending(Scale, average, r);
    r
  }

  /** Votes 5 and 8 average 6.5, equally far from 5 and 8; the lower card
      is suggested. */
  lemma TieGoesToLowerCard()
    ensures ClosestFibonacci(6.5) == 5
  {
    var r := ClosestFibonacci(6.5);
    assert 5 in Scale && 8 in Scale;
    assert Dist(5, 6.5) == 1.5 && Dist(8, 6.5) == 1.5;
  }

  /** A `'?'` vote is left out of the average. */
  lemma AverageExample(u1: UserRef, u2: UserRef, u3: UserRef)
    ensures AverageNumber([Vote("a", u1, "5", true), Vote("b", u2, "8", true), Vote("c", u3, "?", true)]) == 6.5
  {
    ExampleValues(Vote("a", u1, "5", true), Vote("b", u2, "8", true), Vote("c", u3, "?", true));
    MeanOfFiveAndEight();
  }

  lemma ExampleValues(v1: Vote, v2: Vote, v3: Vote)
    requires v1.voteValue == "5" && v2.voteValue == "8" && v3.voteValue == "?"
    ensures NumericValues([v1, v2, v3]) == [5, 8]
  {
    assert VoteNumber("5") == Some(5) by {
      ParseNumberOfNumeral(5);
      assert NatToString(5) == "5";
    }
    assert VoteNumber("8") == Some(8) by {
      ParseNumberOfNumeral(8);
      assert NatToString(8) == "8";
    }
    assert NumericValues([v1]) == [5] by { NumericValuesOne(v1); }
    assert NumericValues([v2]) == [8] by { NumericValuesOne(v2); }
    assert NumericValues([v3]) == [] by { NumericValuesOne(v3); }
    NumericValuesOfThree(v1, v2, v3);
  }

  lemma NumericValuesOfThree(v1: Vote, v2: Vote, v3: Vote)
    ensures NumericValues([v1, v2, v3]) == NumericValues([v1]) + NumericValues([v2]) + NumericValues([v3])
  {
    NumericValuesAppend([v1], [v2]);
    NumericValuesAppend([v1, v2], [v3]);
    assert [v1] + [v2] == [v1, v2] && [v1, v2] + [v3] == [v1, v2, v3];
  }

  lemma MeanOfFiveAndEight()
    ensures MeanOf([5, 8]) == 6.5
  {
    assert Sum([5, 8]) == 13;
  }
}
