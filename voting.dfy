/**
 * The majority vote that merges the folds: `find_majority` over one column of the
 * ensemble results, and the column-wise vote over the dev and the test results.
 */
module Voting {
  import opened Wrappers

  /** How many of the first `i` votes of `k` are `x`. */
  function Votes<T(==)>(k: seq<T>, i: nat, x: T): nat
    requires i <= |k|
  {
    if i == 0 then 0 else Votes(k, i - 1, x) + (if k[i - 1] == x then 1 else 0)
  }

  /** `Votes` counts the occurrences in the prefix. */
  lemma {:induction false} VotesCount<T>(k: seq<T>, i: nat, x: T)
    requires i <= |k|
    ensures Votes(k, i, x) == multiset(k[..i])[x]
  {
    if i > 0 {
      VotesCount(k, i - 1, x);
      assert k[..i] == k[..i - 1] + [k[i - 1]];
    }
  }

  /** More votes never lower a count. */
  lemma {:induction false} VotesGrow<T>(k: seq<T>, i: nat, j: nat, x: T)
    requires i <= j <= |k|
    ensures Votes(k, i, x) <= Votes(k, j, x)
    decreases j - i
  {
    if i < j {
      VotesGrow(k, i, j - 1, x);
    }
  }

  /**
   * `x` is what `find_majority(k)` answers: no value has more votes in `k`, and `x` is
   * the value whose running count first reaches that maximum, at its vote `j`.
   */
  ghost predicate Plurality<T>(k: seq<T>, x: T)
  {
    && x in k
    && (forall y :: y in k ==> Votes(k, |k|, y) <= Votes(k, |k|, x))
    && exists j :: 0 <= j < |k| && k[j] == x && Votes(k, j + 1, x) == Votes(k, |k|, x)
                   && forall i :: 0 <= i < j ==> Votes(k, i + 1, k[i]) < Votes(k, |k|, x)
  }

  /** The vote is determined: at most one value satisfies `Plurality`. */
  lemma PluralityUnique<T>(k: seq<T>, x: T, y: T)
    requires Plurality(k, x) && Plurality(k, y)
    ensures x == y
  {
    var c := Votes(k, |k|, x);
    assert Votes(k, |k|, y) == c;
    var jx :| 0 <= jx < |k| && k[jx] == x && Votes(k, jx + 1, x) == c
              && forall i :: 0 <= i < jx ==> Votes(k, i + 1, k[i]) < c;
    var jy :| 0 <= jy < |k| && k[jy] == y && Votes(k, jy + 1, y) == c
              && forall i :: 0 <= i < jy ==> Votes(k, i + 1, k[i]) < c;
    assert jx == jy;
  }

  /** The loop state of `find_majority` after the first `i` votes. */
  ghost predicate Tallied<T>(k: seq<T>, i: nat, myMap: map<T, nat>, elem: Option<T>, count: nat, at: nat)
    requires i <= |k|
  {
    && (forall x :: x in myMap ==> x in k)
    && (forall x :: x in k ==> (x in myMap <==> Votes(k, i, x) > 0))
    && (forall x :: x in myMap ==> myMap[x] == Votes(k, i, x))
    && (forall x :: x in k ==> Votes(k, i, x) <= count)
    && (forall j :: 0 <= j < i ==> Votes(k, j + 1, k[j]) <= count)
    && (i == 0 <==> elem.None?)
    && (i == 0 ==> count == 0)
    && (elem.Some? ==>
          && at < i && k[at] == elem.value
          && Votes(k, i, elem.value) == count
          && Votes(k, at + 1, elem.value) == count
          && forall j :: 0 <= j < at ==> Votes(k, j + 1, k[j]) < count)
  }

  /** One pass of the loop body keeps the loop state. */
  lemma TallyStep<T>(k: seq<T>, i: nat, myMap: map<T, nat>, elem: Option<T>, count: nat, at: nat,
                     myMap': map<T, nat>, elem': Option<T>, count': nat, at': nat)
    requires i < |k| && Tallied(k, i, myMap, elem, count, at)
    requires myMap' == myMap[k[i] := if k[i] in myMap then myMap[k[i]] + 1 else 1]
    requires myMap'[k[i]] > count ==> elem' == Some(k[i]) && count' == myMap'[k[i]] && at' == i
    requires myMap'[k[i]] <= count ==> elem' == elem && count' == count && at' == at
    ensures Tallied(k, i + 1, myMap', elem', count', at')
  {
    forall j | 0 <= j < at'
      ensures Votes(k, j + 1, k[j]) < count'
    {
      if myMap'[k[i]] > count {
        assert Votes(k, j + 1, k[j]) <= count;
      }
    }
  }

  /** After the last vote, the running maximum is the plurality. */
  lemma TalliedPlurality<T>(k: seq<T>, myMap: map<T, nat>, elem: Option<T>, count: nat, at: nat)
    requires Tallied(k, |k|, myMap, elem, count, at)
    ensures k == [] <==> elem.None?
    ensures elem.Some? ==> Plurality(k, elem.value) && count == Votes(k, |k|, elem.value)
  {
    if elem.Some? {
      VotesGrow(k, at + 1, |k|, elem.value);
      assert k[at] in k;
    }
  }

  /**
   * `find_majority(k)`: count the votes in a map and keep the running maximum, which
   * moves only on a strictly greater count. The initial maximum `('', 0)` survives only
   * for empty `k`, modelled as `None`.
   */
  method FindMajority<T(==)>(k: seq<T>) returns (elem: Option<T>, count: nat)
    ensures k == [] <==> elem.None?
    ensures k == [] ==> count == 0
    ensures elem.Some? ==> Plurality(k, elem.value) && count == Votes(k, |k|, elem.value)
  {
    var myMap: map<T, nat> := map[];
    elem, count := None, 0;
    ghost var at: nat := 0;
    for i := 0 to |k|
      invariant Tallied(k, i, myMap, elem, count, at)
    {
      ghost var (myMap0, elem0, count0, at0) := (myMap, elem, count, at);
      var n := k[i];
      if n in myMap {
        myMap := myMap[n := myMap[n] + 1];
      } else {
        myMap := myMap[n := 1];
      }
      if myMap[n] > count {
        elem, count := Some(n), myMap[n];
        at := i;
      }
      TallyStep(k, i, myMap0, elem0, count0, at0, myMap, elem, count, at);
    }
    TalliedPlurality(k, myMap, elem, count, at);
  }

  /** A full tie of two folds goes to the first fold's vote. */
  lemma TieOfTwo()
    ensures Plurality([0, 1], 0) && !Plurality([0, 1], 1)
  {
    var k := [0, 1];
    assert Votes(k, 1, 0) == 1 && Votes(k, 2, 0) == 1 && Votes(k, 2, 1) == 1;
    assert forall y :: y in k ==> y == 0 || y == 1;
    if Plurality(k, 1) {
      PluralityUnique(k, 0, 1);
    }
  }

  /** Two of three votes win. */
  lemma TwoOfThree()
    ensures Plurality([0, 0, 1], 0) && !Plurality([0, 0, 1], 1)
  {
    var k := [0, 0, 1];
    assert Votes(k, 3, 0) == 2 && Votes(k, 3, 1) == 1 && Votes(k, 2, 0) == 2 && Votes(k, 1, 0) == 1;
    assert forall y :: y in k ==> y == 0 || y == 1;
  }

  /** A tie goes to the value that reaches the top count first, not to the one seen first. */
  lemma TieGoesToFirstToReach()
    ensures Plurality([1, 0, 0, 1], 0) && !Plurality([1, 0, 0, 1], 1)
  {
    var k := [1, 0, 0, 1];
    assert Votes(k, 1, 1) == 1 && Votes(k, 2, 0) == 1 && Votes(k, 3, 0) == 2 && Votes(k, 4, 0) == 2;
    assert Votes(k, 4, 1) == 2;
    assert forall y :: y in k ==> y == 0 || y == 1;
    if Plurality(k, 1) {
      PluralityUnique(k, 0, 1);
    }
  }

  /** `np.asarray(...).shape[1]` does not exist: no folds, a fold without predictions, or rows of unequal length. */
  datatype ShapeError = ShapeError


  /** The fold results as a matrix: the rows, when they are all present and of one length. */
  function AsMatrix(results: seq<Option<seq<int>>>): (r: Result<seq<seq<int>>, ShapeError>)
    ensures r.Success? <==> |results| > 0 && (forall i :: 0 <= i < |results| ==> results[i].Some?)
                            && forall i :: 0 <= i < |results| ==> |results[i].value| == |results[0].value|
    ensures r.Success? ==> |r.value| == |results| && forall i :: 0 <= i < |results| ==> r.value[i] == results[i].value
  {
    if |results| > 0 && (forall i :: 0 <= i < |results| ==> results[i].Some?)
       && forall i :: 0 <= i < |results| ==> |results[i].value| == |results[0].value|
    then Success(seq(|results|, i requires 0 <= i < |results| && results[i].Some? => results[i].value))
    else Failure(ShapeError)
  }

  /** `all_fold_results[:, col_num]`: the votes of every fold for example `col`. */
  function Column(rows: seq<seq<int>>, col: nat): (r: seq<int>)
    requires forall i :: 0 <= i < |rows| ==> col < |rows[i]|
    ensures |r| == |rows| && forall i :: 0 <= i < |rows| ==> r[i] == rows[i][col]
  {
    seq(|rows|, i requires 0 <= i < |rows| => rows[i][col])
  }

  /**
   * The column-wise vote (`mj_dev`, and `mj` for the test results): one label per
   * example, each the plurality of that example's votes across the folds.
   */
  method MajorityByColumn(results: seq<Option<seq<int>>>) returns (r: Result<seq<int>, ShapeError>)
    ensures r.Success? <==> AsMatrix(results).Success?
    ensures r.Success? ==>
      var rows := AsMatrix(results).value;
      && |r.value| == |rows[0]|
      && forall col :: 0 <= col < |r.value| ==> Plurality(Column(rows, col), r.value[col])
  {
    var m := AsMatrix(results);
    if m.Failure? {
      return Failure(ShapeError);
    }
    var rows := m.value;
    var width := |rows[0]|;
    var mj: seq<int> := [];
    for col := 0 to width
      invariant |mj| == col
      invariant forall c :: 0 <= c < col ==> Plurality(Column(rows, c), mj[c])
    {
      var aMj, _ := FindMajority(Column(rows, col));
      mj := mj + [aMj.value];
    }
    return Success(mj);
  }
}
