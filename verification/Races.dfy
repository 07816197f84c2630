/**
 Requests that first clear a slot of a table and insert their own row later: when can a slot come to
 hold two rows?
 */
module Races {

  /** The row enters the table with step `j`. */
  predicate Enters<T(==)>(tables: seq<set<T>>, j: nat, x: T) {
    j + 1 < |tables| && x !in tables[j] && x in tables[j + 1]
  }

  /** The row enters the table with step `j` and is there from then on. */
  ghost predicate EntersForGood<T(!new)>(tables: seq<set<T>>, j: nat, x: T) {
    j + 1 < |tables| && x !in tables[j] && forall m :: j < m < |tables| ==> x in tables[m]
  }

  lemma {:induction false} LastEntry<T(!new)>(tables: seq<set<T>>, x: T, n: nat)
    requires 0 < n <= |tables| && x !in tables[0] && x in tables[|tables| - 1]
    requires forall m :: n <= m < |tables| ==> x in tables[m]
    ensures exists j: nat :: EntersForGood(tables, j, x)
    decreases n
  {
    if x !in tables[n - 1] {
      assert EntersForGood(tables, n - 1, x);
    } else {
      LastEntry(tables, x, n - 1);
    }
  }

  /** `y` enters after `x`, by a request that had cleared the slot before `x` entered. */
  ghost predicate Overtakes<T(!new)>(tables: seq<set<T>>, clears: seq<nat>, x: T, y: T)
    requires |clears| + 1 == |tables|
  {
    exists i: nat, j: nat ::
      j < |clears| && clears[j] < i < j && EntersForGood(tables, i, x) && EntersForGood(tables, j, y)
  }

  /** Rows of the slot enter one at a time, by a request that has left the slot empty before, with step `clears[j]`. */
  ghost predicate ClearThenInsert<T(!new)>(tables: seq<set<T>>, clears: seq<nat>, slot: T -> bool) {
    && |clears| + 1 == |tables|
    && (forall x :: slot(x) ==> x !in tables[0])
    && (forall j, x, y :: 0 <= j < |clears| && slot(x) && slot(y) && Enters(tables, j, x) && Enters(tables, j, y) ==>
         x == y)
    && (forall j, x :: 0 <= j < |clears| && slot(x) && Enters(tables, j, x) ==>
         clears[j] < j && forall y :: slot(y) ==> y !in tables[clears[j] + 1])
  }

  lemma TwoRowsIff<T(!new)>(tables: seq<set<T>>, clears: seq<nat>, slot: T -> bool, v: T, w: T)
    requires ClearThenInsert(tables, clears, slot) && slot(v) && slot(w) && v != w
    ensures v in tables[|clears|] && w in tables[|clears|] <==>
            Overtakes(tables, clears, v, w) || Overtakes(tables, clears, w, v)
  {
    if v in tables[|clears|] && w in tables[|clears|] {
      LastEntry(tables, v, |tables| - 1);
      LastEntry(tables, w, |tables| - 1);
      var i: nat :| EntersForGood(tables, i, v);
      var j: nat :| EntersForGood(tables, j, w);
      assert Enters(tables, i, v) && Enters(tables, j, w);
      if i < j {
        assert v !in tables[clears[j] + 1];
        assert Overtakes(tables, clears, v, w);
      } else {
        assert i != j;
        assert w !in tables[clears[i] + 1];
        assert Overtakes(tables, clears, w, v);
      }
    }
  }
}
