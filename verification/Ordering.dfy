/** A stable sort by a strict weak order: the meaning given to ORDER BY, with ties left in table order. */
module Ordering {

  ghost predicate StrictWeak<T(!new)>(before: (T, T) -> bool) {
    && (forall a, b :: before(a, b) ==> !before(b, a))
    && (forall a, b, c :: !before(a, b) && !before(b, c) ==> !before(a, c))
  }

  function Sorted<T>(rows: seq<T>, before: (T, T) -> bool): seq<T> {
    if rows == [] then [] else Place(rows[0], Sorted(rows[1..], before), before)
  }

  function Place<T>(row: T, sorted: seq<T>, before: (T, T) -> bool): seq<T> {
    if sorted == [] || !before(sorted[0], row) then [row] + sorted else [sorted[0]] + Place(row, sorted[1..], before)
  }

  ghost predicate InOrder<T(!new)>(rows: seq<T>, before: (T, T) -> bool) {
    forall i: nat, j: nat :: i < j < |rows| ==> !before(rows[j], rows[i])
  }

  /** The rows that tie with one row. */
  function Ties<T>(rows: seq<T>, row: T, before: (T, T) -> bool): seq<T> {
    if rows == [] then []
    else if before(rows[0], row) || before(row, rows[0]) then Ties(rows[1..], row, before)
    else [rows[0]] + Ties(rows[1..], row, before)
  }

  lemma {:induction false} PlaceOrders<T(!new)>(row: T, sorted: seq<T>, before: (T, T) -> bool)
    requires StrictWeak(before) && InOrder(sorted, before)
    ensures multiset(Place(row, sorted, before)) == multiset(sorted) + multiset{row}
    ensures InOrder(Place(row, sorted, before), before)
  {
    if sorted == [] || !before(sorted[0], row) {
      hide Place;
      forall j: nat | j < |sorted| ensures !before(sorted[j], row) {
        assert j > 0 ==> !before(sorted[j], sorted[0]);
      }
    } else {
      var rest := Place(row, sorted[1..], before);
      PlaceOrders(row, sorted[1..], before);
      hide Place;
      assert sorted == [sorted[0]] + sorted[1..];
      forall j: nat | j < |rest| ensures !before(rest[j], sorted[0]) {
        AmongOr(rest, sorted[1..], row, j);
        if rest[j] != row {
          var k: nat :| k < |sorted[1..]| && sorted[1..][k] == rest[j];
          assert sorted[k + 1] == rest[j];
        }
      }
    }
  }

  lemma AmongOr<T>(rest: seq<T>, sorted: seq<T>, row: T, j: nat)
    requires multiset(rest) == multiset(sorted) + multiset{row} && j < |rest|
    ensures rest[j] == row || rest[j] in sorted
  {
    assert rest[j] in multiset(rest);
  }

  lemma {:induction false} PlaceIsStable<T(!new)>(row: T, sorted: seq<T>, k: T, before: (T, T) -> bool)
    requires StrictWeak(before)
    ensures Ties(Place(row, sorted, before), k, before) == Ties([row] + sorted, k, before)
  {
    assert ([row] + sorted)[1..] == sorted;
    if sorted != [] && before(sorted[0], row) {
      PlaceIsStable(row, sorted[1..], k, before);
      assert Place(row, sorted, before)[1..] == Place(row, sorted[1..], before);
      assert ([row] + sorted[1..])[1..] == sorted[1..];
    }
  }

  /** The same rows, none before an earlier one, and in the old order among rows that tie. */
  lemma {:induction false} SortedSorts<T(!new)>(rows: seq<T>, before: (T, T) -> bool)
    requires StrictWeak(before)
    ensures multiset(Sorted(rows, before)) == multiset(rows) && InOrder(Sorted(rows, before), before)
    ensures forall k :: Ties(Sorted(rows, before), k, before) == Ties(rows, k, before)
  {
    if rows != [] {
      var rest := Sorted(rows[1..], before);
      SortedSorts(rows[1..], before);
      PlaceOrders(rows[0], rest, before);
      assert rows == [rows[0]] + rows[1..];
      forall k ensures Ties(Sorted(rows, before), k, before) == Ties(rows, k, before) {
        PlaceIsStable(rows[0], rest, k, before);
        assert ([rows[0]] + rest)[1..] == rest;
      }
    }
  }
}
