/**
 * Ordered query results. The store answers "all rows matching a filter,
 * ordered by a timestamp column" (Django's `Meta.ordering` and `order_by`).
 * Rows are identified by their natural-number primary keys; the column being
 * ordered on is given as a map from key to value.
 */
module Ordering {

  datatype Direction = Ascending | Descending

  predicate InOrder(d: Direction, a: int, b: int) {
    match d
    case Ascending => a <= b
    case Descending => a >= b
  }

  /** Every key of `s` has a value in `key`. */
  predicate Keyed(s: seq<nat>, key: map<nat, int>) {
    forall i :: 0 <= i < |s| ==> s[i] in key
  }

  /** `s` is ordered by `key` in direction `d`; equal values may come in any order. */
  predicate Sorted(s: seq<nat>, key: map<nat, int>, d: Direction)
    requires Keyed(s, key)
  {
    forall i, j :: 0 <= i < j < |s| ==> InOrder(d, key[s[i]], key[s[j]])
  }

  function Elements(s: seq<nat>): set<nat> {
    set x | x in s
  }

  predicate Distinct(s: seq<nat>) {
    forall i, j :: 0 <= i < j < |s| ==> s[i] != s[j]
  }

  /** The keys of `ids` below `n`, in increasing order: the rows a table scan visits. */
  function IdsBelow(n: nat, ids: set<nat>): (r: seq<nat>)
    ensures forall x :: x in r <==> x in ids && x < n
    ensures forall i, j :: 0 <= i < j < |r| ==> r[i] < r[j]
  {
    if n == 0 then []
    else
      var below := IdsBelow(n - 1, ids);
      assert forall i :: 0 <= i < |below| ==> below[i] < n - 1 by {
        forall i | 0 <= i < |below| ensures below[i] < n - 1 {
          assert below[i] in below;
        }
      }
      below + (if n - 1 in ids then [n - 1] else [])
  }

  /** Places `x` in front of the first element it may precede. */
  function Insert(x: nat, s: seq<nat>, key: map<nat, int>, d: Direction): (r: seq<nat>)
    requires x in key && Keyed(s, key)
    ensures Keyed(r, key)
    ensures multiset(r) == multiset(s) + multiset{x}
  {
    if s == [] || InOrder(d, key[x], key[s[0]]) then
      [x] + s
    else
      assert s == [s[0]] + s[1..];
      [s[0]] + Insert(x, s[1..], key, d)
  }

  lemma {:induction false} InsertSorted(x: nat, s: seq<nat>, key: map<nat, int>, d: Direction)
    requires x in key && Keyed(s, key) && Sorted(s, key, d)
    ensures Sorted(Insert(x, s, key, d), key, d)
  {
    if s != [] && !InOrder(d, key[x], key[s[0]]) {
      var rest := Insert(x, s[1..], key, d);
      InsertSorted(x, s[1..], key, d);
      forall j | 0 <= j < |rest| ensures InOrder(d, key[s[0]], key[rest[j]]) {
        assert rest[j] in multiset(rest);
        if rest[j] != x {
          var k :| 0 <= k < |s[1..]| && s[1..][k] == rest[j];
          assert s[k + 1] == rest[j];
        }
      }
    }
  }

  lemma {:induction false} InsertDistinct(x: nat, s: seq<nat>, key: map<nat, int>, d: Direction)
    requires x in key && Keyed(s, key) && Distinct(s) && x !in s
    ensures Distinct(Insert(x, s, key, d))
  {
    if s != [] && !InOrder(d, key[x], key[s[0]]) {
      var tail := s[1..];
      var rest := Insert(x, tail, key, d);
      assert x !in tail;
      InsertDistinct(x, tail, key, d);
      assert s[0] !in tail by {
        forall k | 0 <= k < |tail| ensures tail[k] != s[0] {
          assert tail[k] == s[k + 1];
        }
      }
      assert s[0] !in multiset(rest);
    }
  }

  /** The rows of `s` ordered by `key` in direction `d`. */
  function SortBy(s: seq<nat>, key: map<nat, int>, d: Direction): (r: seq<nat>)
    requires Keyed(s, key)
    ensures Keyed(r, key) && Sorted(r, key, d)
    ensures multiset(r) == multiset(s)
    ensures Distinct(s) ==> Distinct(r)
  {
    if s == [] then []
    else
      assert s == [s[0]] + s[1..];
      var rest := SortBy(s[1..], key, d);
      InsertSorted(s[0], rest, key, d);
      if Distinct(s) then
        assert s[0] !in s[1..] by {
          forall k | 0 <= k < |s| - 1 ensures s[1..][k] != s[0] {
            assert s[1..][k] == s[k + 1];
          }
        }
        assert s[0] !in multiset(rest);
        InsertDistinct(s[0], rest, key, d);
        Insert(s[0], rest, key, d)
      else
        Insert(s[0], rest, key, d)
  }

  /** A sequence without repetitions has as many elements as the set of its elements. */
  lemma {:induction false} DistinctCard(s: seq<nat>)
    requires Distinct(s)
    ensures |Elements(s)| == |s|
  {
    if s != [] {
      var tail := s[1..];
      assert Distinct(tail) by {
        forall i, j | 0 <= i < j < |tail| ensures tail[i] != tail[j] {
          assert tail[i] == s[i + 1] && tail[j] == s[j + 1];
        }
      }
      DistinctCard(tail);
      assert Elements(s) == Elements(tail) + {s[0]};
      assert s[0] !in Elements(tail) by {
        forall k | 0 <= k < |tail| ensures tail[k] != s[0] {
          assert tail[k] == s[k + 1];
        }
      }
    }
  }

  /**
   * The rows with keys in `ids`, ordered by `key` in direction `d`: a table
   * scan in key order followed by a sort. `bound` is a bound on the keys.
   */
  function OrderedRows(ids: set<nat>, bound: nat, key: map<nat, int>, d: Direction): (r: seq<nat>)
    requires forall x :: x in ids ==> x in key && x < bound
    ensures Keyed(r, key) && Sorted(r, key, d) && Distinct(r)
    ensures forall x :: x in r <==> x in ids
    ensures |r| == |ids|
  {
    var scan := IdsBelow(bound, ids);
    assert Keyed(scan, key) by {
      forall i | 0 <= i < |scan| ensures scan[i] in key {
        assert scan[i] in scan;
      }
    }
    var r := SortBy(scan, key, d);
    assert forall x :: x in r <==> x in multiset(scan);
    DistinctCard(r);
    assert Elements(r) == ids;
    r
  }

  /**
   * The first page of an ordered sequence: at most `size` rows, in order,
   * and none of them after a row left off the page.
   */
  function FirstPage(s: seq<nat>, size: nat, key: map<nat, int>, d: Direction): (page: seq<nat>)
    requires Keyed(s, key) && Sorted(s, key, d) && Distinct(s)
    ensures |page| == if |s| < size then |s| else size
    ensures Keyed(page, key) && Sorted(page, key, d) && Distinct(page)
    ensures forall x :: x in page ==> x in s
    ensures forall i, x :: 0 <= i < |page| && x in s && x !in page ==> InOrder(d, key[page[i]], key[x])
  {
    var page := s[..if |s| < size then |s| else size];
    assert forall m :: 0 <= m < |page| ==> page[m] == s[m];
    forall i, x | 0 <= i < |page| && x in s && x !in page ensures InOrder(d, key[page[i]], key[x]) {
      var j :| 0 <= j < |s| && s[j] == x;
      assert forall m :: 0 <= m < |page| ==> page[m] != x;
      assert |page| <= j;
    }
    page
  }
}
