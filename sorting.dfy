/** Ordering of result lists: SQLite's ORDER BY ... DESC and
    Array.prototype.sort with a numeric comparator, both modelled as a stable
    insertion sort under a strict weak order `less` ("a goes before b"). */
module Sorting {

  /** `less` is irreflexive, transitive, and incomparability is transitive
      (the shape of every "by key, descending" comparison in the core). */
  ghost predicate StrictWeakOrder<T(!new)>(less: (T, T) -> bool) {
    (forall a :: !less(a, a)) &&
    (forall a, b, c :: less(a, b) && less(b, c) ==> less(a, c)) &&
    (forall a, b, c :: less(a, c) ==> less(a, b) || less(b, c))
  }

  /** No element is strictly before one that precedes it. */
  ghost predicate Sorted<T>(s: seq<T>, less: (T, T) -> bool) {
    forall i, j :: 0 <= i < j < |s| ==> !less(s[j], s[i])
  }

  /** x is placed after every element that goes strictly before it. */
  function Insert<T>(x: T, s: seq<T>, less: (T, T) -> bool): (r: seq<T>)
    ensures |r| == |s| + 1
  {
    if s == [] then [x]
    else if less(s[0], x) then [s[0]] + Insert(x, s[1..], less)
    else [x] + s
  }

  function Sort<T>(s: seq<T>, less: (T, T) -> bool): (r: seq<T>)
    ensures |r| == |s|
  {
    if s == [] then [] else Insert(s[0], Sort(s[1..], less), less)
  }

  lemma {:induction false} InsertPermutes<T>(x: T, s: seq<T>, less: (T, T) -> bool)
    ensures multiset(Insert(x, s, less)) == multiset(s) + multiset{x}
  {
    if s != [] && less(s[0], x) {
      InsertPermutes(x, s[1..], less);
      assert s == [s[0]] + s[1..];
    }
  }

  /** The sorted list holds exactly the input's elements. */
  lemma {:induction false} SortPermutes<T>(s: seq<T>, less: (T, T) -> bool)
    ensures multiset(Sort(s, less)) == multiset(s)
  {
    if s != [] {
      SortPermutes(s[1..], less);
      InsertPermutes(s[0], Sort(s[1..], less), less);
      assert s == [s[0]] + s[1..];
    }
  }

  lemma {:induction false} InsertSorted<T(!new)>(x: T, s: seq<T>, less: (T, T) -> bool)
    requires StrictWeakOrder(less)
    requires Sorted(s, less)
    ensures Sorted(Insert(x, s, less), less)
  {
    if s == [] {
    } else if less(s[0], x) {
      var t := Insert(x, s[1..], less);
      InsertSorted(x, s[1..], less);
      InsertPermutes(x, s[1..], less);
      var r := [s[0]] + t;
      forall i, j | 0 <= i < j < |r|
        ensures !less(r[j], r[i])
      {
        if i == 0 {
          assert r[j] in multiset(t);
          if r[j] == x {
            assert !less(x, s[0]);
          } else {
            assert r[j] in multiset(s[1..]);
            var k :| 0 <= k < |s[1..]| && s[1..][k] == r[j];
            assert s[k + 1] == r[j];
          }
        } else {
          assert r[i] == t[i - 1] && r[j] == t[j - 1];
        }
      }
    } else {
      var r := [x] + s;
      forall i, j | 0 <= i < j < |r|
        ensures !less(r[j], r[i])
      {
        if i == 0 {
          if j > 1 {
            assert !less(s[j - 1], s[0]);
          }
        } else {
          assert r[i] == s[i - 1] && r[j] == s[j - 1];
        }
      }
    }
  }

  /** Under a strict weak order the result is sorted. */
  lemma {:induction false} SortSorted<T(!new)>(s: seq<T>, less: (T, T) -> bool)
    requires StrictWeakOrder(less)
    ensures Sorted(Sort(s, less), less)
  {
    if s != [] {
      SortSorted(s[1..], less);
      InsertSorted(s[0], Sort(s[1..], less), less);
    }
  }

  /** "Larger key first", the comparison of every numeric DESC order here. */
  function ByKeyDesc<T>(key: T -> int): (T, T) -> bool {
    (a: T, b: T) => key(a) > key(b)
  }

  lemma ByKeyDescIsOrder<T(!new)>(key: T -> int)
    ensures StrictWeakOrder(ByKeyDesc(key))
  {
  }
}
