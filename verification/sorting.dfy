/** Sorting a fetched list by a comparison, as both the store's sort
    descriptor and the order list's `sort` do. Neither sort is documented as
    stable, so the only promises are the ones stated here: the result is a
    permutation of the input and ordered by the comparison. */
module Sorting {

  /** `le` orders every pair of values and is transitive. */
  ghost predicate TotalPreorder<T(!new)>(le: (T, T) -> bool)
  {
    && (forall a, b :: le(a, b) || le(b, a))
    && (forall a, b, c :: le(a, b) && le(b, c) ==> le(a, c))
  }

  /** Every element is `le` every later element. */
  ghost predicate SortedBy<T>(s: seq<T>, le: (T, T) -> bool)
  {
    forall i, j :: 0 <= i < j < |s| ==> le(s[i], s[j])
  }

  /** Puts `x` in front of the first element it is `le` to. */
  function Insert<T(!new)>(x: T, s: seq<T>, le: (T, T) -> bool): (r: seq<T>)
    ensures multiset(r) == multiset(s) + multiset{x}
    ensures |r| > 0 && (r[0] == x || (|s| > 0 && r[0] == s[0]))
  {
    if |s| == 0 then [x]
    else if le(x, s[0]) then [x] + s
    else
      assert s == [s[0]] + s[1..];
      [s[0]] + Insert(x, s[1..], le)
  }

  /** Inserting into a sorted sequence keeps it sorted. */
  lemma {:induction false} InsertKeepsSorted<T(!new)>(x: T, s: seq<T>, le: (T, T) -> bool)
    requires TotalPreorder(le) && SortedBy(s, le)
    ensures SortedBy(Insert(x, s, le), le)
  {
    if |s| > 0 && !le(x, s[0]) {
      var rest := Insert(x, s[1..], le);
      assert SortedBy(s[1..], le);
      InsertKeepsSorted(x, s[1..], le);
      assert rest[0] == x || rest[0] == s[1];
      assert le(s[0], rest[0]);
      forall j | 0 < j < |rest| ensures le(s[0], rest[j]) {
        assert le(rest[0], rest[j]);
      }
      var r := [s[0]] + rest;
      forall a, b | 0 <= a < b < |r| ensures le(r[a], r[b]) {
        if a > 0 {
          assert r[a] == rest[a - 1] && r[b] == rest[b - 1];
        } else {
          assert r[b] == rest[b - 1];
        }
      }
    } else if |s| > 0 {
      var r := [x] + s;
      forall a, b | 0 <= a < b < |r| ensures le(r[a], r[b]) {
        if a > 0 {
          assert r[a] == s[a - 1] && r[b] == s[b - 1];
        } else {
          assert r[b] == s[b - 1];
          assert le(s[0], s[b - 1]) || b - 1 == 0;
        }
      }
    }
  }

  /** Insertion sort by `le`: a permutation of `s`, ordered by `le`. */
  function SortBy<T(!new)>(s: seq<T>, le: (T, T) -> bool): (r: seq<T>)
    ensures multiset(r) == multiset(s)
    ensures TotalPreorder(le) ==> SortedBy(r, le)
  {
    if |s| == 0 then []
    else
      assert s == [s[0]] + s[1..];
      var sorted := SortBy(s[1..], le);
      assert TotalPreorder(le) ==> SortedBy(Insert(s[0], sorted, le), le) by {
        if TotalPreorder(le) {
          InsertKeepsSorted(s[0], sorted, le);
        }
      }
      Insert(s[0], sorted, le)
  }

  /** A permutation keeps the length and exactly the same elements. */
  lemma PermutationKeepsMembers<T>(a: seq<T>, b: seq<T>)
    requires multiset(a) == multiset(b)
    ensures |a| == |b|
    ensures forall y :: y in a <==> y in b
  {
    assert |multiset(a)| == |multiset(b)|;
    forall y ensures y in a <==> y in b {
      assert y in a <==> y in multiset(a);
      assert y in b <==> y in multiset(b);
    }
  }
}
