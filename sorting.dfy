/// A stable sort, the behaviour `Array.prototype.sort` guarantees since
/// ECMAScript 2019, stated over a comparator `le` ("a sorts no later than b").
/// Insertion from the right keeps equal elements in their input order.
module Sorting {

  ghost predicate Total<T(!new)>(le: (T, T) -> bool) {
    forall x, y :: le(x, y) || le(y, x)
  }

  ghost predicate Transitive<T(!new)>(le: (T, T) -> bool) {
    forall x, y, z :: le(x, y) && le(y, z) ==> le(x, z)
  }

  /** What a JavaScript comparator must be for `sort` to be well defined. */
  ghost predicate TotalPreorder<T(!new)>(le: (T, T) -> bool) {
    Total(le) && Transitive(le)
  }

  predicate Sorted<T>(s: seq<T>, le: (T, T) -> bool) {
    forall i, j :: 0 <= i < j < |s| ==> le(s[i], s[j])
  }

  /** Puts `x` before the first element it sorts no later than. */
  function Insert<T>(x: T, s: seq<T>, le: (T, T) -> bool): (r: seq<T>)
    ensures multiset(r) == multiset(s) + multiset{x}
  {
    if s == [] then [x]
    else if le(x, s[0]) then [x] + s
    else
      assert s == [s[0]] + s[1..];
      [s[0]] + Insert(x, s[1..], le)
  }

  /** The stable sort of `s` by `le`. */
  function SortBy<T>(s: seq<T>, le: (T, T) -> bool): (r: seq<T>)
    ensures multiset(r) == multiset(s) && |r| == |s|
  {
    if s == [] then []
    else
      assert s == [s[0]] + s[1..];
      Insert(s[0], SortBy(s[1..], le), le)
  }

  lemma {:induction false} InsertSorted<T(!new)>(x: T, s: seq<T>, le: (T, T) -> bool)
    requires TotalPreorder(le) && Sorted(s, le)
    ensures Sorted(Insert(x, s, le), le)
  {
    if s != [] && !le(x, s[0]) {
      InsertSorted(x, s[1..], le);
      var r := Insert(x, s, le);
      assert le(s[0], x);
      forall k | 1 <= k < |r| ensures le(s[0], r[k]) {
        assert r[k] in multiset(s[1..]) + multiset{x} by {
          assert r[k] in r[1..];
        }
      }
    }
  }

  /** The result of SortBy is sorted by any total preorder. */
  lemma {:induction false} SortBySorted<T(!new)>(s: seq<T>, le: (T, T) -> bool)
    requires TotalPreorder(le)
    ensures Sorted(SortBy(s, le), le)
  {
    if s != [] {
      SortBySorted(s[1..], le);
      InsertSorted(s[0], SortBy(s[1..], le), le);
    }
  }

  /** The elements of `s` that `le` ranks equal to `x`, in their order in `s`. */
  function EqualRanked<T>(s: seq<T>, x: T, le: (T, T) -> bool): seq<T>
  {
    if s == [] then []
    else if le(x, s[0]) && le(s[0], x) then [s[0]] + EqualRanked(s[1..], x, le)
    else EqualRanked(s[1..], x, le)
  }

  lemma {:induction false} InsertStable<T(!new)>(y: T, s: seq<T>, x: T, le: (T, T) -> bool)
    requires TotalPreorder(le)
    ensures EqualRanked(Insert(y, s, le), x, le)
         == if le(x, y) && le(y, x) then [y] + EqualRanked(s, x, le) else EqualRanked(s, x, le)
  {
    if s != [] && !le(y, s[0]) {
      InsertStable(y, s[1..], x, le);
      assert Insert(y, s, le)[1..] == Insert(y, s[1..], le);
      if le(x, y) && le(y, x) {
        // s[0] ranks strictly before y, so it cannot rank equal to x
        assert !le(x, s[0]);
      }
    } else if s != [] {
      assert Insert(y, s, le) == [y] + s;
      assert ([y] + s)[1..] == s;
    }
  }

  /** Stability: within every class of equally ranked elements, sorting keeps the input order. */
  lemma {:induction false} SortByStable<T(!new)>(s: seq<T>, x: T, le: (T, T) -> bool)
    requires TotalPreorder(le)
    ensures EqualRanked(SortBy(s, le), x, le) == EqualRanked(s, x, le)
  {
    if s != [] {
      SortByStable(s[1..], x, le);
      InsertStable(s[0], SortBy(s[1..], le), x, le);
    }
  }
}
