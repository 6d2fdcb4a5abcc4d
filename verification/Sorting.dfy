/** The array sort of the source, for any total preorder. */
module Sorting {
  ghost predicate TotalPreorder<T(!new)>(le: (T, T) -> bool) {
    && (forall a, b :: le(a, b) || le(b, a))
    && (forall a, b, c :: le(a, b) && le(b, c) ==> le(a, c))
  }

  ghost predicate SortedBy<T>(le: (T, T) -> bool, s: seq<T>) {
    forall i, j | 0 <= i < j < |s| :: le(s[i], s[j])
  }

  function Insert<T>(le: (T, T) -> bool, x: T, s: seq<T>): seq<T> {
    if s == [] || le(x, s[0]) then [x] + s else [s[0]] + Insert(le, x, s[1..])
  }

  function Sort<T>(le: (T, T) -> bool, s: seq<T>): seq<T> {
    if s == [] then [] else Insert(le, s[0], Sort(le, s[1..]))
  }

  lemma SortedCons<T>(le: (T, T) -> bool, x: T, s: seq<T>)
    requires SortedBy(le, s) && forall y | y in s :: le(x, y)
    ensures SortedBy(le, [x] + s)
  {
    var t := [x] + s;
    assert forall j | 0 < j < |t| :: t[j] == s[j - 1] && t[j] in s;
  }

  lemma {:induction false} InsertElements<T>(le: (T, T) -> bool, x: T, s: seq<T>)
    ensures multiset(Insert(le, x, s)) == multiset(s) + multiset{x}
  {
    if s != [] && !le(x, s[0]) {
      InsertElements(le, x, s[1..]);
      assert s == [s[0]] + s[1..];
    }
  }

  lemma {:induction false} InsertSorted<T(!new)>(le: (T, T) -> bool, x: T, s: seq<T>)
    requires TotalPreorder(le) && SortedBy(le, s)
    ensures SortedBy(le, Insert(le, x, s))
  {
    if s == [] || le(x, s[0]) {
      forall y | y in s ensures le(x, y) {
        assert y == s[0] || le(s[0], y);
      }
      SortedCons(le, x, s);
    } else {
      var rest := Insert(le, x, s[1..]);
      InsertSorted(le, x, s[1..]);
      InsertElements(le, x, s[1..]);
      forall y | y in rest ensures le(s[0], y) {
        assert y in multiset(rest);
        assert y == x || y in s[1..];
      }
      SortedCons(le, s[0], rest);
    }
  }

  /** Sort yields a sorted permutation. */
  lemma {:induction false} SortOk<T(!new)>(le: (T, T) -> bool, s: seq<T>)
    requires TotalPreorder(le)
    ensures SortedBy(le, Sort(le, s)) && multiset(Sort(le, s)) == multiset(s)
    ensures |Sort(le, s)| == |s| && forall x :: x in Sort(le, s) <==> x in s
  {
    if s != [] {
      SortOk(le, s[1..]);
      InsertSorted(le, s[0], Sort(le, s[1..]));
      InsertElements(le, s[0], Sort(le, s[1..]));
      assert s == [s[0]] + s[1..];
    }
    var r := Sort(le, s);
    assert multiset(r) == multiset(s);
    assert |r| == |multiset(r)| && |s| == |multiset(s)|;
    assert forall x :: (x in r <==> x in multiset(r)) && (x in s <==> x in multiset(s));
  }
}
