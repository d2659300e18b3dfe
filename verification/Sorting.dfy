/** Python's stable `sorted` and `list.sort`, as a function of the order on the keys. */
module Sorting {
  ghost predicate TotalPreorder<T(!new)>(le: (T, T) -> bool) {
    (forall x, y :: le(x, y) || le(y, x)) &&
    (forall x, y, z :: le(x, y) && le(y, z) ==> le(x, z))
  }

  function Insert<T>(x: T, s: seq<T>, le: (T, T) -> bool): (r: seq<T>)
    ensures |r| == |s| + 1
  {
    if s == [] || le(x, s[0]) then [x] + s else [s[0]] + Insert(x, s[1..], le)
  }

  function StableSort<T>(s: seq<T>, le: (T, T) -> bool): (r: seq<T>)
    ensures |r| == |s|
  {
    if s == [] then [] else Insert(s[0], StableSort(s[1..], le), le)
  }

  ghost predicate SortedBy<T>(s: seq<T>, le: (T, T) -> bool) {
    forall i, j :: 0 <= i < j < |s| ==> le(s[i], s[j])
  }

  lemma {:induction false} InsertKeepsElements<T>(x: T, s: seq<T>, le: (T, T) -> bool)
    ensures multiset(Insert(x, s, le)) == multiset(s) + multiset{x}
  {
    if s != [] && !le(x, s[0]) {
      InsertKeepsElements(x, s[1..], le);
      assert s == [s[0]] + s[1..];
    }
  }

  lemma {:induction false} SortIsPermutation<T>(s: seq<T>, le: (T, T) -> bool)
    ensures multiset(StableSort(s, le)) == multiset(s)
  {
    if s != [] {
      SortIsPermutation(s[1..], le);
      InsertKeepsElements(s[0], StableSort(s[1..], le), le);
      assert s == [s[0]] + s[1..];
    }
  }

  lemma {:induction false} InsertKeepsSorted<T(!new)>(x: T, s: seq<T>, le: (T, T) -> bool)
    requires TotalPreorder(le) && SortedBy(s, le)
    ensures SortedBy(Insert(x, s, le), le)
  {
    if s != [] && !le(x, s[0]) {
      InsertKeepsSorted(x, s[1..], le);
      var r := Insert(x, s[1..], le);
      InsertKeepsElements(x, s[1..], le);
      forall i | 0 <= i < |r| ensures le(s[0], r[i]) {
        assert r[i] in multiset(r);
        assert r[i] == x || r[i] in s[1..];
      }
    }
  }

  lemma {:induction false} SortIsSorted<T(!new)>(s: seq<T>, le: (T, T) -> bool)
    requires TotalPreorder(le)
    ensures SortedBy(StableSort(s, le), le)
  {
    if s != [] {
      SortIsSorted(s[1..], le);
      InsertKeepsSorted(s[0], StableSort(s[1..], le), le);
    }
  }

  function Filter<T>(s: seq<T>, p: T -> bool): seq<T> {
    if s == [] then [] else (if p(s[0]) then [s[0]] else []) + Filter(s[1..], p)
  }

  lemma {:induction false} InsertKeepsClass<T(!new)>(x: T, s: seq<T>, le: (T, T) -> bool, p: T -> bool)
    requires forall y, z :: p(y) && p(z) ==> le(y, z)
    ensures Filter(Insert(x, s, le), p) == Filter([x] + s, p)
  {
    if s != [] && !le(x, s[0]) {
      InsertKeepsClass(x, s[1..], le, p);
      assert ([x] + s)[1..] == s;
      assert ([x] + s[1..])[1..] == s[1..];
      var r := [s[0]] + Insert(x, s[1..], le);
      assert r[1..] == Insert(x, s[1..], le);
    }
  }

  /** Stability: elements that the order does not tell apart keep their input order. */
  lemma {:induction false} SortKeepsClass<T(!new)>(s: seq<T>, le: (T, T) -> bool, p: T -> bool)
    requires forall y, z :: p(y) && p(z) ==> le(y, z)
    ensures Filter(StableSort(s, le), p) == Filter(s, p)
  {
    if s != [] {
      var t := StableSort(s[1..], le);
      SortKeepsClass(s[1..], le, p);
      InsertKeepsClass(s[0], t, le, p);
      assert ([s[0]] + t)[1..] == t;
    }
  }

  /** `w` holds an element that is least in the order and, among the least, first in the list. */
  ghost predicate FirstLeast<T>(s: seq<T>, le: (T, T) -> bool, w: nat) {
    w < |s| && (forall i :: 0 <= i < |s| ==> le(s[w], s[i])) && (forall i :: 0 <= i < w ==> !le(s[i], s[w]))
  }

  lemma {:induction false} SortHeadIsFirstLeast<T(!new)>(s: seq<T>, le: (T, T) -> bool) returns (w: nat)
    requires TotalPreorder(le) && s != []
    ensures FirstLeast(s, le, w) && StableSort(s, le)[0] == s[w]
  {
    if |s| == 1 {
      w := 0;
      assert le(s[0], s[0]);
    } else {
      var v := SortHeadIsFirstLeast(s[1..], le);
      var t := StableSort(s[1..], le);
      assert t[0] == s[v + 1];
      if le(s[0], t[0]) {
        w := 0;
        forall i | 0 <= i < |s| ensures le(s[0], s[i]) {
          if i > 0 {
            assert le(s[1..][v], s[1..][i - 1]);
          }
        }
      } else {
        w := v + 1;
        forall i | 0 <= i < |s| ensures le(s[w], s[i]) && (i < w ==> !le(s[i], s[w])) {
          if i > 0 {
            assert s[i] == s[1..][i - 1];
          }
        }
      }
    }
  }
}
