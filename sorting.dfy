/**
 * A stable sort by key, standing for Kotlin's `sortedBy` and for the ordering that
 * `toSortedMap()` puts on a map's entries.
 */
module Sorting {

  ghost predicate TotalPreorder<K(!new)>(le: (K, K) -> bool) {
    && (forall a, b :: le(a, b) || le(b, a))
    && (forall a, b, c :: le(a, b) && le(b, c) ==> le(a, c))
  }

  ghost predicate SortedBy<T, K>(s: seq<T>, key: T -> K, le: (K, K) -> bool) {
    forall i, j :: 0 <= i < j < |s| ==> le(key(s[i]), key(s[j]))
  }

  /** Puts `x` in front of the first element whose key is not below `x`'s. */
  function InsertBy<T, K>(x: T, s: seq<T>, key: T -> K, le: (K, K) -> bool): (r: seq<T>)
    ensures |r| == |s| + 1
    decreases |s|
  {
    if s == [] || le(key(x), key(s[0])) then [x] + s
    else [s[0]] + InsertBy(x, s[1..], key, le)
  }

  /** Insertion sort; an element goes in front of the equal-keyed elements that followed it, so the sort is stable. */
  function SortBy<T, K>(s: seq<T>, key: T -> K, le: (K, K) -> bool): (r: seq<T>)
    ensures |r| == |s|
    decreases |s|
  {
    if s == [] then [] else InsertBy(s[0], SortBy(s[1..], key, le), key, le)
  }

  /** An element whose key is below every key of a sorted sequence may go in front of it. */
  lemma PrependSorted<T, K(!new)>(x: T, s: seq<T>, key: T -> K, le: (K, K) -> bool)
    requires TotalPreorder(le)
    requires SortedBy(s, key, le)
    requires forall j :: 0 <= j < |s| ==> le(key(x), key(s[j]))
    ensures SortedBy([x] + s, key, le)
  {
    var r := [x] + s;
    forall i, j | 0 <= i < j < |r| ensures le(key(r[i]), key(r[j])) {
      if i > 0 {
        assert r[i] == s[i - 1] && r[j] == s[j - 1];
      }
    }
  }

  /** The first key of a sorted sequence is below all of its keys. */
  lemma FirstIsLeast<T, K(!new)>(x: T, s: seq<T>, key: T -> K, le: (K, K) -> bool)
    requires TotalPreorder(le)
    requires SortedBy(s, key, le)
    requires s != [] && le(key(x), key(s[0]))
    ensures forall j :: 0 <= j < |s| ==> le(key(x), key(s[j]))
  {
    forall j | 0 <= j < |s| ensures le(key(x), key(s[j])) {
      if j > 0 {
        assert le(key(s[0]), key(s[j]));
      }
    }
  }

  /** A lower bound of `x` and of every element of `s` bounds every element of a rearrangement of `s + [x]`. */
  lemma LowerBoundKept<T, K>(y: T, x: T, s: seq<T>, t: seq<T>, key: T -> K, le: (K, K) -> bool)
    requires le(key(y), key(x))
    requires forall j :: 0 <= j < |s| ==> le(key(y), key(s[j]))
    requires multiset(t) == multiset(s) + multiset{x}
    ensures forall j :: 0 <= j < |t| ==> le(key(y), key(t[j]))
  {
    forall j | 0 <= j < |t| ensures le(key(y), key(t[j])) {
      assert t[j] in multiset(t);
      if t[j] != x {
        assert t[j] in multiset(s);
        var k :| 0 <= k < |s| && s[k] == t[j];
      }
    }
  }

  lemma {:induction false} InsertByCorrect<T, K(!new)>(x: T, s: seq<T>, key: T -> K, le: (K, K) -> bool)
    requires TotalPreorder(le)
    requires SortedBy(s, key, le)
    ensures SortedBy(InsertBy(x, s, key, le), key, le)
    ensures multiset(InsertBy(x, s, key, le)) == multiset(s) + multiset{x}
    decreases |s|
  {
    if s == [] {
      PrependSorted(x, s, key, le);
    } else if le(key(x), key(s[0])) {
      FirstIsLeast(x, s, key, le);
      PrependSorted(x, s, key, le);
    } else {
      var tail := InsertBy(x, s[1..], key, le);
      InsertByCorrect(x, s[1..], key, le);
      assert s == [s[0]] + s[1..];
      forall j | 0 <= j < |s[1..]| ensures le(key(s[0]), key(s[1..][j])) {
        assert s[1..][j] == s[j + 1];
      }
      LowerBoundKept(s[0], x, s[1..], tail, key, le);
      PrependSorted(s[0], tail, key, le);
    }
  }

  /** The sort orders by key and only rearranges its input. */
  lemma {:induction false} SortByCorrect<T, K(!new)>(s: seq<T>, key: T -> K, le: (K, K) -> bool)
    requires TotalPreorder(le)
    ensures SortedBy(SortBy(s, key, le), key, le)
    ensures multiset(SortBy(s, key, le)) == multiset(s)
    decreases |s|
  {
    if s != [] {
      SortByCorrect(s[1..], key, le);
      InsertByCorrect(s[0], SortBy(s[1..], key, le), key, le);
      assert s == [s[0]] + s[1..];
    }
  }

  /** Whether `y`'s key is tied with `k`: each is below the other. */
  predicate TiedWith<T, K>(y: T, key: T -> K, le: (K, K) -> bool, k: K) {
    le(key(y), k) && le(k, key(y))
  }

  /** The elements of `s` whose key is tied with `k`, in their order in `s`. */
  function Tied<T, K>(s: seq<T>, key: T -> K, le: (K, K) -> bool, k: K): seq<T>
    decreases |s|
  {
    if s == [] then []
    else (if TiedWith(s[0], key, le, k) then [s[0]] else []) + Tied(s[1..], key, le, k)
  }

  lemma TiedCons<T, K>(x: T, s: seq<T>, key: T -> K, le: (K, K) -> bool, k: K)
    ensures Tied([x] + s, key, le, k) == (if TiedWith(x, key, le, k) then [x] else []) + Tied(s, key, le, k)
  {
    assert ([x] + s)[1..] == s;
  }

  /** When `x`'s key is not below `y`'s, `x` and `y` are not both tied with one key. */
  lemma NotBothTied<T, K(!new)>(x: T, y: T, key: T -> K, le: (K, K) -> bool, k: K)
    requires TotalPreorder(le)
    requires !le(key(x), key(y))
    ensures !(TiedWith(x, key, le, k) && TiedWith(y, key, le, k))
  {
  }

  /** Inserting `x` adds it to its own tie class and passes over no element tied with it. */
  lemma {:induction false} InsertByTied<T, K(!new)>(x: T, s: seq<T>, key: T -> K, le: (K, K) -> bool, k: K)
    requires TotalPreorder(le)
    ensures Tied(InsertBy(x, s, key, le), key, le, k) ==
      (if TiedWith(x, key, le, k) then [x] else []) + Tied(s, key, le, k)
    decreases |s|
  {
    if s == [] || le(key(x), key(s[0])) {
      TiedCons(x, s, key, le, k);
    } else {
      var rest := Tied(s[1..], key, le, k);
      InsertByTied(x, s[1..], key, le, k);
      TiedCons(s[0], InsertBy(x, s[1..], key, le), key, le, k);
      TiedCons(s[0], s[1..], key, le, k);
      assert s == [s[0]] + s[1..];
      NotBothTied(x, s[0], key, le, k);
      if TiedWith(x, key, le, k) {
        assert Tied(s, key, le, k) == rest;
        assert Tied(InsertBy(x, s, key, le), key, le, k) == [x] + rest;
      } else if TiedWith(s[0], key, le, k) {
        assert Tied(InsertBy(x, s, key, le), key, le, k) == [s[0]] + rest;
      } else {
        assert Tied(InsertBy(x, s, key, le), key, le, k) == rest;
      }
    }
  }

  /** The sort is stable: elements with tied keys keep their relative order. */
  lemma {:induction false} SortByStable<T, K(!new)>(s: seq<T>, key: T -> K, le: (K, K) -> bool, k: K)
    requires TotalPreorder(le)
    ensures Tied(SortBy(s, key, le), key, le, k) == Tied(s, key, le, k)
    decreases |s|
  {
    if s != [] {
      SortByStable(s[1..], key, le, k);
      InsertByTied(s[0], SortBy(s[1..], key, le), key, le, k);
      TiedCons(s[0], s[1..], key, le, k);
      assert s == [s[0]] + s[1..];
    }
  }
}
