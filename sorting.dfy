/** Python's `sorted`: a stable sort, here an insertion sort parameterised by
    the comparison `le` ("a may come before b"). Python sorts with Timsort;
    every stable sort produces the same output, so the model proves the
    properties that pin that output down (ordered, a permutation, stable)
    rather than following Timsort's steps. Also Python's ordering of strings
    and of tuples. */
module Sorting {

  /** `le` is total and transitive: what `sorted` needs of `<=`. */
  ghost predicate TotalPreorder<T(!new)>(le: (T, T) -> bool) {
    && (forall a, b :: le(a, b) || le(b, a))
    && (forall a, b, c :: le(a, b) && le(b, c) ==> le(a, c))
  }

  ghost predicate SortedBy<T>(s: seq<T>, le: (T, T) -> bool) {
    forall i, j :: 0 <= i < j < |s| ==> le(s[i], s[j])
  }

  /** Puts `x` in front of the first element it may precede. */
  function Insert<T>(x: T, s: seq<T>, le: (T, T) -> bool): (r: seq<T>)
    ensures |r| == |s| + 1
    ensures multiset(r) == multiset(s) + multiset{x}
  {
    if s == [] then [x]
    else if le(x, s[0]) then [x] + s
    else
      assert s == [s[0]] + s[1..];
      [s[0]] + Insert(x, s[1..], le)
  }

  /** `sorted(s)` with `le` as the order. */
  function Sort<T>(s: seq<T>, le: (T, T) -> bool): (r: seq<T>)
    ensures |r| == |s|
    ensures multiset(r) == multiset(s)
  {
    if s == [] then []
    else
      assert s == [s[0]] + s[1..];
      Insert(s[0], Sort(s[1..], le), le)
  }

  lemma {:induction false} InsertSorted<T(!new)>(x: T, s: seq<T>, le: (T, T) -> bool)
    requires TotalPreorder(le) && SortedBy(s, le)
    ensures SortedBy(Insert(x, s, le), le)
    decreases |s|
  {
    if s == [] {
    } else if le(x, s[0]) {
      assert Insert(x, s, le) == [x] + s;
      forall k | 0 <= k < |s| ensures le(x, s[k]) {
        if k > 0 {
          assert le(s[0], s[k]);
        }
      }
      ConsSorted(x, s, le);
    } else {
      var t := Insert(x, s[1..], le);
      SortedTail(s, le);
      InsertSorted(x, s[1..], le);
      InsertElements(x, s[1..], le);
      forall k | 0 <= k < |t| ensures le(s[0], t[k]) {
        if t[k] == x {
          assert le(x, s[0]) || le(s[0], x);
        } else {
          var m :| 0 <= m < |s[1..]| && s[1..][m] == t[k];
          assert s[m + 1] == t[k];
        }
      }
      assert Insert(x, s, le) == [s[0]] + t;
      ConsSorted(s[0], t, le);
    }
  }

  /** Every element of `Insert(x, s, le)` is `x` or an element of `s`. */
  lemma InsertElements<T>(x: T, s: seq<T>, le: (T, T) -> bool)
    ensures forall k :: 0 <= k < |Insert(x, s, le)| ==>
      Insert(x, s, le)[k] == x || exists m :: 0 <= m < |s| && s[m] == Insert(x, s, le)[k]
  {
    var r := Insert(x, s, le);
    forall k | 0 <= k < |r| ensures r[k] == x || exists m :: 0 <= m < |s| && s[m] == r[k] {
      assert r[k] in multiset(r);
      if r[k] != x {
        assert r[k] in multiset(s);
        assert r[k] in s;
      }
    }
  }

  lemma SortedTail<T>(s: seq<T>, le: (T, T) -> bool)
    requires SortedBy(s, le) && s != []
    ensures SortedBy(s[1..], le)
  {
    forall i, j | 0 <= i < j < |s[1..]| ensures le(s[1..][i], s[1..][j]) {
      assert s[1..][i] == s[i + 1] && s[1..][j] == s[j + 1];
    }
  }

  lemma ConsSorted<T>(y: T, t: seq<T>, le: (T, T) -> bool)
    requires SortedBy(t, le)
    requires forall k :: 0 <= k < |t| ==> le(y, t[k])
    ensures SortedBy([y] + t, le)
  {
    var u := [y] + t;
    forall i, j | 0 <= i < j < |u| ensures le(u[i], u[j]) {
      assert u[j] == t[j - 1];
      if i > 0 {
        assert u[i] == t[i - 1];
      }
    }
  }

  /** `sorted` returns its input in order. */
  lemma {:induction false} SortSorted<T(!new)>(s: seq<T>, le: (T, T) -> bool)
    requires TotalPreorder(le)
    ensures SortedBy(Sort(s, le), le)
    decreases |s|
  {
    if s != [] {
      SortSorted(s[1..], le);
      InsertSorted(s[0], Sort(s[1..], le), le);
    }
  }

  // ---------------------------------------------------------------------
  // Stability, for an order given by an integer key
  // ---------------------------------------------------------------------

  /** The elements of `s` whose key is `k`, in order. */
  function FilterKey<T>(s: seq<T>, key: T -> int, k: int): seq<T> {
    if s == [] then []
    else (if key(s[0]) == k then [s[0]] else []) + FilterKey(s[1..], key, k)
  }

  lemma {:induction false} FilterKeyAppend<T>(a: seq<T>, b: seq<T>, key: T -> int, k: int)
    ensures FilterKey(a + b, key, k) == FilterKey(a, key, k) + FilterKey(b, key, k)
    decreases |a|
  {
    if a != [] {
      assert (a + b)[0] == a[0];
      assert (a + b)[1..] == a[1..] + b;
      FilterKeyAppend(a[1..], b, key, k);
    } else {
      assert a + b == b;
    }
  }

  lemma {:induction false} InsertFilterKey<T>(x: T, s: seq<T>, le: (T, T) -> bool, key: T -> int, k: int)
    requires forall a, b :: le(a, b) == (key(a) <= key(b))
    ensures FilterKey(Insert(x, s, le), key, k)
         == (if key(x) == k then [x] else []) + FilterKey(s, key, k)
    decreases |s|
  {
    if s == [] {
      FilterKeyOne(x, key, k);
    } else if le(x, s[0]) {
      InsertFront(x, s, le, key, k);
    } else {
      InsertFilterKey(x, s[1..], le, key, k);
      InsertBehind(x, s, le, key, k);
    }
  }

  lemma InsertFront<T>(x: T, s: seq<T>, le: (T, T) -> bool, key: T -> int, k: int)
    requires s != [] && le(x, s[0])
    ensures FilterKey(Insert(x, s, le), key, k)
         == (if key(x) == k then [x] else []) + FilterKey(s, key, k)
  {
    assert Insert(x, s, le) == [x] + s;
    FilterKeyAppend([x], s, key, k);
    FilterKeyOne(x, key, k);
  }

  lemma InsertBehind<T>(x: T, s: seq<T>, le: (T, T) -> bool, key: T -> int, k: int)
    requires s != [] && !le(x, s[0]) && key(s[0]) < key(x)
    requires FilterKey(Insert(x, s[1..], le), key, k)
         == (if key(x) == k then [x] else []) + FilterKey(s[1..], key, k)
    ensures FilterKey(Insert(x, s, le), key, k)
         == (if key(x) == k then [x] else []) + FilterKey(s, key, k)
  {
    var t := Insert(x, s[1..], le);
    assert Insert(x, s, le) == [s[0]] + t;
    assert s == [s[0]] + s[1..];
    FilterBehind(s[0], t, s[1..], key, k, if key(x) == k then [x] else []);
  }

  /** Filtering `[y] + t`, where `t` filters to `fx + FilterKey(rest)` and
      `y` and `fx` never both pass the filter. */
  lemma FilterBehind<T>(y: T, t: seq<T>, rest: seq<T>, key: T -> int, k: int, fx: seq<T>)
    requires fx == [] || key(y) != k
    requires FilterKey(t, key, k) == fx + FilterKey(rest, key, k)
    ensures FilterKey([y] + t, key, k) == fx + FilterKey([y] + rest, key, k)
  {
    FilterKeyAppend([y], t, key, k);
    FilterKeyAppend([y], rest, key, k);
    FilterKeyOne(y, key, k);
    var f0 := FilterKey([y], key, k);
    SwapEmpty(f0, fx, FilterKey(rest, key, k));
  }

  lemma SwapEmpty<T>(a: seq<T>, b: seq<T>, c: seq<T>)
    requires a == [] || b == []
    ensures a + (b + c) == b + (a + c)
  {
    if a == [] {
      assert a + (b + c) == b + c;
      assert a + c == c;
    } else {
      assert b + c == c;
      assert b + (a + c) == a + c;
    }
  }

  lemma FilterKeyOne<T>(x: T, key: T -> int, k: int)
    ensures FilterKey([x], key, k) == if key(x) == k then [x] else []
  {
    assert [x][1..] == [];
  }

  /** `sorted(..., key=key)` is stable: elements with equal keys keep their
      relative order. */
  lemma {:induction false} SortStable<T>(s: seq<T>, le: (T, T) -> bool, key: T -> int, k: int)
    requires forall a, b :: le(a, b) == (key(a) <= key(b))
    ensures FilterKey(Sort(s, le), key, k) == FilterKey(s, key, k)
    decreases |s|
  {
    if s != [] {
      SortStable(s[1..], le, key, k);
      InsertFilterKey(s[0], Sort(s[1..], le), le, key, k);
    }
  }

  /** Comparing by an integer key is a total preorder. */
  lemma KeyOrderTotal<T(!new)>(le: (T, T) -> bool, key: T -> int)
    requires forall a, b :: le(a, b) == (key(a) <= key(b))
    ensures TotalPreorder(le)
  {
  }

  // ---------------------------------------------------------------------
  // Python's comparison of strings (by code point) and of tuples
  // ---------------------------------------------------------------------

  /** `a <= b` on Python strings. */
  predicate StrLe(a: string, b: string)
    decreases |a|
  {
    a == [] || (b != [] && (a[0] < b[0] || (a[0] == b[0] && StrLe(a[1..], b[1..]))))
  }

  lemma {:induction false} StrLeTotal(a: string, b: string)
    ensures StrLe(a, b) || StrLe(b, a)
    decreases |a|
  {
    if a != [] && b != [] && a[0] == b[0] {
      StrLeTotal(a[1..], b[1..]);
    }
  }

  lemma {:induction false} StrLeTrans(a: string, b: string, c: string)
    requires StrLe(a, b) && StrLe(b, c)
    ensures StrLe(a, c)
    decreases |a|
  {
    if a != [] && a[0] == b[0] && b[0] == c[0] {
      StrLeTrans(a[1..], b[1..], c[1..]);
    }
  }

  lemma {:induction false} StrLeAntisym(a: string, b: string)
    requires StrLe(a, b) && StrLe(b, a)
    ensures a == b
    decreases |a|
  {
    if a != [] {
      StrLeAntisym(a[1..], b[1..]);
      assert a == [a[0]] + a[1..] && b == [b[0]] + b[1..];
    }
  }

  /** Tuple order on pairs of strings: `(a1, a2) <= (b1, b2)` in Python. */
  predicate PairLe(a: (string, string), b: (string, string)) {
    (StrLe(a.0, b.0) && a.0 != b.0) || (a.0 == b.0 && StrLe(a.1, b.1))
  }

  /** Tuple order on (integer, string) pairs. */
  predicate IntStrLe(a: (int, string), b: (int, string)) {
    a.0 < b.0 || (a.0 == b.0 && StrLe(a.1, b.1))
  }

  lemma PairLeTotalPreorder()
    ensures TotalPreorder(PairLe)
  {
    forall a: (string, string), b: (string, string) ensures PairLe(a, b) || PairLe(b, a) {
      StrLeTotal(a.0, b.0);
      StrLeTotal(a.1, b.1);
    }
    forall a: (string, string), b: (string, string), c: (string, string) | PairLe(a, b) && PairLe(b, c)
      ensures PairLe(a, c)
    {
      if a.0 == b.0 && b.0 == c.0 {
        StrLeTrans(a.1, b.1, c.1);
      } else if a.0 != b.0 && b.0 != c.0 {
        StrLeTrans(a.0, b.0, c.0);
        if a.0 == c.0 {
          StrLeAntisym(a.0, b.0);
        }
      }
    }
  }

  lemma IntStrLeTotalPreorder()
    ensures TotalPreorder(IntStrLe)
  {
    forall a: (int, string), b: (int, string) ensures IntStrLe(a, b) || IntStrLe(b, a) {
      StrLeTotal(a.1, b.1);
    }
    forall a: (int, string), b: (int, string), c: (int, string) | IntStrLe(a, b) && IntStrLe(b, c)
      ensures IntStrLe(a, c)
    {
      if a.0 == b.0 && b.0 == c.0 {
        StrLeTrans(a.1, b.1, c.1);
      }
    }
  }

  /** With an antisymmetric order there is only one sorted permutation: the
      output of `sorted` on tuples does not depend on the sorting algorithm. */
  lemma {:induction false} SortedPermutationUnique(s: seq<(string, string)>, t: seq<(string, string)>)
    requires SortedBy(s, PairLe) && SortedBy(t, PairLe)
    requires multiset(s) == multiset(t)
    ensures s == t
    decreases |s|
  {
    assert |t| == |s| by { assert |multiset(s)| == |multiset(t)|; }
    if s != [] {
      HeadsEqual(s, t);
      assert s == [s[0]] + s[1..] && t == [t[0]] + t[1..];
      assert multiset(s) == multiset{s[0]} + multiset(s[1..]);
      assert multiset(t) == multiset{t[0]} + multiset(t[1..]);
      assert multiset(s[1..]) == multiset(s) - multiset{s[0]};
      assert multiset(t[1..]) == multiset(t) - multiset{t[0]};
      SortedTail(s, PairLe);
      SortedTail(t, PairLe);
      SortedPermutationUnique(s[1..], t[1..]);
    }
  }

  lemma HeadsEqual(s: seq<(string, string)>, t: seq<(string, string)>)
    requires SortedBy(s, PairLe) && SortedBy(t, PairLe)
    requires multiset(s) == multiset(t) && s != [] && t != []
    ensures s[0] == t[0]
  {
    assert s[0] in multiset(t);
    var i :| 0 <= i < |t| && t[i] == s[0];
    assert t[0] in multiset(s);
    var j :| 0 <= j < |s| && s[j] == t[0];
    assert i == 0 || PairLe(t[0], t[i]);
    assert j == 0 || PairLe(s[0], s[j]);
    if i != 0 && j != 0 {
      PairAntisym(s[0], t[0]);
    }
  }

  lemma PairAntisym(a: (string, string), b: (string, string))
    requires PairLe(a, b) && PairLe(b, a)
    ensures a == b
  {
    if a.0 == b.0 {
      StrLeAntisym(a.1, b.1);
    } else {
      StrLeAntisym(a.0, b.0);
    }
  }
}
