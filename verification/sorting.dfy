/**
 * Python's `sorted(xs, key=...)` / `list.sort(key=...)`: a STABLE sort.
 * The order is given as a comparator `le` (`le(a, b)` when key(a) <= key(b);
 * for `reverse=True`, when key(a) >= key(b), which Python also keeps stable).
 */
module Sorting {

  /** `le` is total and transitive, as a comparison of keys is. */
  ghost predicate TotalPreorder<T(!new)>(le: (T, T) -> bool)
  {
    (forall a, b :: le(a, b) || le(b, a)) &&
    (forall a, b, c :: le(a, b) && le(b, c) ==> le(a, c))
  }

  predicate Sorted<T>(s: seq<T>, le: (T, T) -> bool)
  {
    forall i, j :: 0 <= i < j < |s| ==> le(s[i], s[j])
  }

  /** Same key: each is `le` the other. */
  predicate Equiv<T>(le: (T, T) -> bool, a: T, b: T)
  {
    le(a, b) && le(b, a)
  }

  /** The elements of `s` whose key equals that of `z`, in their order in `s`. */
  function Class<T>(s: seq<T>, z: T, le: (T, T) -> bool): seq<T>
  {
    if s == [] then []
    else (if Equiv(le, s[0], z) then [s[0]] else []) + Class(s[1..], z, le)
  }

  /** Insert `x` before the first element whose key is not smaller. */
  function Insert<T>(x: T, s: seq<T>, le: (T, T) -> bool): (r: seq<T>)
    ensures multiset(r) == multiset(s) + multiset{x}
    ensures |r| == |s| + 1
  {
    if s == [] then [x]
    else if le(x, s[0]) then [x] + s
    else
      assert s == [s[0]] + s[1..];
      [s[0]] + Insert(x, s[1..], le)
  }

  /** Stable insertion sort. */
  function Sort<T>(s: seq<T>, le: (T, T) -> bool): (r: seq<T>)
    ensures multiset(r) == multiset(s)
    ensures |r| == |s|
  {
    if s == [] then []
    else
      assert s == [s[0]] + s[1..];
      Insert(s[0], Sort(s[1..], le), le)
  }

  /** Sorting neither adds nor drops values. */
  lemma SortElems<T(!new)>(s: seq<T>, le: (T, T) -> bool)
    ensures forall x :: x in Sort(s, le) <==> x in s
  {
    var r := Sort(s, le);
    forall x ensures x in r <==> x in s {
      assert x in r <==> x in multiset(r);
      assert x in s <==> x in multiset(s);
    }
  }

  /** A property every input value has, every output value has. */
  lemma SortAll<T(!new)>(s: seq<T>, le: (T, T) -> bool, p: T -> bool)
    requires forall x :: x in s ==> p(x)
    ensures forall i :: 0 <= i < |Sort(s, le)| ==> p(Sort(s, le)[i])
  {
    SortElems(s, le);
    var r := Sort(s, le);
    forall i | 0 <= i < |r| ensures p(r[i]) {
      assert r[i] in r;
      assert r[i] in s;
    }
  }

  lemma {:induction false} InsertSorted<T(!new)>(x: T, s: seq<T>, le: (T, T) -> bool)
    requires TotalPreorder(le) && Sorted(s, le)
    ensures Sorted(Insert(x, s, le), le)
  {
    if s != [] && !le(x, s[0]) {
      InsertSorted(x, s[1..], le);
      var r := Insert(x, s[1..], le);
      forall k | 0 <= k < |r| ensures le(s[0], r[k]) {
        assert r[k] in multiset(r);
        assert r[k] in multiset(s[1..]) + multiset{x};
        if r[k] != x {
          assert r[k] in s[1..];
          var j :| 0 <= j < |s[1..]| && s[1..][j] == r[k];
          assert s[j + 1] == r[k];
        }
      }
    }
  }

  lemma {:induction false} SortSorted<T(!new)>(s: seq<T>, le: (T, T) -> bool)
    requires TotalPreorder(le)
    ensures Sorted(Sort(s, le), le)
  {
    if s != [] {
      SortSorted(s[1..], le);
      InsertSorted(s[0], Sort(s[1..], le), le);
    }
  }

  lemma {:induction false} ClassAppend<T>(a: seq<T>, b: seq<T>, z: T, le: (T, T) -> bool)
    ensures Class(a + b, z, le) == Class(a, z, le) + Class(b, z, le)
  {
    if a == [] {
      assert a + b == b;
    } else {
      var h := if Equiv(le, a[0], z) then [a[0]] else [];
      assert (a + b)[0] == a[0] && (a + b)[1..] == a[1..] + b;
      assert Class(a + b, z, le) == h + Class(a[1..] + b, z, le);
      ClassAppend(a[1..], b, z, le);
    }
  }

  /** Inserting `x` puts it in front of every element with the same key. */
  lemma {:induction false} InsertClass<T>(x: T, s: seq<T>, z: T, le: (T, T) -> bool)
    requires forall y :: y in s && Equiv(le, x, z) && Equiv(le, y, z) ==> le(x, y)
    ensures Class(Insert(x, s, le), z, le) == (if Equiv(le, x, z) then [x] else []) + Class(s, z, le)
  {
    if s == [] {
    } else if le(x, s[0]) {
      ClassAppend([x], s, z, le);
    } else {
      var t := Insert(x, s[1..], le);
      var hx := if Equiv(le, x, z) then [x] else [];
      InsertClass(x, s[1..], z, le);
      calc {
        Class(Insert(x, s, le), z, le);
      == { assert Insert(x, s, le) == [s[0]] + t; ClassAppend([s[0]], t, z, le); }
        Class([s[0]], z, le) + (hx + Class(s[1..], z, le));
      == { if Equiv(le, x, z) { assert s[0] in s; } }
        hx + (Class([s[0]], z, le) + Class(s[1..], z, le));
      == { ClassAppend([s[0]], s[1..], z, le); assert [s[0]] + s[1..] == s; }
        hx + Class(s, z, le);
      }
    }
  }

  /**
   * Stability: for every key, the elements carrying it appear in the sorted
   * output in the same order as in the input.
   */
  lemma {:induction false} SortStable<T(!new)>(s: seq<T>, z: T, le: (T, T) -> bool)
    requires TotalPreorder(le)
    ensures Class(Sort(s, le), z, le) == Class(s, z, le)
  {
    if s != [] {
      SortStable(s[1..], z, le);
      var t := Sort(s[1..], le);
      forall y | y in t && Equiv(le, s[0], z) && Equiv(le, y, z) ensures le(s[0], y) {
        assert le(s[0], z) && le(z, y);
      }
      InsertClass(s[0], t, z, le);
    }
  }

  /** No two elements share a key. */
  ghost predicate DistinctBy<T, K>(s: seq<T>, key: T -> K)
  {
    forall i, j :: 0 <= i < j < |s| ==> key(s[i]) != key(s[j])
  }

  lemma {:induction false} InsertDistinctBy<T(!new), K>(x: T, s: seq<T>, le: (T, T) -> bool, key: T -> K)
    requires DistinctBy(s, key) && forall y :: y in s ==> key(y) != key(x)
    ensures DistinctBy(Insert(x, s, le), key)
  {
    if s != [] && !le(x, s[0]) {
      var t := Insert(x, s[1..], le);
      InsertDistinctBy(x, s[1..], le, key);
      forall y | y in t ensures key(y) != key(s[0]) {
        assert y in multiset(t);
        if y != x {
          assert y in s[1..];
        }
      }
    }
  }

  /** Sorting keeps the keys distinct. */
  lemma {:induction false} SortDistinctBy<T(!new), K>(s: seq<T>, le: (T, T) -> bool, key: T -> K)
    requires DistinctBy(s, key)
    ensures DistinctBy(Sort(s, le), key)
  {
    if s != [] {
      SortDistinctBy(s[1..], le, key);
      SortElems(s[1..], le);
      forall y | y in Sort(s[1..], le) ensures key(y) != key(s[0]) {
        assert y in s[1..];
        var j :| 0 <= j < |s[1..]| && s[1..][j] == y;
        assert s[j + 1] == y;
      }
      InsertDistinctBy(s[0], Sort(s[1..], le), le, key);
    }
  }
}
