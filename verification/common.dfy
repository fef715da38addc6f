/**
 * Shared vocabulary: optional values and the parameter records that stand
 * in for Revit elements throughout the model.
 */
module Common {

  datatype Option<T> = None | Some(value: T)

  /** Revit's StorageType enumeration. */
  datatype StorageType = NoStorage | StrStorage | IntStorage | DoubleStorage | IdStorage

  /** The value a parameter holds; only the case matching its storage is read. */
  datatype ParamValue = StrVal(s: string) | IntVal(i: int) | DoubleVal(d: real) | IdVal(id: int)

  /** An (r, g, b) colour as the scripts pass it around. */
  datatype Rgb = Rgb(r: int, g: int, b: int)

  /** A Revit parameter reduced to what the extension reads and writes. */
  datatype Param = Param(storage: StorageType, hasValue: bool, readOnly: bool, value: ParamValue)

  /** ElementId.InvalidElementId. */
  const InvalidId: int := -1

  /** An id that is neither None nor InvalidElementId. */
  predicate ValidId(id: Option<int>)
  {
    id.Some? && id.value != InvalidId
  }

  /** Python's `a or b` on optional values: the first one that is present. */
  function OrElse<T>(a: Option<T>, b: T): (r: T)
    ensures a.Some? ==> r == a.value
    ensures a.None? ==> r == b
  {
    if a.Some? then a.value else b
  }

  /** `dict.get(k)` on a Dafny map. */
  function Get<K, V>(m: map<K, V>, k: K): (r: Option<V>)
    ensures r.Some? <==> k in m
    ensures r.Some? ==> r.value == m[k]
  {
    if k in m then Some(m[k]) else None
  }

  /** Number of elements of `s` satisfying `p`. */
  function CountIf<T>(s: seq<T>, p: T -> bool): (n: nat)
    ensures n <= |s|
  {
    if s == [] then 0 else (if p(s[0]) then 1 else 0) + CountIf(s[1..], p)
  }

  lemma {:induction false} CountIfSnoc<T>(s: seq<T>, x: T, p: T -> bool)
    ensures CountIf(s + [x], p) == CountIf(s, p) + (if p(x) then 1 else 0)
  {
    if s == [] {
      assert s + [x] == [x];
    } else {
      assert (s + [x])[1..] == s[1..] + [x];
      CountIfSnoc(s[1..], x, p);
    }
  }

  /** No element is counted exactly when none satisfies `p`. */
  lemma {:induction false} CountIfZeroIff<T>(s: seq<T>, p: T -> bool)
    ensures CountIf(s, p) == 0 <==> forall k :: 0 <= k < |s| ==> !p(s[k])
  {
    if s != [] {
      CountIfZeroIff(s[1..], p);
      assert forall k :: 1 <= k < |s| ==> s[1..][k - 1] == s[k];
    }
  }

  /** Elements of `s` satisfying `p`, in order. */
  function Filter<T>(s: seq<T>, p: T -> bool): (r: seq<T>)
    ensures |r| <= |s|
    ensures forall x :: x in r ==> x in s && p(x)
    ensures forall x :: x in s && p(x) ==> x in r
  {
    if s == [] then [] else (if p(s[0]) then [s[0]] else []) + Filter(s[1..], p)
  }

  lemma {:induction false} FilterCount<T>(s: seq<T>, p: T -> bool)
    ensures |Filter(s, p)| == CountIf(s, p)
  {
    if s != [] {
      FilterCount(s[1..], p);
    }
  }

  /** Filtering a concatenation filters each part. */
  lemma {:induction false} FilterAppend<T>(a: seq<T>, b: seq<T>, p: T -> bool)
    ensures Filter(a + b, p) == Filter(a, p) + Filter(b, p)
  {
    if a == [] {
      assert a + b == b;
    } else {
      var ab := a + b;
      assert ab[0] == a[0] && ab[1..] == a[1..] + b;
      var head := if p(a[0]) then [a[0]] else [];
      FilterAppend(a[1..], b, p);
      assert Filter(ab, p) == head + (Filter(a[1..], p) + Filter(b, p));
      assert Filter(a, p) == head + Filter(a[1..], p);
    }
  }

  /** Two filters in a row keep what both predicates accept. */
  lemma {:induction false} FilterFilter<T>(s: seq<T>, p: T -> bool, q: T -> bool, both: T -> bool)
    requires forall x :: both(x) == (p(x) && q(x))
    ensures Filter(Filter(s, p), q) == Filter(s, both)
  {
    if s != [] {
      var rest := Filter(s[1..], p);
      FilterFilter(s[1..], p, q, both);
      if p(s[0]) {
        var a := [s[0]] + rest;
        assert Filter(s, p) == a;
        assert a[1..] == rest;
        assert Filter(a, q) == (if q(s[0]) then [s[0]] else []) + Filter(rest, q);
      } else {
        assert Filter(s, p) == rest;
        assert !both(s[0]);
      }
    }
  }

  /** Sum of a sequence of naturals. */
  function Sum(s: seq<nat>): nat
  {
    if s == [] then 0 else s[0] + Sum(s[1..])
  }

  lemma {:induction false} SumAppend(a: seq<nat>, b: seq<nat>)
    ensures Sum(a + b) == Sum(a) + Sum(b)
  {
    if a == [] {
      assert a + b == b;
    } else {
      assert (a + b)[1..] == a[1..] + b;
      SumAppend(a[1..], b);
    }
  }
}
