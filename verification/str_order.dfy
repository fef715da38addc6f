/**
 * `sorted(set(xs))` over strings: the distinct values of a list in Python's
 * code-point order, each once.
 */
module StrOrder {
  import opened Strs
  import Sorting

  /** Python's `<=` on str. */
  const Le: (string, string) -> bool := (a: string, b: string) => StrLe(a, b)

  lemma LeTotalPreorder()
    ensures Sorting.TotalPreorder(Le)
  {
    forall a: string, b: string ensures Le(a, b) || Le(b, a) {
      StrLeTotal(a, b);
    }
    forall a: string, b: string, c: string | Le(a, b) && Le(b, c) ensures Le(a, c) {
      StrLeTrans(a, b, c);
    }
  }

  /** The values of `xs` in order of first occurrence, each once. */
  function Dedup<T(==,!new)>(xs: seq<T>): (r: seq<T>)
    ensures forall x :: x in r <==> x in xs
  {
    if xs == [] then []
    else
      var init := Dedup(xs[..|xs| - 1]);
      if xs[|xs| - 1] in init then init else init + [xs[|xs| - 1]]
  }

  lemma {:induction false} DedupOnce<T(!new)>(xs: seq<T>)
    ensures forall x :: multiset(Dedup(xs))[x] == if x in xs then 1 else 0
  {
    if xs != [] {
      var init := xs[..|xs| - 1];
      DedupOnce(init);
      assert xs == init + [xs[|xs| - 1]];
    }
  }

  /** The first occurrences keep their relative order. */
  lemma {:induction false} DedupPrefix<T(!new)>(xs: seq<T>, ys: seq<T>)
    ensures Dedup(xs) <= Dedup(xs + ys)
  {
    if ys != [] {
      var init := ys[..|ys| - 1];
      DedupPrefix(xs, init);
      assert xs + ys == (xs + init) + [ys[|ys| - 1]];
    } else {
      assert xs + ys == xs;
    }
  }

  /** A sequence holding each value at most once has no value at two positions. */
  lemma {:induction false} OnceDistinct<T>(s: seq<T>)
    requires forall x :: multiset(s)[x] <= 1
    ensures forall j, k :: 0 <= j < k < |s| ==> s[j] != s[k]
  {
    if s != [] {
      var t := s[1..];
      assert s == [s[0]] + t;
      assert multiset(s) == multiset{s[0]} + multiset(t);
      forall x ensures multiset(t)[x] <= 1 {
        assert multiset(s)[x] == multiset{s[0]}[x] + multiset(t)[x];
      }
      OnceDistinct(t);
      assert multiset(s)[s[0]] == 1 + multiset(t)[s[0]];
      assert s[0] !in t;
      forall j, k | 0 <= j < k < |s| ensures s[j] != s[k] {
        assert s[k] == t[k - 1];
        if j > 0 {
          assert s[j] == t[j - 1];
        }
      }
    }
  }

  function SortedSet(xs: seq<string>): seq<string>
  {
    Sorting.Sort(Dedup(xs), Le)
  }

  /** `sorted(set(xs))` is ascending and holds every value of `xs` exactly once. */
  lemma SortedSetProps(xs: seq<string>)
    ensures Sorting.Sorted(SortedSet(xs), Le)
    ensures forall x :: multiset(SortedSet(xs))[x] == if x in xs then 1 else 0
    ensures forall x :: x in SortedSet(xs) <==> x in xs
  {
    LeTotalPreorder();
    Sorting.SortSorted(Dedup(xs), Le);
    DedupOnce(xs);
    forall x ensures x in SortedSet(xs) <==> x in xs {
      assert x in SortedSet(xs) <==> x in multiset(SortedSet(xs));
    }
  }
}
