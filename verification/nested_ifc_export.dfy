/**
 * The NestedParentId writer of lib/nested_family/ifc_export.py. A nested
 * shared family instance gets its parent's element id as text. The
 * module's write cache is an insertion-ordered dictionary (a list of
 * distinct keys with their values); the document is the map from element
 * id to the element's NestedParentId parameter, `None` when the element
 * has none. Whether `param.Set` raises for an element is a parameter.
 */
module NestedIfcExport {
  import opened Common
  import opened Strs

  // ------------------------------------------------------------ element ids

  datatype IdAccessor = ValueProperty | IntegerValueProperty

  /** get_elementid_value: `.Value` from Revit 2024 on, `.IntegerValue` before. */
  function ElementIdAccessor(version: int): (r: IdAccessor)
    ensures r == ValueProperty <==> version > 2023
  {
    if version > 2023 then ValueProperty else IntegerValueProperty
  }

  // ------------------------------------------------------------ nested pairs

  datatype SuperComponent = SuperComponent(id: int, isFamilyInstance: bool)

  datatype FamilyInstance = FamilyInstance(id: int, superComponent: Option<SuperComponent>)

  predicate HasFamilyParent(fi: FamilyInstance)
  {
    fi.superComponent.Some? && fi.superComponent.value.isFamilyInstance
  }

  /** (nested id, parent id) for every instance whose SuperComponent is a FamilyInstance, in order. */
  function NestedPairs(fis: seq<FamilyInstance>): (r: seq<(int, int)>)
    ensures |r| <= |fis|
  {
    if fis == [] then []
    else
      var prev := NestedPairs(fis[..|fis| - 1]);
      var fi := fis[|fis| - 1];
      if HasFamilyParent(fi) then prev + [(fi.id, fi.superComponent.value.id)] else prev
  }

  /** Exactly the instances with a family parent are paired, each with its parent. */
  lemma {:induction false} NestedPairsExact(fis: seq<FamilyInstance>)
    ensures forall p :: p in NestedPairs(fis) <==>
      exists fi :: fi in fis && HasFamilyParent(fi) && p == (fi.id, fi.superComponent.value.id)
  {
    if fis != [] {
      var init := fis[..|fis| - 1];
      NestedPairsExact(init);
      assert fis == init + [fis[|fis| - 1]];
    }
  }

  /** get_nested_family_instances. */
  method GetNestedFamilyInstances(fis: seq<FamilyInstance>) returns (pairs: seq<(int, int)>)
    ensures pairs == NestedPairs(fis)
  {
    pairs := [];
    var i := 0;
    while i < |fis|
      invariant 0 <= i <= |fis|
      invariant pairs == NestedPairs(fis[..i])
    {
      assert fis[..i + 1][..i] == fis[..i];
      var fi := fis[i];
      if fi.superComponent.Some? && fi.superComponent.value.isFamilyInstance {
        pairs := pairs + [(fi.id, fi.superComponent.value.id)];
      }
      i := i + 1;
    }
    assert fis[..|fis|] == fis;
  }

  // ------------------------------------------------------------ the write cache

  /** A Python dict in insertion order: distinct keys. */
  type Dict = seq<(int, string)>

  function KeysOf(d: Dict): (r: seq<int>)
    ensures |r| == |d| && forall i :: 0 <= i < |d| ==> r[i] == d[i].0
  {
    seq(|d|, i requires 0 <= i < |d| => d[i].0)
  }

  predicate DistinctKeys(d: Dict)
  {
    forall i, j :: 0 <= i < j < |d| ==> d[i].0 != d[j].0
  }

  function Lookup(d: Dict, k: int): (r: Option<string>)
    ensures r.Some? <==> k in KeysOf(d)
  {
    if d == [] then None
    else
      assert KeysOf(d) == [d[0].0] + KeysOf(d[1..]);
      if d[0].0 == k then Some(d[0].1) else Lookup(d[1..], k)
  }

  /** `d[k] = v`: an existing key keeps its place, a new key goes last. */
  function Put(d: Dict, k: int, v: string): (r: Dict)
    ensures |r| == |d| || |r| == |d| + 1
  {
    if d == [] then [(k, v)]
    else if d[0].0 == k then [(k, v)] + d[1..]
    else [d[0]] + Put(d[1..], k, v)
  }

  /** `d[k] = v` keeps the key order: an existing key stays in place, a new key is appended. */
  lemma {:induction false} PutKeys(d: Dict, k: int, v: string)
    ensures k in KeysOf(d) ==> KeysOf(Put(d, k, v)) == KeysOf(d)
    ensures k !in KeysOf(d) ==> KeysOf(Put(d, k, v)) == KeysOf(d) + [k]
  {
    if d != [] {
      assert KeysOf(d) == [d[0].0] + KeysOf(d[1..]);
      if d[0].0 == k {
        assert KeysOf([(k, v)] + d[1..]) == [k] + KeysOf(d[1..]);
      } else {
        var t := Put(d[1..], k, v);
        PutKeys(d[1..], k, v);
        assert KeysOf([d[0]] + t) == [d[0].0] + KeysOf(t);
      }
    }
  }

  /** After `d[k] = v`, `k` maps to `v` and every other key to what it mapped to before. */
  lemma {:induction false} PutLookup(d: Dict, k: int, v: string, j: int)
    ensures Lookup(Put(d, k, v), j) == if j == k then Some(v) else Lookup(d, j)
  {
    if d != [] && d[0].0 != k {
      PutLookup(d[1..], k, v, j);
    }
  }

  /** Putting keeps the keys distinct. */
  lemma PutDistinct(d: Dict, k: int, v: string)
    requires DistinctKeys(d)
    ensures DistinctKeys(Put(d, k, v))
  {
    var r := Put(d, k, v);
    PutKeys(d, k, v);
    forall i, j | 0 <= i < j < |r| ensures r[i].0 != r[j].0 {
      assert KeysOf(r)[i] == r[i].0 && KeysOf(r)[j] == r[j].0;
      if k !in KeysOf(d) && j == |d| {
        assert KeysOf(d)[i] == d[i].0;
      } else {
        assert KeysOf(d)[i] == d[i].0 && KeysOf(d)[j] == d[j].0;
      }
    }
  }

  // ------------------------------------------------------------ set_nested_parent_ids

  /** The NestedParentId parameter of an element: read-only flag, value flag, text (None: not text). */
  datatype NParam = NParam(readOnly: bool, hasValue: bool, text: Option<string>)

  /** The document: element id to its parameter (None: not found); a missing id is a missing element. */
  type Doc = map<int, Option<NParam>>

  /** `param.AsString() if param.HasValue else ""`. */
  function CurrentValue(p: NParam): Option<string>
  {
    if p.hasValue then p.text else Some("")
  }

  /** Python truthiness of the current value. */
  predicate NonEmpty(v: Option<string>) { v.Some? && v.value != "" }

  datatype Outcome = SuccessfullySet | AlreadySet | ParamNotFound | ParamReadOnly | Errored

  datatype Counts = Counts(successfullySet: nat, alreadySet: nat, paramNotFound: nat, paramReadOnly: nat, errors: nat)

  function Bump(c: Counts, o: Outcome): (r: Counts)
    ensures Total(r) == Total(c) + 1
  {
    match o
    case SuccessfullySet => c.(successfullySet := c.successfullySet + 1)
    case AlreadySet => c.(alreadySet := c.alreadySet + 1)
    case ParamNotFound => c.(paramNotFound := c.paramNotFound + 1)
    case ParamReadOnly => c.(paramReadOnly := c.paramReadOnly + 1)
    case Errored => c.(errors := c.errors + 1)
  }

  function Total(c: Counts): nat
  {
    c.successfullySet + c.alreadySet + c.paramNotFound + c.paramReadOnly + c.errors
  }

  const Zero := Counts(0, 0, 0, 0, 0)

  datatype Options = Options(dryRun: bool, useCache: bool, onlyEmpty: bool)

  /** The state of one run: counters, document, write cache. */
  datatype RunState = RunState(counts: Counts, doc: Doc, cache: Dict)

  /**
   * What one element's parameter gets: the outcome counted, the value that
   * goes into the cache (if caching) and the value written (if any).
   */
  datatype Verdict = Verdict(outcome: Outcome, cached: Option<string>, written: Option<string>)

  /** The parameter of `nested` in the document; None when it has none or the element is missing. */
  function ParamOf(doc: Doc, id: int): Option<NParam>
  {
    if id in doc then doc[id] else None
  }

  /**
   * The decision of set_nested_parent_ids for one parameter, given the
   * parent id text and whether `param.Set` succeeds.
   */
  function Judge(slot: Option<NParam>, parentStr: string, o: Options, ok: bool): (v: Verdict)
    ensures v.written.Some? ==> slot.Some? && !o.dryRun && v.written == Some(parentStr)
    ensures v.outcome == ParamNotFound <==> slot.None?
    ensures v.outcome == ParamReadOnly <==> slot.Some? && slot.value.readOnly
    ensures v.cached.None? <==> v.outcome in {ParamNotFound, ParamReadOnly}
    ensures v.outcome == AlreadySet <==>
      (slot.Some? && !slot.value.readOnly &&
       ((o.onlyEmpty && NonEmpty(CurrentValue(slot.value))) || CurrentValue(slot.value) == Some(parentStr)))
    ensures v.outcome == AlreadySet ==> v.written.None? && v.cached == CurrentValue(slot.value)
    ensures o.dryRun ==> v.written.None? && v.outcome != Errored
    ensures v.outcome in {SuccessfullySet, Errored} ==> v.cached == Some(parentStr)
    ensures !o.dryRun && v.outcome in {SuccessfullySet, Errored} ==> (v.outcome == SuccessfullySet <==> ok)
    ensures v.outcome == SuccessfullySet && !o.dryRun ==> v.written == Some(parentStr)
  {
    if slot.None? then Verdict(ParamNotFound, None, None)
    else if slot.value.readOnly then Verdict(ParamReadOnly, None, None)
    else
      var current := CurrentValue(slot.value);
      if o.onlyEmpty && NonEmpty(current) then Verdict(AlreadySet, Some(current.value), None)
      else if current == Some(parentStr) then Verdict(AlreadySet, Some(parentStr), None)
      else if o.dryRun then Verdict(SuccessfullySet, Some(parentStr), None)
      else if ok then Verdict(SuccessfullySet, Some(parentStr), Some(parentStr))
      else Verdict(Errored, Some(parentStr), None)
  }

  /** One (nested, parent) pair of set_nested_parent_ids. */
  function Step(st: RunState, pair: (int, int), o: Options, setOk: int -> bool): (r: RunState)
    ensures Total(r.counts) == Total(st.counts) + 1
    ensures r.doc.Keys == st.doc.Keys
  {
    var (nested, parent) := pair;
    var slot := ParamOf(st.doc, nested);
    var v := Judge(slot, IntToString(parent), o, setOk(nested));
    RunState(
      Bump(st.counts, v.outcome),
      if v.written.Some? then st.doc[nested := Some(slot.value.(hasValue := true, text := v.written))] else st.doc,
      if o.useCache && v.cached.Some? then Put(st.cache, nested, v.cached.value) else st.cache)
  }

  function Run(st: RunState, pairs: seq<(int, int)>, o: Options, setOk: int -> bool): (r: RunState)
    ensures Total(r.counts) == Total(st.counts) + |pairs|
    ensures r.doc.Keys == st.doc.Keys
  {
    if pairs == [] then st else Step(Run(st, pairs[..|pairs| - 1], o, setOk), pairs[|pairs| - 1], o, setOk)
  }

  /** Every pair lands in exactly one outcome, so the five counters sum to total_nested. */
  lemma CountsPartition(doc: Doc, cache: Dict, pairs: seq<(int, int)>, o: Options, setOk: int -> bool)
    ensures Total(Run(RunState(Zero, doc, cache), pairs, o, setOk).counts) == |pairs|
  {
  }

  /** With only_empty, a parameter holding a non-empty value is never overwritten. */
  lemma {:induction false} OnlyEmptyNeverOverwrites(st: RunState, pairs: seq<(int, int)>, o: Options, setOk: int -> bool, k: int)
    requires o.onlyEmpty && k in st.doc && st.doc[k].Some? && NonEmpty(CurrentValue(st.doc[k].value))
    ensures Run(st, pairs, o, setOk).doc[k] == st.doc[k]
  {
    if pairs != [] {
      OnlyEmptyNeverOverwrites(st, pairs[..|pairs| - 1], o, setOk, k);
    }
  }

  /** A dry run writes nothing. */
  lemma {:induction false} DryRunWritesNothing(st: RunState, pairs: seq<(int, int)>, o: Options, setOk: int -> bool)
    requires o.dryRun
    ensures Run(st, pairs, o, setOk).doc == st.doc
  {
    if pairs != [] {
      DryRunWritesNothing(st, pairs[..|pairs| - 1], o, setOk);
    }
  }

  /** Only nested elements of the pairs are written. */
  lemma {:induction false} RunFrame(st: RunState, pairs: seq<(int, int)>, o: Options, setOk: int -> bool, k: int)
    requires forall i :: 0 <= i < |pairs| ==> pairs[i].0 != k
    ensures ParamOf(Run(st, pairs, o, setOk).doc, k) == ParamOf(st.doc, k)
  {
    if pairs != [] {
      RunFrame(st, pairs[..|pairs| - 1], o, setOk, k);
    }
  }

  /** The value cached for a pair whose parameter exists and is writable. */
  function CachedValue(p: NParam, parent: int, onlyEmpty: bool): string
  {
    var current := CurrentValue(p);
    if onlyEmpty && NonEmpty(current) then current.value else IntToString(parent)
  }

  /** One pair under use_cache: its own key gets the cached value, every other key is untouched. */
  lemma StepCache(st: RunState, pair: (int, int), o: Options, setOk: int -> bool, k: int)
    requires o.useCache
    ensures k != pair.0 ==> Lookup(Step(st, pair, o, setOk).cache, k) == Lookup(st.cache, k)
    ensures k == pair.0 && ParamOf(st.doc, k).Some? && !ParamOf(st.doc, k).value.readOnly ==>
      Lookup(Step(st, pair, o, setOk).cache, k) == Some(CachedValue(ParamOf(st.doc, k).value, pair.1, o.onlyEmpty))
  {
    var v := Judge(ParamOf(st.doc, pair.0), IntToString(pair.1), o, setOk(pair.0));
    if v.cached.Some? {
      PutLookup(st.cache, pair.0, v.cached.value, k);
    }
  }

  /**
   * With use_cache and distinct nested ids, every pair whose parameter
   * exists and is writable is cached with the current value (kept by
   * only_empty) or the parent id; keys of no pair keep their entry.
   */
  lemma {:induction false} CacheContents(st: RunState, pairs: seq<(int, int)>, o: Options, setOk: int -> bool)
    requires o.useCache && forall i, j :: 0 <= i < j < |pairs| ==> pairs[i].0 != pairs[j].0
    ensures forall i :: 0 <= i < |pairs| && ParamOf(st.doc, pairs[i].0).Some? && !ParamOf(st.doc, pairs[i].0).value.readOnly ==>
      Lookup(Run(st, pairs, o, setOk).cache, pairs[i].0) == Some(CachedValue(ParamOf(st.doc, pairs[i].0).value, pairs[i].1, o.onlyEmpty))
    ensures forall k :: (forall i :: 0 <= i < |pairs| ==> pairs[i].0 != k) ==> Lookup(Run(st, pairs, o, setOk).cache, k) == Lookup(st.cache, k)
  {
    if pairs != [] {
      var init := pairs[..|pairs| - 1];
      var last := pairs[|pairs| - 1];
      CacheContents(st, init, o, setOk);
      var mid := Run(st, init, o, setOk);
      assert Run(st, pairs, o, setOk).cache == Step(mid, last, o, setOk).cache;
      RunFrame(st, init, o, setOk, last.0);
      forall i | 0 <= i < |pairs| && ParamOf(st.doc, pairs[i].0).Some? && !ParamOf(st.doc, pairs[i].0).value.readOnly
        ensures Lookup(Run(st, pairs, o, setOk).cache, pairs[i].0) == Some(CachedValue(ParamOf(st.doc, pairs[i].0).value, pairs[i].1, o.onlyEmpty))
      {
        StepCache(mid, last, o, setOk, pairs[i].0);
        if i < |pairs| - 1 {
          assert init[i] == pairs[i];
        }
      }
      forall k | forall i :: 0 <= i < |pairs| ==> pairs[i].0 != k
        ensures Lookup(Run(st, pairs, o, setOk).cache, k) == Lookup(st.cache, k)
      {
        StepCache(mid, last, o, setOk, k);
        forall i | 0 <= i < |init| ensures init[i].0 != k {
          assert init[i] == pairs[i];
        }
      }
    }
  }

  // ------------------------------------------------------------ write_cached_parameters

  /** The decision of write_cached_parameters for one cached entry; a missing element is an error. */
  function JudgeCached(present: bool, slot: Option<NParam>, value: string, onlyEmpty: bool, ok: bool): (v: Outcome)
    ensures v != ParamReadOnly
  {
    if !present then Errored
    else if slot.None? then ParamNotFound
    else if slot.value.readOnly then Errored
    else
      var current := CurrentValue(slot.value);
      if onlyEmpty && NonEmpty(current) then AlreadySet
      else if current == Some(value) then AlreadySet
      else if ok then SuccessfullySet
      else Errored
  }

  /** One cached (element id, value) entry of write_cached_parameters. */
  function CachedStep(st: RunState, entry: (int, string), onlyEmpty: bool, setOk: int -> bool): (r: RunState)
    ensures Total(r.counts) == Total(st.counts) + 1
    ensures r.doc.Keys == st.doc.Keys && r.cache == st.cache
  {
    var (id, value) := entry;
    var slot := ParamOf(st.doc, id);
    var outcome := JudgeCached(id in st.doc, slot, value, onlyEmpty, setOk(id));
    RunState(
      Bump(st.counts, outcome),
      if outcome == SuccessfullySet then st.doc[id := Some(slot.value.(hasValue := true, text := Some(value)))] else st.doc,
      st.cache)
  }

  function RunCached(st: RunState, entries: Dict, onlyEmpty: bool, setOk: int -> bool): (r: RunState)
    ensures Total(r.counts) == Total(st.counts) + |entries|
    ensures r.doc.Keys == st.doc.Keys && r.cache == st.cache
  {
    if entries == [] then st else CachedStep(RunCached(st, entries[..|entries| - 1], onlyEmpty, setOk), entries[|entries| - 1], onlyEmpty, setOk)
  }

  /** write_cached_parameters never counts a read-only parameter, and never overwrites a non-empty one under only_empty. */
  lemma {:induction false} CachedOnlyEmpty(st: RunState, entries: Dict, setOk: int -> bool, k: int)
    requires k in st.doc && st.doc[k].Some? && NonEmpty(CurrentValue(st.doc[k].value))
    ensures RunCached(st, entries, true, setOk).doc[k] == st.doc[k]
    ensures RunCached(st, entries, true, setOk).counts.paramReadOnly == st.counts.paramReadOnly
  {
    if entries != [] {
      CachedOnlyEmpty(st, entries[..|entries| - 1], setOk, k);
    }
  }

  /** write_cached_parameters reports a read-only parameter as an error, never as param_read_only. */
  lemma {:induction false} CachedNeverReadOnly(st: RunState, entries: Dict, onlyEmpty: bool, setOk: int -> bool)
    ensures RunCached(st, entries, onlyEmpty, setOk).counts.paramReadOnly == st.counts.paramReadOnly
  {
    if entries != [] {
      CachedNeverReadOnly(st, entries[..|entries| - 1], onlyEmpty, setOk);
    }
  }

  /** One more pair of the loop is one more Step. */
  lemma RunSnoc(st0: RunState, pairs: seq<(int, int)>, i: int, o: Options, setOk: int -> bool)
    requires 0 <= i < |pairs|
    ensures Run(st0, pairs[..i + 1], o, setOk) == Step(Run(st0, pairs[..i], o, setOk), pairs[i], o, setOk)
  {
    assert pairs[..i + 1][..i] == pairs[..i];
  }

  /** One more entry of the loop is one more CachedStep. */
  lemma RunCachedSnoc(st0: RunState, entries: Dict, i: int, onlyEmpty: bool, setOk: int -> bool)
    requires 0 <= i < |entries|
    ensures RunCached(st0, entries[..i + 1], onlyEmpty, setOk) == CachedStep(RunCached(st0, entries[..i], onlyEmpty, setOk), entries[i], onlyEmpty, setOk)
  {
    assert entries[..i + 1][..i] == entries[..i];
  }

  /** The loop of set_nested_parent_ids over its pairs. */
  method RunPairs(st0: RunState, pairs: seq<(int, int)>, o: Options, setOk: int -> bool) returns (st: RunState)
    ensures st == Run(st0, pairs, o, setOk)
  {
    st := st0;
    var i := 0;
    while i < |pairs|
      invariant 0 <= i <= |pairs|
      invariant st == Run(st0, pairs[..i], o, setOk)
    {
      RunSnoc(st0, pairs, i, o, setOk);
      st := Step(st, pairs[i], o, setOk);
      i := i + 1;
    }
    assert pairs[..|pairs|] == pairs;
  }

  /** The loop of write_cached_parameters over the cached entries. */
  method RunEntries(st0: RunState, entries: Dict, onlyEmpty: bool, setOk: int -> bool) returns (st: RunState)
    ensures st == RunCached(st0, entries, onlyEmpty, setOk)
  {
    st := st0;
    var i := 0;
    while i < |entries|
      invariant 0 <= i <= |entries|
      invariant st == RunCached(st0, entries[..i], onlyEmpty, setOk)
    {
      RunCachedSnoc(st0, entries, i, onlyEmpty, setOk);
      st := CachedStep(st, entries[i], onlyEmpty, setOk);
      i := i + 1;
    }
    assert entries[..|entries|] == entries;
  }

  /** The outcome of set_nested_parent_ids: total_nested, the counters, the document and the cache afterwards. */
  datatype SetResult = SetResult(total: nat, counts: Counts, doc: Doc, cache: Dict)

  /**
   * set_nested_parent_ids as a whole: nothing happens without nested pairs;
   * otherwise the cache starts empty under use_cache and every pair is
   * counted into exactly one outcome.
   */
  function SetNested(doc: Doc, fis: seq<FamilyInstance>, o: Options, setOk: int -> bool, cache: Dict): (r: SetResult)
    ensures r.total == |NestedPairs(fis)| && Total(r.counts) == r.total
    ensures !o.useCache ==> r.cache == cache
  {
    var pairs := NestedPairs(fis);
    if pairs == [] then SetResult(0, Zero, doc, cache)
    else
      var st := Run(RunState(Zero, doc, if o.useCache then [] else cache), pairs, o, setOk);
      assert !o.useCache ==> st.cache == cache by {
        if !o.useCache {
          RunKeepsCache(RunState(Zero, doc, cache), pairs, o, setOk);
        }
      }
      SetResult(|pairs|, st.counts, st.doc, st.cache)
  }

  /** Without use_cache a run leaves the cache as it was. */
  lemma {:induction false} RunKeepsCache(st: RunState, pairs: seq<(int, int)>, o: Options, setOk: int -> bool)
    requires !o.useCache
    ensures Run(st, pairs, o, setOk).cache == st.cache
  {
    if pairs != [] {
      RunKeepsCache(st, pairs[..|pairs| - 1], o, setOk);
    }
  }

  /**
   * write_cached_parameters as a whole: all zero for an empty cache, else
   * one outcome per cached entry, and a read-only parameter is counted as
   * an error, never as param_read_only.
   */
  function WriteCached(doc: Doc, entries: Dict, onlyEmpty: bool, setOk: int -> bool): (r: (Counts, Doc))
    ensures Total(r.0) == |entries| && r.0.paramReadOnly == 0
  {
    if entries == [] then (Zero, doc)
    else
      var st := RunCached(RunState(Zero, doc, entries), entries, onlyEmpty, setOk);
      CachedNeverReadOnly(RunState(Zero, doc, entries), entries, onlyEmpty, setOk);
      (st.counts, st.doc)
  }

  // ------------------------------------------------------------ module state

  /** The body of set_nested_parent_ids, given the cache it starts from. */
  method SetNestedOn(doc: Doc, fis: seq<FamilyInstance>, o: Options, setOk: int -> bool, cache: Dict) returns (r: SetResult)
    ensures r == SetNested(doc, fis, o, setOk, cache)
  {
    var pairs := GetNestedFamilyInstances(fis);
    if pairs == [] {
      return SetResult(0, Zero, doc, cache);
    }
    var start := if o.useCache then [] else cache;
    var st := RunPairs(RunState(Zero, doc, start), pairs, o, setOk);
    r := SetResult(|pairs|, st.counts, st.doc, st.cache);
  }

  /** The body of write_cached_parameters, given the cache it reads. */
  method WriteCachedOn(doc: Doc, entries: Dict, onlyEmpty: bool, setOk: int -> bool) returns (counts: Counts, newDoc: Doc)
    ensures (counts, newDoc) == WriteCached(doc, entries, onlyEmpty, setOk)
  {
    if entries == [] {
      return Zero, doc;
    }
    var st := RunEntries(RunState(Zero, doc, entries), entries, onlyEmpty, setOk);
    counts, newDoc := st.counts, st.doc;
  }

  /**
   * The writing part of PostExportWriteHandler.Execute: nothing when the
   * parameter is not bound; the cached values when the cache is non-empty;
   * else freshly computed ones; always with only_empty. Also returns the
   * number of parameters set.
   */
  function PostExportWritten(paramBound: bool, doc: Doc, cache: Dict, fis: seq<FamilyInstance>, setOk: int -> bool): (r: (Doc, nat))
  {
    if !paramBound then (doc, 0)
    else if cache != [] then
      var (counts, written) := WriteCached(doc, cache, true, setOk);
      (written, counts.successfullySet)
    else
      var res := SetNested(doc, fis, Options(false, false, true), setOk, cache);
      (res.doc, res.counts.successfullySet)
  }

  /** The handler only fills empty parameters: a parameter holding a non-empty value is never changed. */
  lemma PostExportKeepsSetValues(paramBound: bool, doc: Doc, cache: Dict, fis: seq<FamilyInstance>, setOk: int -> bool, k: int)
    requires k in doc && doc[k].Some? && NonEmpty(CurrentValue(doc[k].value))
    ensures k in PostExportWritten(paramBound, doc, cache, fis, setOk).0
    ensures PostExportWritten(paramBound, doc, cache, fis, setOk).0[k] == doc[k]
  {
    if paramBound {
      if cache != [] {
        CachedOnlyEmpty(RunState(Zero, doc, cache), cache, setOk, k);
      } else if NestedPairs(fis) != [] {
        OnlyEmptyNeverOverwrites(RunState(Zero, doc, cache), NestedPairs(fis), Options(false, false, true), setOk, k);
      }
    }
  }

  /** The handler's writing step, on the cache it is given. */
  method PostExportWrite(paramBound: bool, doc: Doc, cache: Dict, fis: seq<FamilyInstance>, setOk: int -> bool) returns (newDoc: Doc, setCount: nat)
    ensures (newDoc, setCount) == PostExportWritten(paramBound, doc, cache, fis, setOk)
  {
    if !paramBound {
      return doc, 0;
    }
    if cache != [] {
      var counts;
      counts, newDoc := WriteCachedOn(doc, cache, true, setOk);
      setCount := counts.successfullySet;
    } else {
      var r := SetNestedOn(doc, fis, Options(false, false, true), setOk, cache);
      newDoc, setCount := r.doc, r.counts.successfullySet;
    }
  }

  /** The module globals: the write cache, and the post-export handler's pending document. */
  class ExportState {
    var cache: Dict
    var handlerHasDoc: bool
    var shouldSave: bool
    /** Times the document was saved by the post-export handler. */
    var saves: nat

    constructor()
      ensures cache == [] && !handlerHasDoc && shouldSave && saves == 0
    {
      cache := [];
      handlerHasDoc := false;
      shouldSave := true;
      saves := 0;
    }

    /** set_nested_parent_ids on the module cache. */
    method SetNestedParentIds(doc: Doc, fis: seq<FamilyInstance>, o: Options, setOk: int -> bool)
      returns (r: SetResult)
      modifies `cache
      ensures r == SetNested(doc, fis, o, setOk, old(cache)) && cache == r.cache
    {
      r := SetNestedOn(doc, fis, o, setOk, cache);
      cache := r.cache;
    }

    /** write_cached_parameters on the module cache. */
    method WriteCachedParameters(doc: Doc, onlyEmpty: bool, setOk: int -> bool) returns (counts: Counts, newDoc: Doc)
      ensures (counts, newDoc) == WriteCached(doc, cache, onlyEmpty, setOk)
    {
      counts, newDoc := WriteCachedOn(doc, cache, onlyEmpty, setOk);
    }

    /**
     * PostExportWriteHandler.Execute: without a pending document nothing
     * happens; otherwise the parameters are written as PostExportWritten
     * says, the document is saved if something was set and saving is on,
     * and in every case the pending document and the cache are cleared.
     */
    method PostExportExecute(paramBound: bool, doc: Doc, fis: seq<FamilyInstance>, setOk: int -> bool) returns (newDoc: Doc)
      modifies this
      ensures !old(handlerHasDoc) ==> newDoc == doc && unchanged(this)
      ensures old(handlerHasDoc) ==>
        var (written, setCount) := PostExportWritten(paramBound, doc, old(cache), fis, setOk);
        newDoc == written && cache == [] && !handlerHasDoc && unchanged(`shouldSave) &&
        saves == old(saves) + (if shouldSave && setCount > 0 then 1 else 0)
    {
      if !handlerHasDoc {
        return doc;
      }
      var setCount;
      newDoc, setCount := PostExportWrite(paramBound, doc, cache, fis, setOk);
      if shouldSave && setCount > 0 {
        saves := saves + 1;
      }
      handlerHasDoc := false;
      cache := [];
    }
  }
}
