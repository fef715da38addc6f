/**
 * Zone-to-element parameter propagation (lib/zone3d/core.py).
 *
 * Elements are records with an instance parameter map and, when their
 * type resolves, the type's parameter map. `Set` on a parameter is
 * modelled by returning the element record with the new value. The
 * containment search of a configuration is a function from target to
 * containing source element (see module Containment for the search).
 */
module ZoneCore {
  import opened Common
  import opened Strs
  import Containment

  datatype Element = Element(id: int, category: int, params: map<string, Param>, typeParams: Option<map<string, Param>>)

  /** `LookupParameter` on the element, else on its type (copy_parameters). */
  function Lookup(e: Element, name: string): (r: Option<Param>)
    ensures name in e.params ==> r == Some(e.params[name])
    ensures name !in e.params && e.typeParams.Some? && name in e.typeParams.value ==> r == Some(e.typeParams.value[name])
    ensures r.None? <==> name !in e.params && (e.typeParams.None? || name !in e.typeParams.value)
  {
    if name in e.params then Some(e.params[name])
    else if e.typeParams.Some? && name in e.typeParams.value then Some(e.typeParams.value[name])
    else None
  }

  function AsString(p: Param): string
  {
    if p.value.StrVal? then p.value.s else ""
  }

  // ------------------------------------------------------------ one parameter

  /** What copy_parameter_value reports and the value it writes (None: no write). */
  datatype CopyResult = CopyResult(ok: bool, written: Option<ParamValue>)

  /** copy_parameter_value. */
  function CopyParameterValue(src: Option<Param>, tgt: Option<Param>): (r: CopyResult)
    ensures src.None? || !src.value.hasValue || tgt.None? || tgt.value.readOnly ==> r == CopyResult(false, None)
    ensures src.Some? && tgt.Some? && src.value.storage != tgt.value.storage ==> r == CopyResult(false, None)
    ensures r.written.Some? ==> r.ok && r.written.value == src.value.value && src.value.storage == tgt.value.storage
    ensures r.ok <==> (src.Some? && src.value.hasValue && tgt.Some? && !tgt.value.readOnly &&
      src.value.storage == tgt.value.storage && src.value.storage != NoStorage)
    ensures r.ok && src.value.storage == StrStorage && AsString(src.value) == "" ==> r.written.None?
    ensures r.ok && src.value.storage == IdStorage && src.value.value == IdVal(InvalidId) ==> r.written.None?
  {
    if src.None? || !src.value.hasValue then CopyResult(false, None)
    else if tgt.None? || tgt.value.readOnly then CopyResult(false, None)
    else if src.value.storage != tgt.value.storage then CopyResult(false, None)
    else
      var s := src.value;
      match s.storage
      case StrStorage => CopyResult(true, if AsString(s) != "" then Some(s.value) else None)
      case IntStorage => CopyResult(true, Some(s.value))
      case DoubleStorage => CopyResult(true, Some(s.value))
      case IdStorage => CopyResult(true, if s.value != IdVal(InvalidId) then Some(s.value) else None)
      case NoStorage => CopyResult(false, None)
  }

  /** `target_param.Set(v)`: the parameter found by Lookup gets the value. */
  function SetParam(e: Element, name: string, v: ParamValue): (r: Element)
    requires Lookup(e, name).Some?
    ensures r.id == e.id && r.category == e.category
    ensures Lookup(r, name) == Some(Lookup(e, name).value.(value := v))
  {
    if name in e.params then e.(params := e.params[name := e.params[name].(value := v)])
    else e.(typeParams := Some(e.typeParams.value[name := e.typeParams.value[name].(value := v)]))
  }

  /** Only values change: every parameter keeps its storage, value flag and read-only flag. */
  ghost predicate SameShape(a: Element, b: Element)
  {
    forall n :: (Lookup(a, n).None? <==> Lookup(b, n).None?) &&
      (Lookup(a, n).Some? ==> Lookup(a, n).value.(value := Lookup(b, n).value.value) == Lookup(b, n).value)
  }

  lemma SetParamSameShape(e: Element, name: string, v: ParamValue)
    requires Lookup(e, name).Some?
    ensures SameShape(e, SetParam(e, name, v))
  {
  }

  // ------------------------------------------------------------ has_source_parameter

  /** A parameter with a value, and for String storage one that is not blank. */
  predicate Usable(p: Option<Param>)
  {
    p.Some? && p.value.hasValue && (p.value.storage == StrStorage ==> !IsBlank(AsString(p.value)))
  }

  function TypeParam(e: Element, name: string): Option<Param>
  {
    if e.typeParams.Some? && name in e.typeParams.value then Some(e.typeParams.value[name]) else None
  }

  function InstanceParam(e: Element, name: string): Option<Param>
  {
    if name in e.params then Some(e.params[name]) else None
  }

  predicate UsableName(e: Element, name: string)
  {
    Usable(InstanceParam(e, name)) || Usable(TypeParam(e, name))
  }

  /** has_source_parameter: some listed name has a usable instance or type value. */
  predicate HasSourceParameter(e: Element, names: seq<string>)
  {
    exists i :: 0 <= i < |names| && UsableName(e, names[i])
  }

  /** The loop of has_source_parameter: instance first, then type, first usable name returns True. */
  method HasSourceParameterScan(e: Element, names: seq<string>) returns (r: bool)
    ensures r == HasSourceParameter(e, names)
    ensures names == [] ==> !r
  {
    if names == [] {
      return false;
    }
    var i := 0;
    while i < |names|
      invariant 0 <= i <= |names|
      invariant forall j :: 0 <= j < i ==> !UsableName(e, names[j])
    {
      var inst := InstanceParam(e, names[i]);
      if Usable(inst) {
        return true;
      }
      var typ := TypeParam(e, names[i]);
      if Usable(typ) {
        return true;
      }
      i := i + 1;
    }
    return false;
  }

  /** A whitespace-only String value does not count; the type is consulted when the instance does not count. */
  lemma HasSourceParameterRules(e: Element, name: string)
    ensures (InstanceParam(e, name).Some? && InstanceParam(e, name).value.storage == StrStorage &&
      IsBlank(AsString(InstanceParam(e, name).value)) && !Usable(TypeParam(e, name))) ==> !HasSourceParameter(e, [name])
    ensures !Usable(InstanceParam(e, name)) && Usable(TypeParam(e, name)) ==> HasSourceParameter(e, [name])
  {
    if !Usable(InstanceParam(e, name)) && Usable(TypeParam(e, name)) {
      assert UsableName(e, [name][0]);
    }
  }

  // ------------------------------------------------------------ copy_parameters

  /** One (source name, target name) pair of copy_parameters: counted or not, and the new target. */
  function CopyStep(src: Element, tgt: Element, sName: string, tName: string): (r: (bool, Element))
    ensures r.0 ==> Lookup(tgt, tName).Some?
    ensures !r.0 ==> r.1 == tgt
    ensures r.1.id == tgt.id && SameShapeOrEqual(tgt, r.1)
  {
    var sp := Lookup(src, sName);
    if sp.None? || !sp.value.hasValue then (false, tgt)
    else
      var tp := Lookup(tgt, tName);
      if tp.None? || tp.value.readOnly then (false, tgt)
      else
        var c := CopyParameterValue(sp, tp);
        if !c.ok then (false, tgt)
        else if c.written.Some? then
          SetParamSameShape(tgt, tName, c.written.value);
          (true, SetParam(tgt, tName, c.written.value))
        else (true, tgt)
  }

  ghost predicate SameShapeOrEqual(a: Element, b: Element)
  {
    a == b || SameShape(a, b)
  }

  /** Whether a pair copies, judged on the target before any write. */
  predicate PairCopies(src: Element, tgt: Element, sName: string, tName: string)
  {
    CopyParameterValue(Lookup(src, sName), Lookup(tgt, tName)).ok
  }

  /** copy_parameters over the pairs `ps`, applied in order. */
  function CopyAll(src: Element, tgt: Element, ps: seq<(string, string)>): (r: (nat, Element))
    ensures r.0 <= |ps|
    ensures r.1.id == tgt.id && SameShapeOrEqual(tgt, r.1)
  {
    if ps == [] then (0, tgt)
    else
      var prev := CopyAll(src, tgt, ps[..|ps| - 1]);
      var step := CopyStep(src, prev.1, ps[|ps| - 1].0, ps[|ps| - 1].1);
      ShapeTrans(tgt, prev.1, step.1);
      (prev.0 + (if step.0 then 1 else 0), step.1)
  }

  lemma ShapeTrans(a: Element, b: Element, c: Element)
    requires SameShapeOrEqual(a, b) && SameShapeOrEqual(b, c)
    ensures SameShapeOrEqual(a, c)
  {
    if a != b && b != c {
      forall n ensures (Lookup(a, n).None? <==> Lookup(c, n).None?) &&
        (Lookup(a, n).Some? ==> Lookup(a, n).value.(value := Lookup(c, n).value.value) == Lookup(c, n).value)
      {
      }
    }
  }

  /** A pair counts exactly when it would have counted on the unwritten target. */
  lemma StepCountsOnShape(src: Element, tgt: Element, t2: Element, sName: string, tName: string)
    requires SameShapeOrEqual(tgt, t2)
    ensures CopyStep(src, t2, sName, tName).0 == PairCopies(src, tgt, sName, tName)
  {
    if tgt != t2 {
      assert Lookup(tgt, tName).None? <==> Lookup(t2, tName).None?;
    }
  }

  function Zip(a: seq<string>, b: seq<string>): (r: seq<(string, string)>)
    requires |a| == |b|
    ensures |r| == |a|
    ensures forall i :: 0 <= i < |a| ==> r[i] == (a[i], b[i])
  {
    if a == [] then [] else [(a[0], b[0])] + Zip(a[1..], b[1..])
  }

  /**
   * The number copied counts exactly the pairs whose copy succeeds, judged
   * on the target as it was: earlier writes never change whether a later
   * pair succeeds.
   */
  lemma {:induction false} CopyAllCounts(src: Element, tgt: Element, ps: seq<(string, string)>)
    ensures CopyAll(src, tgt, ps).0 == CountIf(ps, (p: (string, string)) => PairCopies(src, tgt, p.0, p.1))
  {
    if ps != [] {
      var init := ps[..|ps| - 1];
      CopyAllCounts(src, tgt, init);
      var prev := CopyAll(src, tgt, init);
      StepCountsOnShape(src, tgt, prev.1, ps[|ps| - 1].0, ps[|ps| - 1].1);
      CountIfSnoc(init, ps[|ps| - 1], (p: (string, string)) => PairCopies(src, tgt, p.0, p.1));
      assert init + [ps[|ps| - 1]] == ps;
    }
  }

  /** copy_parameters: 0 on a length mismatch, else the pairs copied and the written target. */
  method CopyParameters(src: Element, tgt: Element, sNames: seq<string>, tNames: seq<string>)
    returns (copied: nat, target: Element)
    ensures |sNames| != |tNames| ==> copied == 0 && target == tgt
    ensures |sNames| == |tNames| ==> (copied, target) == CopyAll(src, tgt, Zip(sNames, tNames))
    ensures copied <= |sNames|
  {
    if |sNames| != |tNames| {
      return 0, tgt;
    }
    var ps := Zip(sNames, tNames);
    copied, target := 0, tgt;
    var i := 0;
    while i < |ps|
      invariant 0 <= i <= |ps|
      invariant (copied, target) == CopyAll(src, tgt, ps[..i])
    {
      CopyAllSnoc(src, tgt, ps, i);
      var counted;
      counted, target := CopyPair(src, target, ps[i].0, ps[i].1);
      if counted {
        copied := copied + 1;
      }
      i := i + 1;
    }
    assert ps[..|ps|] == ps;
  }

  lemma CopyAllSnoc(src: Element, tgt: Element, ps: seq<(string, string)>, i: int)
    requires 0 <= i < |ps|
    ensures var prev := CopyAll(src, tgt, ps[..i]);
      var step := CopyStep(src, prev.1, ps[i].0, ps[i].1);
      CopyAll(src, tgt, ps[..i + 1]) == (prev.0 + (if step.0 then 1 else 0), step.1)
  {
    assert ps[..i + 1][..i] == ps[..i];
  }

  /** The body of the copy_parameters loop for one pair of names. */
  method CopyPair(src: Element, tgt: Element, sName: string, tName: string) returns (counted: bool, target: Element)
    ensures (counted, target) == CopyStep(src, tgt, sName, tName)
  {
    counted, target := false, tgt;
    var sp := Lookup(src, sName);
    if sp.Some? && sp.value.hasValue {
      var tp := Lookup(target, tName);
      if tp.Some? && !tp.value.readOnly {
        var c := CopyParameterValue(sp, tp);
        if c.ok {
          if c.written.Some? {
            target := SetParam(target, tName, c.written.value);
          }
          counted := true;
        }
      }
    }
  }

  // ------------------------------------------------------------ collecting elements

  function IdsOf(s: seq<Element>): set<int>
  {
    set e | e in s :: e.id
  }

  /** No two elements share an id. */
  predicate DistinctIds(s: seq<Element>)
  {
    forall i, j :: 0 <= i < j < |s| ==> s[i].id != s[j].id
  }

  /** Append the elements of `xs` whose id is not yet present, in order. */
  function AddNew(acc: seq<Element>, xs: seq<Element>): (r: seq<Element>)
    ensures forall e :: e in r ==> e in acc || e in xs
    ensures forall e :: e in acc ==> e in r
    ensures IdsOf(r) == IdsOf(acc) + IdsOf(xs)
    ensures DistinctIds(acc) ==> DistinctIds(r)
  {
    if xs == [] then acc
    else
      var a := AddNew(acc, xs[..|xs| - 1]);
      var x := xs[|xs| - 1];
      IdsSnoc(xs[..|xs| - 1], x);
      assert xs == xs[..|xs| - 1] + [x];
      if x.id in IdsOf(a) then a
      else
        IdsSnoc(a, x);
        a + [x]
  }

  lemma IdsSnoc(a: seq<Element>, x: Element)
    ensures IdsOf(a + [x]) == IdsOf(a) + {x.id}
    ensures DistinctIds(a) && x.id !in IdsOf(a) ==> DistinctIds(a + [x])
  {
    if DistinctIds(a) && x.id !in IdsOf(a) {
      var r := a + [x];
      forall i, j | 0 <= i < j < |r| ensures r[i].id != r[j].id {
        if j == |a| {
          assert r[i] in a;
        } else {
          assert r[i] == a[i] && r[j] == a[j];
        }
      }
    }
  }

  function OfCategory(doc: seq<Element>, cat: int): (r: seq<Element>)
    ensures forall e :: e in r <==> e in doc && e.category == cat
  {
    Filter(doc, (e: Element) => e.category == cat)
  }

  /** The per-category collection with id de-duplication. */
  function CollectFold(doc: seq<Element>, cats: seq<int>): (r: seq<Element>)
    ensures forall e :: e in r ==> e in doc && e.category in cats
    ensures DistinctIds(r)
    ensures forall e :: e in doc && e.category in cats ==> e.id in IdsOf(r)
  {
    if cats == [] then []
    else
      var prev := CollectFold(doc, cats[..|cats| - 1]);
      var c := cats[|cats| - 1];
      assert cats == cats[..|cats| - 1] + [c];
      var r := AddNew(prev, OfCategory(doc, c));
      forall e | e in doc && e.category in cats ensures e.id in IdsOf(r) {
        if e.category == c {
          assert e in OfCategory(doc, c);
        }
      }
      r
  }

  /** Source/target collection: by category with de-duplication, or every element when no category is given. */
  function Collect(doc: seq<Element>, cats: seq<int>): seq<Element>
  {
    if cats == [] then doc else CollectFold(doc, cats)
  }

  lemma CollectSnoc(doc: seq<Element>, cats: seq<int>, i: int)
    requires 0 <= i < |cats|
    ensures CollectFold(doc, cats[..i + 1]) == AddNew(CollectFold(doc, cats[..i]), OfCategory(doc, cats[i]))
  {
    assert cats[..i + 1][..i] == cats[..i];
  }

  /** The `for category ...: for el in category_elements: if id not in element_ids` loop. */
  method CollectByCategories(doc: seq<Element>, cats: seq<int>) returns (r: seq<Element>)
    ensures r == CollectFold(doc, cats)
  {
    r := [];
    var ids: set<int> := {};
    var i := 0;
    while i < |cats|
      invariant 0 <= i <= |cats|
      invariant r == CollectFold(doc, cats[..i]) && ids == IdsOf(r)
    {
      CollectSnoc(doc, cats, i);
      r, ids := AddNewLoop(r, ids, OfCategory(doc, cats[i]));
      i := i + 1;
    }
    assert cats[..|cats|] == cats;
  }

  lemma AddNewSnoc(acc: seq<Element>, xs: seq<Element>, j: int)
    requires 0 <= j < |xs|
    ensures AddNew(acc, xs[..j + 1]) ==
      if xs[j].id in IdsOf(AddNew(acc, xs[..j])) then AddNew(acc, xs[..j]) else AddNew(acc, xs[..j]) + [xs[j]]
  {
    assert xs[..j + 1][..j] == xs[..j];
  }

  /** The inner loop: append each element whose id is not in `element_ids` yet, and record the id. */
  method AddNewLoop(acc: seq<Element>, ids0: set<int>, xs: seq<Element>) returns (r: seq<Element>, ids: set<int>)
    requires ids0 == IdsOf(acc)
    ensures r == AddNew(acc, xs) && ids == IdsOf(r)
  {
    r, ids := acc, ids0;
    var j := 0;
    while j < |xs|
      invariant 0 <= j <= |xs|
      invariant r == AddNew(acc, xs[..j]) && ids == IdsOf(r)
    {
      AddNewSnoc(acc, xs, j);
      if xs[j].id !in ids {
        IdsSnoc(r, xs[j]);
        ids := ids + {xs[j].id};
        r := r + [xs[j]];
      }
      j := j + 1;
    }
    assert xs[..|xs|] == xs;
  }

  // ------------------------------------------------------------ write_parameters_to_elements

  /** The fields of a configuration that the write reads, with the `.get(key, [])` defaults applied. */
  datatype Mapping = Mapping(sourceCats: seq<int>, targetCats: seq<int>, sourceParams: seq<string>, targetParams: seq<string>)

  datatype CoreError = NoStrategy | ParamListMismatch

  datatype Results = Results(processed: nat, updated: nat, copied: nat, errors: seq<CoreError>)

  /** BuiltInCategory codes of the categories the containment strategy recognises. */
  const OST_Rooms: int := -2000160
  const OST_MEPSpaces: int := -2003600
  const OST_Areas: int := -2003200
  const OST_Mass: int := -2003400
  const OST_GenericModel: int := -2000151

  function CategoryOf(code: int): Containment.Category
  {
    if code == OST_Rooms then Containment.Rooms
    else if code == OST_MEPSpaces then Containment.MEPSpaces
    else if code == OST_Areas then Containment.Areas
    else if code == OST_Mass then Containment.Mass
    else if code == OST_GenericModel then Containment.GenericModel
    else Containment.OtherCategory(code)
  }

  function CategoriesOf(codes: seq<int>): (r: seq<Containment.Category>)
    ensures |r| == |codes|
  {
    if codes == [] then [] else [CategoryOf(codes[0])] + CategoriesOf(codes[1..])
  }

  /** Parameters copied to one target: 0 when no container is found. */
  function TargetCopies(m: Mapping, t: Element, container: Element -> Option<Element>): nat
    requires |m.sourceParams| == |m.targetParams|
  {
    match container(t)
    case None => 0
    case Some(s) => CopyAll(s, t, Zip(m.sourceParams, m.targetParams)).0
  }

  function TargetAfter(m: Mapping, t: Element, container: Element -> Option<Element>): Element
    requires |m.sourceParams| == |m.targetParams|
  {
    match container(t)
    case None => t
    case Some(s) => CopyAll(s, t, Zip(m.sourceParams, m.targetParams)).1
  }

  function SumCopies(m: Mapping, ts: seq<Element>, container: Element -> Option<Element>): nat
    requires |m.sourceParams| == |m.targetParams|
  {
    if ts == [] then 0 else SumCopies(m, ts[..|ts| - 1], container) + TargetCopies(m, ts[|ts| - 1], container)
  }

  function CountUpdated(m: Mapping, ts: seq<Element>, container: Element -> Option<Element>): nat
    requires |m.sourceParams| == |m.targetParams|
  {
    if ts == [] then 0
    else CountUpdated(m, ts[..|ts| - 1], container) + (if TargetCopies(m, ts[|ts| - 1], container) > 0 then 1 else 0)
  }

  /** Every updated target copied at least one and at most |pairs| parameters. */
  lemma {:induction false} CounterBounds(m: Mapping, ts: seq<Element>, container: Element -> Option<Element>)
    requires |m.sourceParams| == |m.targetParams|
    ensures CountUpdated(m, ts, container) <= |ts|
    ensures CountUpdated(m, ts, container) <= SumCopies(m, ts, container) <= |m.sourceParams| * CountUpdated(m, ts, container)
  {
    if ts != [] {
      var init := ts[..|ts| - 1];
      CounterBounds(m, init, container);
      TargetCopiesBound(m, ts[|ts| - 1], container);
      MulStep(|m.sourceParams|, CountUpdated(m, init, container), SumCopies(m, init, container),
              TargetCopies(m, ts[|ts| - 1], container));
    }
  }

  /** A target copies at most one parameter per pair. */
  lemma TargetCopiesBound(m: Mapping, t: Element, container: Element -> Option<Element>)
    requires |m.sourceParams| == |m.targetParams|
    ensures TargetCopies(m, t, container) <= |m.sourceParams|
  {
    if container(t).Some? {
      assert |Zip(m.sourceParams, m.targetParams)| == |m.sourceParams|;
    }
  }

  lemma MulStep(n: nat, u: nat, sum: nat, c: nat)
    requires sum <= n * u && c <= n
    ensures sum + c <= n * (u + (if c > 0 then 1 else 0))
  {
    if c > 0 {
      assert n * (u + 1) == n * u + n;
    }
  }

  /** `max(1, int(total / 20.0))` for a non-empty target list. */
  function UpdateInterval(total: nat): (r: nat)
    ensures r >= 1
    ensures total >= 1 ==> r <= total
    ensures total >= 40 ==> 20 * r <= total < 20 * (r + 1)
  {
    if total / 20 > 1 then total / 20 else 1
  }

  function LastOr0(p: seq<nat>): nat
  {
    if p == [] then 0 else p[|p| - 1]
  }

  /** Progress reported every `interval` targets: interval, 2*interval, ... */
  predicate RegularTicks(p: seq<nat>, interval: nat)
  {
    (p != [] ==> p[0] == interval) &&
    forall k :: 0 <= k < |p| - 1 ==> p[k + 1] == p[k] + interval
  }

  /** The regular ticks, then a final tick at the last target at most one interval later. */
  predicate ProgressTicks(p: seq<nat>, total: nat, interval: nat)
  {
    p != [] && p[|p| - 1] == total &&
    RegularTicks(p[..|p| - 1], interval) &&
    0 < total - LastOr0(p[..|p| - 1]) <= interval
  }

  /** The progress reported after `i` of `total` targets. */
  predicate ProgressState(p: seq<nat>, i: nat, total: nat, interval: nat)
  {
    (i < total ==> RegularTicks(p, interval) && 0 <= i - LastOr0(p) < interval) &&
    (i == total ==> ProgressTicks(p, total, interval))
  }

  /** The update rule `current - last_update >= update_interval or current == total` keeps the ticks regular. */
  lemma ProgressStep(p: seq<nat>, i: nat, total: nat, interval: nat)
    requires i < total && interval >= 1 && ProgressState(p, i, total, interval)
    ensures ProgressState(if i + 1 - LastOr0(p) >= interval || i + 1 == total then p + [i + 1] else p, i + 1, total, interval)
  {
    var q := p + [i + 1];
    assert q[..|p|] == p;
    if i + 1 - LastOr0(p) >= interval && i + 1 < total {
      assert RegularTicks(q, interval);
    }
  }

  /** The progress update after target `current`: report when an interval has passed or at the last target. */
  method Report(progress: seq<nat>, lastUpdate: nat, current: nat, total: nat, interval: nat) returns (p: seq<nat>, last: nat)
    requires 0 < current <= total && interval >= 1
    requires ProgressState(progress, current - 1, total, interval) && lastUpdate == LastOr0(progress)
    ensures ProgressState(p, current, total, interval) && last == LastOr0(p)
  {
    ProgressStep(progress, current - 1, total, interval);
    p, last := progress, lastUpdate;
    if current - lastUpdate >= interval || current == total {
      p := p + [current];
      last := current;
    }
  }

  /**
   * The target loop of write_parameters_to_elements: every target is
   * processed; one whose container is found gets the parameters copied.
   */
  method ProcessTargets(m: Mapping, collected: seq<Element>, container: Element -> Option<Element>, hasProgressBar: bool)
    returns (res: Results, targets: seq<Element>, progress: seq<nat>)
    requires |m.sourceParams| == |m.targetParams| && collected != []
    ensures res == Results(|collected|, CountUpdated(m, collected, container), SumCopies(m, collected, container), [])
    ensures targets == MapTargets(m, collected, container)
    ensures hasProgressBar ==> ProgressTicks(progress, |collected|, UpdateInterval(|collected|))
    ensures !hasProgressBar ==> progress == []
  {
    progress := [];
    targets := [];
    var total := |collected|;
    var interval := UpdateInterval(total);
    var lastUpdate := 0;
    var processed, updated, copiedTotal := 0, 0, 0;
    var i := 0;
    while i < total
      invariant 0 <= i <= total && processed == i
      invariant updated == CountUpdated(m, collected[..i], container)
      invariant copiedTotal == SumCopies(m, collected[..i], container)
      invariant targets == MapTargets(m, collected[..i], container)
      invariant !hasProgressBar ==> progress == []
      invariant hasProgressBar ==> ProgressState(progress, i, total, interval) && lastUpdate == LastOr0(progress)
    {
      TargetsSnoc(m, collected, i, container);
      processed := processed + 1;
      if hasProgressBar {
        progress, lastUpdate := Report(progress, lastUpdate, i + 1, total, interval);
      }
      var n, after := ProcessTarget(m, collected[i], container);
      if n > 0 {
        updated := updated + 1;
        copiedTotal := copiedTotal + n;
      }
      targets := targets + [after];
      i := i + 1;
    }
    assert collected[..total] == collected;
    res := Results(processed, updated, copiedTotal, []);
  }

  /** Extending the processed prefix by one target extends each fold by that target. */
  lemma TargetsSnoc(m: Mapping, ts: seq<Element>, i: int, container: Element -> Option<Element>)
    requires |m.sourceParams| == |m.targetParams| && 0 <= i < |ts|
    ensures CountUpdated(m, ts[..i + 1], container)
      == CountUpdated(m, ts[..i], container) + (if TargetCopies(m, ts[i], container) > 0 then 1 else 0)
    ensures SumCopies(m, ts[..i + 1], container) == SumCopies(m, ts[..i], container) + TargetCopies(m, ts[i], container)
    ensures MapTargets(m, ts[..i + 1], container) == MapTargets(m, ts[..i], container) + [TargetAfter(m, ts[i], container)]
  {
    assert ts[..i + 1][..i] == ts[..i];
  }

  /** One target: find its container and copy the parameters from it. */
  method ProcessTarget(m: Mapping, t: Element, container: Element -> Option<Element>) returns (n: nat, after: Element)
    requires |m.sourceParams| == |m.targetParams|
    ensures n == TargetCopies(m, t, container) && after == TargetAfter(m, t, container)
    ensures n <= |m.sourceParams| && after.id == t.id
  {
    after := t;
    n := 0;
    var source := container(t);
    if source.Some? {
      n, after := CopyParameters(source.value, t, m.sourceParams, m.targetParams);
    }
  }

  /** The sources that hold a usable value for at least one source parameter, in document order. */
  function WithSource(sources: seq<Element>, names: seq<string>): (r: seq<Element>)
    ensures forall e :: e in r <==> e in sources && HasSourceParameter(e, names)
  {
    if sources == [] then []
    else
      var last := sources[|sources| - 1];
      assert sources == sources[..|sources| - 1] + [last];
      WithSource(sources[..|sources| - 1], names) + (if HasSourceParameter(last, names) then [last] else [])
  }

  lemma WithSourceSnoc(sources: seq<Element>, names: seq<string>, k: int)
    requires 0 <= k < |sources|
    ensures WithSource(sources[..k + 1], names)
      == WithSource(sources[..k], names) + (if HasSourceParameter(sources[k], names) then [sources[k]] else [])
  {
    assert sources[..k + 1][..k] == sources[..k];
  }

  /** The source filter of write_parameters_to_elements. */
  method FilterSources(sources: seq<Element>, names: seq<string>) returns (r: seq<Element>)
    ensures r == WithSource(sources, names)
  {
    r := [];
    var k := 0;
    while k < |sources|
      invariant 0 <= k <= |sources|
      invariant r == WithSource(sources[..k], names)
    {
      var keep := HasSourceParameterScan(sources[k], names);
      WithSourceSnoc(sources, names, k);
      if keep {
        r := r + [sources[k]];
      }
      k := k + 1;
    }
    assert sources[..|sources|] == sources;
  }

  /**
   * write_parameters_to_elements for a configuration, over the document's
   * elements. Returns the results, the targets as written, and the
   * progress values reported (when a progress bar is given). The early
   * returns leave every counter at 0.
   */
  method WriteParametersToElements(m: Mapping, doc: seq<Element>, container: Element -> Option<Element>, hasProgressBar: bool)
    returns (res: Results, targets: seq<Element>, progress: seq<nat>)
    ensures Containment.DetectStrategy(CategoriesOf(m.sourceCats)).None? ==>
      res == Results(0, 0, 0, [NoStrategy]) && targets == []
    ensures m.sourceParams == [] || Collect(doc, m.sourceCats) == [] || Collect(doc, m.targetCats) == [] ==>
      res.processed == 0 && targets == []
    ensures res.errors == [ParamListMismatch] ==> res.processed == 0 && |m.sourceParams| != |m.targetParams|
    ensures res.processed > 0 ==>
      |m.sourceParams| == |m.targetParams| && res.errors == [] &&
      Containment.DetectStrategy(CategoriesOf(m.sourceCats)).Some? &&
      WithSource(Collect(doc, m.sourceCats), m.sourceParams) != [] &&
      res.processed == |Collect(doc, m.targetCats)| &&
      targets == MapTargets(m, Collect(doc, m.targetCats), container) &&
      res.updated == CountUpdated(m, Collect(doc, m.targetCats), container) &&
      res.copied == SumCopies(m, Collect(doc, m.targetCats), container)
    ensures hasProgressBar && res.processed > 0 ==> ProgressTicks(progress, res.processed, UpdateInterval(res.processed))
    ensures (Containment.DetectStrategy(CategoriesOf(m.sourceCats)).Some? &&
      (m.sourceParams == [] || WithSource(Collect(doc, m.sourceCats), m.sourceParams) == [] || Collect(doc, m.targetCats) == [])) ==>
      res == Results(0, 0, 0, []) && targets == []
    ensures (Containment.DetectStrategy(CategoriesOf(m.sourceCats)).Some? && m.sourceParams != [] &&
      WithSource(Collect(doc, m.sourceCats), m.sourceParams) != [] && Collect(doc, m.targetCats) != []) ==>
      if |m.sourceParams| == |m.targetParams| then
        res == Results(|Collect(doc, m.targetCats)|, CountUpdated(m, Collect(doc, m.targetCats), container),
                       SumCopies(m, Collect(doc, m.targetCats), container), []) &&
        targets == MapTargets(m, Collect(doc, m.targetCats), container)
      else
        res == Results(0, 0, 0, [ParamListMismatch]) && targets == []
  {
    progress := [];
    targets := [];
    var strategy := Containment.DetectStrategy(CategoriesOf(m.sourceCats));
    if strategy.None? {
      return Results(0, 0, 0, [NoStrategy]), targets, progress;
    }
    if m.sourceParams == [] {
      return Results(0, 0, 0, []), targets, progress;
    }
    var sources: seq<Element>;
    if m.sourceCats != [] {
      sources := CollectByCategories(doc, m.sourceCats);
    } else {
      sources := doc;
    }
    if sources == [] {
      return Results(0, 0, 0, []), targets, progress;
    }
    var filtered := FilterSources(sources, m.sourceParams);
    if filtered == [] {
      return Results(0, 0, 0, []), targets, progress;
    }
    var collected: seq<Element>;
    if m.targetCats != [] {
      collected := CollectByCategories(doc, m.targetCats);
    } else {
      collected := doc;
    }
    if collected == [] {
      return Results(0, 0, 0, []), targets, progress;
    }
    if |m.sourceParams| != |m.targetParams| {
      return Results(0, 0, 0, [ParamListMismatch]), targets, progress;
    }
    res, targets, progress := ProcessTargets(m, collected, container, hasProgressBar);
  }

  function MapTargets(m: Mapping, ts: seq<Element>, container: Element -> Option<Element>): (r: seq<Element>)
    requires |m.sourceParams| == |m.targetParams|
    ensures |r| == |ts|
  {
    if ts == [] then [] else MapTargets(m, ts[..|ts| - 1], container) + [TargetAfter(m, ts[|ts| - 1], container)]
  }

  // ------------------------------------------------------------ execute_all_configurations

  datatype Summary = Summary(totalConfigs: nat, configResults: seq<Results>, totalUpdated: nat, totalCopied: nat)

  function SumUpdated(rs: seq<Results>): nat
  {
    if rs == [] then 0 else SumUpdated(rs[..|rs| - 1]) + rs[|rs| - 1].updated
  }

  function SumCopied(rs: seq<Results>): nat
  {
    if rs == [] then 0 else SumCopied(rs[..|rs| - 1]) + rs[|rs| - 1].copied
  }

  /**
   * execute_all_configurations: runs each enabled configuration in order
   * (`run` stands for execute_configuration on the document) and sums the
   * per-configuration counters.
   */
  method ExecuteAllConfigurations<C>(configs: seq<C>, run: C -> Results) returns (s: Summary)
    ensures s.totalConfigs == |configs| && |s.configResults| == |configs|
    ensures forall i :: 0 <= i < |configs| ==> s.configResults[i] == run(configs[i])
    ensures s.totalUpdated == SumUpdated(s.configResults) && s.totalCopied == SumCopied(s.configResults)
    ensures configs == [] ==> s == Summary(0, [], 0, 0)
  {
    s := Summary(|configs|, [], 0, 0);
    var i := 0;
    while i < |configs|
      invariant 0 <= i <= |configs|
      invariant s.totalConfigs == |configs| && |s.configResults| == i
      invariant forall j :: 0 <= j < i ==> s.configResults[j] == run(configs[j])
      invariant s.totalUpdated == SumUpdated(s.configResults) && s.totalCopied == SumCopied(s.configResults)
    {
      var r := run(configs[i]);
      var rs := s.configResults + [r];
      assert rs[..|rs| - 1] == s.configResults;
      s := Summary(s.totalConfigs, rs, s.totalUpdated + r.updated, s.totalCopied + r.copied);
      i := i + 1;
    }
  }
}
