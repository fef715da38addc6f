/**
 * What the two StreamBIM importer windows share: the checklist items the
 * StreamBIM service returns, the property list with its sample values, the
 * GUID-to-item dictionary, the Revit elements matched to the items by IFC
 * GUID, and the conversion of a text value to a parameter's storage type.
 */
module Checklists {
  import opened Common
  import opened Strs
  import Sorting
  import StrOrder
  import RevitUtils
  import ColorValues

  // ---------------------------------------------------------------- items

  /** One entry of an item's `items` dictionary, its value held as text. */
  datatype Field = Field(name: string, value: string)

  /**
   * A checklist item: `guid` is the `object` field: the IFC GUID of the object it is about,
   * when the item has one; `fields` is its `items` dictionary, [] when the
   * item has none or an empty one.
   */
  datatype Item = Item(guid: Option<string>, fields: seq<Field>)

  /**
   * `fields[name]`. A dictionary holds one entry per key; the first entry
   * with the name is the one read.
   */
  function Lookup(fs: seq<Field>, name: string): (r: Option<string>)
    ensures r.None? <==> forall i :: 0 <= i < |fs| ==> fs[i].name != name
    ensures r.Some? ==> Field(name, r.value) in fs
  {
    if fs == [] then None
    else if fs[0].name == name then Some(fs[0].value)
    else Lookup(fs[1..], name)
  }

  /** The keys of one dictionary, in order. */
  function FieldNames(fs: seq<Field>): seq<string>
  {
    seq(|fs|, j requires 0 <= j < |fs| => fs[j].name)
  }

  lemma FieldNamesMembers(fs: seq<Field>, x: string)
    ensures x in FieldNames(fs) <==> Lookup(fs, x).Some?
  {
    if x in FieldNames(fs) {
      var j :| 0 <= j < |fs| && FieldNames(fs)[j] == x;
      assert fs[j].name == x;
    }
    if Lookup(fs, x).Some? {
      var j :| 0 <= j < |fs| && fs[j].name == x;
      assert FieldNames(fs)[j] == x;
    }
  }

  /** The keys of every item's dictionary, item after item. */
  function AllNames(items: seq<Item>): seq<string>
  {
    if items == [] then []
    else AllNames(items[..|items| - 1]) + FieldNames(items[|items| - 1].fields)
  }

  lemma {:induction false} AllNamesMembers(items: seq<Item>, x: string)
    ensures x in AllNames(items) <==> exists i :: 0 <= i < |items| && Lookup(items[i].fields, x).Some?
  {
    if items != [] {
      var n := |items| - 1;
      var init := items[..n];
      AllNamesMembers(init, x);
      FieldNamesMembers(items[n].fields, x);
      assert AllNames(items) == AllNames(init) + FieldNames(items[n].fields);
      if x in AllNames(items) && x !in FieldNames(items[n].fields) {
        var i :| 0 <= i < n && Lookup(init[i].fields, x).Some?;
        assert items[i] == init[i];
      }
      if exists i :: 0 <= i < |items| && Lookup(items[i].fields, x).Some? {
        var i :| 0 <= i < |items| && Lookup(items[i].fields, x).Some?;
        if i < n {
          assert init[i] == items[i];
        }
      }
    }
  }

  /** `sorted(property_sets)`: the union of the item keys, ascending. */
  function PropertyNames(items: seq<Item>): seq<string>
  {
    StrOrder.SortedSet(AllNames(items))
  }

  /** The property names are ascending, each once, and exactly the keys some item carries. */
  lemma PropertyNamesProps(items: seq<Item>)
    ensures Sorting.Sorted(PropertyNames(items), StrOrder.Le)
    ensures forall x :: multiset(PropertyNames(items))[x] <= 1
    ensures forall x :: x in PropertyNames(items) <==> exists i :: 0 <= i < |items| && Lookup(items[i].fields, x).Some?
  {
    StrOrder.SortedSetProps(AllNames(items));
    forall x ensures x in PropertyNames(items) <==> exists i :: 0 <= i < |items| && Lookup(items[i].fields, x).Some? {
      AllNamesMembers(items, x);
    }
  }

  // ---------------------------------------------------------------- samples

  /** The value an item gives `name`, as a list holding it when it is truthy. */
  function Truthy(it: Item, name: string): seq<string>
  {
    match Lookup(it.fields, name)
    case None => []
    case Some(v) => if v != "" then [v] else []
  }

  /** The lists `f` gives the items, concatenated item after item. */
  function Gather(items: seq<Item>, f: Item -> seq<string>): seq<string>
  {
    if items == [] then [] else Gather(items[..|items| - 1], f) + f(items[|items| - 1])
  }

  lemma {:induction false} GatherAppend(a: seq<Item>, b: seq<Item>, f: Item -> seq<string>)
    ensures Gather(a + b, f) == Gather(a, f) + Gather(b, f)
  {
    if b == [] {
      assert a + b == a;
    } else {
      var init, last := b[..|b| - 1], b[|b| - 1];
      GatherAppend(a, init, f);
      assert b == init + [last];
      assert a + b == (a + init) + [last];
    }
  }

  /** The truthy values of `name`, item after item. */
  function ValuesOf(items: seq<Item>, name: string): seq<string>
  {
    Gather(items, it => Truthy(it, name))
  }

  lemma ValuesOfAppend(a: seq<Item>, b: seq<Item>, name: string)
    ensures ValuesOf(a + b, name) == ValuesOf(a, name) + ValuesOf(b, name)
  {
    GatherAppend(a, b, it => Truthy(it, name));
  }

  lemma {:induction false} ValuesOfMembers(items: seq<Item>, name: string, v: string)
    ensures v in ValuesOf(items, name) <==> v != "" && exists i :: 0 <= i < |items| && Lookup(items[i].fields, name) == Some(v)
  {
    if items != [] {
      var n := |items| - 1;
      var init := items[..n];
      ValuesOfMembers(init, name, v);
      ValuesOfOne(items[n], name);
      assert init + [items[n]] == items;
      ValuesOfAppend(init, [items[n]], name);
      if v in ValuesOf(items, name) && v !in Truthy(items[n], name) {
        var i :| 0 <= i < n && Lookup(init[i].fields, name) == Some(v);
        assert items[i] == init[i];
      }
      if v != "" && exists i :: 0 <= i < |items| && Lookup(items[i].fields, name) == Some(v) {
        var i :| 0 <= i < |items| && Lookup(items[i].fields, name) == Some(v);
        if i < n {
          assert init[i] == items[i];
        } else {
          assert Truthy(items[n], name) == [v];
        }
      }
    }
  }

  /**
   * The samples of `name`: its distinct truthy values in order of first
   * appearance, at most `limit` of them.
   */
  function Samples(items: seq<Item>, name: string, limit: nat): seq<string>
  {
    RevitUtils.SliceTo(StrOrder.Dedup(ValuesOf(items, name)), limit)
  }

  /** Once exactly `limit` distinct values are seen, the items after them change no sample. */
  lemma SamplesStop(items: seq<Item>, n: nat, name: string, limit: nat)
    requires n <= |items|
    requires |StrOrder.Dedup(ValuesOf(items[..n], name))| == limit
    ensures Samples(items, name, limit) == StrOrder.Dedup(ValuesOf(items[..n], name))
  {
    var a, b := items[..n], items[n..];
    assert a + b == items;
    var xs, ys := ValuesOf(a, name), ValuesOf(b, name);
    ValuesOfAppend(a, b, name);
    StrOrder.DedupPrefix(xs, ys);
    var d0, d := StrOrder.Dedup(xs), StrOrder.Dedup(xs + ys);
    assert d[..limit] == d0[..limit] == d0;
  }

  lemma SamplesStep(items: seq<Item>, i: nat, name: string)
    requires i < |items|
    ensures var d := StrOrder.Dedup(ValuesOf(items[..i], name));
      var v := Lookup(items[i].fields, name);
      StrOrder.Dedup(ValuesOf(items[..i + 1], name)) ==
        if v.Some? && v.value != "" && v.value !in d then d + [v.value] else d
  {
    assert items[..i + 1][..i] == items[..i];
    var xs := ValuesOf(items[..i], name);
    var t := Truthy(items[i], name);
    assert ValuesOf(items[..i + 1], name) == xs + t;
    if t == [] {
      assert xs + t == xs;
    } else {
      assert (xs + t)[..|xs|] == xs;
    }
  }

  /**
   * The sample loop: walk the items, keep each truthy value not kept yet,
   * and stop as soon as `limit` values are kept.
   */
  method CollectSamples(items: seq<Item>, name: string, limit: nat) returns (samples: seq<string>)
    requires limit >= 1
    ensures samples == Samples(items, name, limit)
  {
    samples := [];
    for i := 0 to |items|
      invariant samples == StrOrder.Dedup(ValuesOf(items[..i], name))
      invariant |samples| < limit
    {
      SamplesStep(items, i, name);
      var v := Lookup(items[i].fields, name);
      if v.Some? {
        if v.value != "" && v.value !in samples {
          samples := samples + [v.value];
        }
        if |samples| >= limit {
          SamplesStop(items, i + 1, name, limit);
          return;
        }
      }
    }
    assert items[..|items|] == items;
  }

  /** The samples are distinct, truthy values of `name`, at most `limit`, and all of them when fewer. */
  lemma SamplesProps(items: seq<Item>, name: string, limit: nat)
    ensures |Samples(items, name, limit)| <= limit
    ensures forall x :: multiset(Samples(items, name, limit))[x] <= 1
    ensures forall x :: x in Samples(items, name, limit) ==>
      x != "" && exists i :: 0 <= i < |items| && Lookup(items[i].fields, name) == Some(x)
    ensures |Samples(items, name, limit)| < limit ==>
      forall i :: 0 <= i < |items| && Lookup(items[i].fields, name).Some? && Lookup(items[i].fields, name).value != "" ==>
        Lookup(items[i].fields, name).value in Samples(items, name, limit)
  {
    var d := StrOrder.Dedup(ValuesOf(items, name));
    var r := Samples(items, name, limit);
    StrOrder.DedupOnce(ValuesOf(items, name));
    if limit < |d| {
      assert d == r + d[limit..];
    }
    forall x ensures multiset(r)[x] <= 1 {
      if limit < |d| {
        assert multiset(d) == multiset(r) + multiset(d[limit..]);
      }
    }
    forall x | x in r
      ensures x != "" && exists i :: 0 <= i < |items| && Lookup(items[i].fields, name) == Some(x)
    {
      ValuesOfMembers(items, name, x);
    }
    forall i | 0 <= i < |items| && Lookup(items[i].fields, name).Some? && Lookup(items[i].fields, name).value != "" && |r| < limit
      ensures Lookup(items[i].fields, name).value in r
    {
      ValuesOfMembers(items, name, Lookup(items[i].fields, name).value);
    }
  }

  /** The `PropertyValue` record the property list shows. */
  datatype PropertyValue = PropertyValue(name: string, sample: string)

  /** The preview text: the first three samples joined by ", ", and "..." when more were kept. */
  function SampleText(samples: seq<string>): string
  {
    Join(RevitUtils.SliceTo(samples, 3), ", ") + (if |samples| > 3 then "..." else "")
  }

  /**
   * How many samples the loop keeps. The scripts stop at three, which leaves
   * the "..." of `SampleText` unreachable (`SampleTextShowsMore` keeps a
   * fourth one, which shows it).
   */
  const SampleLimit: nat := 3

  /** As written, with the loop stopping at three samples, no "..." is ever added. */
  lemma SampleTextAsWritten(items: seq<Item>, name: string)
    ensures SampleText(Samples(items, name, SampleLimit)) == Join(Samples(items, name, SampleLimit), ", ")
  {
  }

  /** The values of a single item: its own truthy value. */
  lemma ValuesOfOne(it: Item, name: string)
    ensures ValuesOf([it], name) == Truthy(it, name)
  {
    var f := (x: Item) => Truthy(x, name);
    assert [it][..0] == [] && [it][0] == it;
    assert Gather([it], f) == Gather([], f) + f(it);
  }

  /** Four distinct values show only the first three, with nothing marking the fourth. */
  lemma SampleTextHidesMore()
    ensures var items := [Item(None, [Field("p", "a")]), Item(None, [Field("p", "b")]),
                          Item(None, [Field("p", "c")]), Item(None, [Field("p", "d")])];
      |StrOrder.Dedup(ValuesOf(items, "p"))| == 4 && SampleText(Samples(items, "p", 3)) == "a, b, c"
  {
    ValuesAbcd();
    DedupAbcd();
    var three := ["a", "b", "c"];
    assert RevitUtils.SliceTo(["a", "b", "c", "d"], 3) == three;
    assert RevitUtils.SliceTo(three, 3) == three;
    assert Join(three, ", ") == "a, b, c";
  }

  /** The items of the counterexample hold the values a, b, c, d. */
  lemma ValuesAbcd()
    ensures ValuesOf([Item(None, [Field("p", "a")]), Item(None, [Field("p", "b")]),
                      Item(None, [Field("p", "c")]), Item(None, [Field("p", "d")])], "p") == ["a", "b", "c", "d"]
  {
    var i1, i2, i3, i4 := Item(None, [Field("p", "a")]), Item(None, [Field("p", "b")]),
                          Item(None, [Field("p", "c")]), Item(None, [Field("p", "d")]);
    ValuesOfOne(i1, "p");
    ValuesOfOne(i2, "p");
    ValuesOfOne(i3, "p");
    ValuesOfOne(i4, "p");
    ValuesOfAppend([i1], [i2], "p");
    ValuesOfAppend([i1, i2], [i3], "p");
    ValuesOfAppend([i1, i2, i3], [i4], "p");
    assert [i1] + [i2] == [i1, i2] && [i1, i2] + [i3] == [i1, i2, i3] && [i1, i2, i3] + [i4] == [i1, i2, i3, i4];
  }

  /** Four different values are kept, in order. */
  lemma DedupAbcd()
    ensures StrOrder.Dedup(["a", "b", "c", "d"]) == ["a", "b", "c", "d"]
  {
    var vs := ["a", "b", "c", "d"];
    assert vs[..1][..0] == [] && vs[..2][..1] == vs[..1] && vs[..3][..2] == vs[..2] && vs[..4][..3] == vs[..3];
    assert StrOrder.Dedup(vs[..1]) == ["a"];
    assert StrOrder.Dedup(vs[..2]) == ["a", "b"];
    assert StrOrder.Dedup(vs[..3]) == ["a", "b", "c"];
    assert vs[..4] == vs;
  }

  /**
   * With four samples kept, the preview shows the same first three values
   * and ends in "..." exactly when the property has more than three.
   */
  lemma SampleTextShowsMore(items: seq<Item>, name: string)
    ensures SampleText(Samples(items, name, 4)) ==
      Join(Samples(items, name, 3), ", ") + (if |StrOrder.Dedup(ValuesOf(items, name))| > 3 then "..." else "")
  {
    var d := StrOrder.Dedup(ValuesOf(items, name));
    if |d| >= 4 {
      assert d[..4][..3] == d[..3];
    }
  }

  /** The list entry of one property: its name with its preview text. */
  function PropertyOf(items: seq<Item>, name: string): PropertyValue
  {
    PropertyValue(name, SampleText(Samples(items, name, SampleLimit)))
  }

  /** The property list: each name with its preview text. */
  function Properties(items: seq<Item>): seq<PropertyValue>
  {
    var names := PropertyNames(items);
    seq(|names|, k requires 0 <= k < |names| => PropertyOf(items, names[k]))
  }

  /** `extract_available_properties`: one record per property name, in sorted order. */
  method ExtractProperties(items: seq<Item>) returns (props: seq<PropertyValue>)
    ensures props == Properties(items)
  {
    var names := PropertyNames(items);
    props := [];
    for k := 0 to |names|
      invariant |props| == k
      invariant forall j :: 0 <= j < k ==> props[j] == PropertyOf(items, names[j])
    {
      var samples := CollectSamples(items, names[k], SampleLimit);
      props := props + [PropertyValue(names[k], SampleText(samples))];
    }
  }

  /** The names the property box lists. */
  function NamesOf(ps: seq<PropertyValue>): seq<string>
  {
    seq(|ps|, k requires 0 <= k < |ps| => ps[k].name)
  }

  /**
   * The property list names each key of the items once, ascending, each
   * with its first three distinct values joined by ", " and no "...".
   */
  lemma PropertiesProps(items: seq<Item>)
    ensures forall x :: x in NamesOf(Properties(items)) <==>
      exists i :: 0 <= i < |items| && Lookup(items[i].fields, x).Some?
    ensures forall j, k :: 0 <= j < k < |Properties(items)| ==>
      StrLe(Properties(items)[j].name, Properties(items)[k].name) && Properties(items)[j].name != Properties(items)[k].name
    ensures forall k :: 0 <= k < |Properties(items)| ==>
      Properties(items)[k].sample == Join(Samples(items, Properties(items)[k].name, SampleLimit), ", ")
  {
    var names := PropertyNames(items);
    var ps := Properties(items);
    PropertyNamesProps(items);
    assert NamesOf(ps) == names;
    StrOrder.OnceDistinct(names);
    forall j, k | 0 <= j < k < |ps| ensures StrLe(ps[j].name, ps[k].name) && ps[j].name != ps[k].name {
      assert StrOrder.Le(names[j], names[k]);
    }
    forall k | 0 <= k < |ps| ensures ps[k].sample == Join(Samples(items, ps[k].name, SampleLimit), ", ") {
      SampleTextAsWritten(items, names[k]);
    }
  }

  // ---------------------------------------------------------------- GUID to item

  /** `guid_to_item`: each item with an `object`, under that GUID; a later item replaces an earlier one. */
  function ItemIndex(items: seq<Item>): map<string, Item>
  {
    if items == [] then map[]
    else
      var m := ItemIndex(items[..|items| - 1]);
      var it := items[|items| - 1];
      if it.guid.Some? then m[it.guid.value := it] else m
  }

  /** The last item naming a GUID is the one kept for it. */
  predicate LastFor(items: seq<Item>, g: string, i: int)
  {
    0 <= i < |items| && items[i].guid == Some(g) &&
    forall j :: i < j < |items| ==> items[j].guid != Some(g)
  }

  lemma {:induction false} ItemIndexLastWins(items: seq<Item>, g: string)
    ensures g in ItemIndex(items) <==> exists i :: 0 <= i < |items| && items[i].guid == Some(g)
    ensures g in ItemIndex(items) ==> exists i :: LastFor(items, g, i) && ItemIndex(items)[g] == items[i]
  {
    if items != [] {
      var n := |items| - 1;
      var init := items[..n];
      ItemIndexLastWins(init, g);
      assert forall i :: 0 <= i < n ==> init[i] == items[i];
      if items[n].guid == Some(g) {
        assert LastFor(items, g, n);
      } else if g in ItemIndex(init) {
        var i :| LastFor(init, g, i) && ItemIndex(init)[g] == init[i];
        assert LastFor(items, g, i);
      }
    }
  }

  /** The GUIDs of the items, each once, in order of first appearance: the dictionary's key order. */
  function ItemOrder(items: seq<Item>): seq<string>
  {
    if items == [] then []
    else
      var init := ItemOrder(items[..|items| - 1]);
      var it := items[|items| - 1];
      if it.guid.Some? && it.guid.value !in init then init + [it.guid.value] else init
  }

  /** The key order lists every key of the dictionary exactly once. */
  lemma {:induction false} ItemOrderKeys(items: seq<Item>)
    ensures forall g :: g in ItemOrder(items) <==> g in ItemIndex(items)
    ensures forall g :: multiset(ItemOrder(items))[g] <= 1
  {
    if items != [] {
      ItemOrderKeys(items[..|items| - 1]);
    }
  }

  /** The loop building `guid_to_item`, with the order its keys were first set in. */
  method BuildItemIndex(items: seq<Item>) returns (index: map<string, Item>, order: seq<string>)
    ensures index == ItemIndex(items) && order == ItemOrder(items)
  {
    index := map[];
    order := [];
    for i := 0 to |items|
      invariant index == ItemIndex(items[..i]) && order == ItemOrder(items[..i])
    {
      assert items[..i + 1][..i] == items[..i];
      ItemOrderKeys(items[..i]);
      var g := items[i].guid;
      if g.Some? {
        if g.value !in index {
          order := order + [g.value];
        }
        index := index[g.value := items[i]];
      }
    }
    assert items[..|items|] == items;
  }

  // ---------------------------------------------------------------- elements

  /** A parameter of an element together with its name. */
  datatype NamedParam = NamedParam(name: string, param: Param)

  /** A Revit element as the importers see it: its id and its parameters. */
  datatype Element = Element(id: int, params: seq<NamedParam>)

  /** Position of the first parameter called `name`. */
  function ParamIndex(ps: seq<NamedParam>, name: string): (r: Option<nat>)
    ensures r.Some? ==> (r.value < |ps| && ps[r.value].name == name &&
      forall j :: 0 <= j < r.value ==> ps[j].name != name)
    ensures r.None? ==> forall j :: 0 <= j < |ps| ==> ps[j].name != name
  {
    if ps == [] then None
    else if ps[0].name == name then Some(0)
    else match ParamIndex(ps[1..], name)
      case None => None
      case Some(k) => Some(k + 1)
  }

  /** `element.LookupParameter(name)`. */
  function LookupParameter(e: Element, name: string): Option<Param>
  {
    match ParamIndex(e.params, name)
    case None => None
    case Some(k) => Some(e.params[k].param)
  }

  /** `param.Set(v)` on the parameter `LookupParameter(name)` returns: it now holds `v`. */
  function SetParam(e: Element, name: string, v: ParamValue): (r: Element)
    requires LookupParameter(e, name).Some?
    ensures r.id == e.id && |r.params| == |e.params|
    ensures LookupParameter(r, name) == Some(LookupParameter(e, name).value.(hasValue := true, value := v))
    ensures forall n :: n != name ==> LookupParameter(r, n) == LookupParameter(e, n)
  {
    var k := ParamIndex(e.params, name).value;
    var p := e.params[k].param;
    var r := e.(params := e.params[k := NamedParam(name, p.(hasValue := true, value := v))]);
    assert ParamIndex(r.params, name) == Some(k) by {
      ParamIndexSame(e.params, r.params, name, k);
    }
    forall n | n != name ensures LookupParameter(r, n) == LookupParameter(e, n) {
      ParamIndexOther(e.params, k, NamedParam(name, p.(hasValue := true, value := v)), n);
    }
    r
  }

  lemma {:induction false} ParamIndexSame(ps: seq<NamedParam>, qs: seq<NamedParam>, name: string, k: nat)
    requires |ps| == |qs| && ParamIndex(ps, name) == Some(k)
    requires qs[k].name == name && forall j :: 0 <= j < |ps| && j != k ==> qs[j] == ps[j]
    ensures ParamIndex(qs, name) == Some(k)
  {
    if k > 0 {
      ParamIndexSame(ps[1..], qs[1..], name, k - 1);
    }
  }

  lemma {:induction false} ParamIndexOther(ps: seq<NamedParam>, k: nat, np: NamedParam, n: string)
    requires k < |ps| && ps[k].name == np.name && n != np.name
    ensures ParamIndex(ps[k := np], n) == ParamIndex(ps, n)
    ensures ParamIndex(ps, n).Some? ==> ParamIndex(ps, n).value != k
  {
    if k > 0 && ps[0].name != n {
      assert ps[k := np][1..] == ps[1..][k - 1 := np];
      ParamIndexOther(ps[1..], k - 1, np, n);
    }
  }

  /** The IFC GUID parameter: "IFCGuid", else "IfcGUID", else "IFC GUID". */
  function GuidParam(e: Element): (r: Option<Param>)
    ensures r.None? <==>
      LookupParameter(e, "IFCGuid").None? && LookupParameter(e, "IfcGUID").None? && LookupParameter(e, "IFC GUID").None?
    ensures LookupParameter(e, "IFCGuid").Some? ==> r == LookupParameter(e, "IFCGuid")
    ensures LookupParameter(e, "IFCGuid").None? && LookupParameter(e, "IfcGUID").Some? ==> r == LookupParameter(e, "IfcGUID")
    ensures LookupParameter(e, "IFCGuid").None? && LookupParameter(e, "IfcGUID").None? ==> r == LookupParameter(e, "IFC GUID")
  {
    match LookupParameter(e, "IFCGuid")
    case Some(p) => Some(p)
    case None =>
      match LookupParameter(e, "IfcGUID")
      case Some(p) => Some(p)
      case None => LookupParameter(e, "IFC GUID")
  }

  // ---------------------------------------------------------------- conversion

  /** What `param.Set` receives for a text value: written, rejected by the conversion, or not a settable storage. */
  datatype Conversion = Converted(v: ParamValue) | Invalid | NotSettable

  /** `str(value)`, `int(value)` or `float(value)` by the parameter's storage type. */
  function Convert(storage: StorageType, text: string): Conversion
  {
    match storage
    case StrStorage => Converted(StrVal(text))
    case IntStorage =>
      (match ParseInt(text)
       case None => Invalid
       case Some(i) => Converted(IntVal(i)))
    case DoubleStorage =>
      (match ColorValues.ParseFloat(text)
       case None => Invalid
       case Some(x) => Converted(DoubleVal(x)))
    case _ => NotSettable
  }

  /** A printed integer is written to an integer parameter as that integer. */
  lemma ConvertInteger(i: int)
    ensures Convert(IntStorage, IntToString(i)) == Converted(IntVal(i))
  {
    IntRoundTrip(i);
  }

  /** A printed integer is written to a number parameter as that number. */
  lemma ConvertDouble(i: int)
    ensures Convert(DoubleStorage, IntToString(i)) == Converted(DoubleVal(i as real))
  {
    ColorValues.ParseFloatInt(i);
  }
}
