/**
 * The Colorizer window of the BS tab's Colorize panel: the categories used
 * in the active view with their parameters, and the rows of one
 * parameter's values, each with a colour drawn at random (or taken from a
 * predefined schema), ordered by text, by number, or by the number in front
 * of a unit.
 */
module PyRevitColorizer {
  import opened Common
  import opened Strs
  import Sorting
  import StrOrder
  import RevitUtils
  import opened ColorValues
  import ViewColorElements
  import BsColorElements

  type ParamInfo = ViewColorElements.ParamInfo
  type CatRef = BsColorElements.CatRef
  type CategoryInfo = BsColorElements.CategoryInfo

  // ---------------------------------------------------------------- categories used in the view

  /** A parameter `get_used_categories` lists: it has a definition and a storage type. */
  predicate Listable(p: PParam)
  {
    p.definition.Some? && p.param.storage != NoStorage
  }

  /** `[ParameterInfo(kind, p) for p in ps if p.Definition and p.StorageType != None]` */
  function ListParams(ps: seq<PParam>, kind: int): (r: seq<ParamInfo>)
    ensures |r| <= |ps|
    ensures forall q :: q in r <==> (q.paramType == kind &&
      exists p :: p in ps && Listable(p) && q == ViewColorElements.ParamInfo(p.definition.value, kind))
  {
    if ps == [] then []
    else
      var rest := ListParams(ps[1..], kind);
      assert forall p :: p in ps <==> p == ps[0] || p in ps[1..];
      (if Listable(ps[0]) then [ViewColorElements.ParamInfo(ps[0].definition.value, kind)] else []) + rest
  }

  /** `x.name` order. */
  const NameLe: (ParamInfo, ParamInfo) -> bool := (a: ParamInfo, b: ParamInfo) => StrLe(a.name, b.name)

  lemma NameLeTotal()
    ensures Sorting.TotalPreorder(NameLe)
  {
    StrOrder.LeTotalPreorder();
    forall a: ParamInfo, b: ParamInfo ensures NameLe(a, b) || NameLe(b, a) {
      assert StrOrder.Le(a.name, b.name) || StrOrder.Le(b.name, a.name);
    }
    forall a: ParamInfo, b: ParamInfo, c: ParamInfo | NameLe(a, b) && NameLe(b, c) ensures NameLe(a, c) {
      assert StrOrder.Le(a.name, b.name) && StrOrder.Le(b.name, c.name);
    }
  }

  /** The instance parameters (kind 0), then the type's (kind 1) when the element has a type. */
  function AllParams(e: PElement): seq<ParamInfo>
  {
    ListParams(e.params, 0) + (if e.typeParams.Some? then ListParams(e.typeParams.value, 1) else [])
  }

  /** The category an element adds: its name and id, its parameters sorted by name. */
  function CategoryOf(e: PElement): CategoryInfo
    requires e.category.Some?
  {
    BsColorElements.CategoryInfo(e.category.value.name, e.category.value.id, Sorting.Sort(AllParams(e), NameLe))
  }

  /** An element with a category of this id. */
  predicate InCategory(e: PElement, id: int)
  {
    e.category.Some? && e.category.value.id == id
  }

  /**
   * Whether the loop adds a category for `e`, given those collected so far:
   * it has a category, not excluded, with an id below -1, not seen yet.
   */
  predicate Admits(cats: seq<CategoryInfo>, e: PElement, excluded: set<int>)
  {
    e.category.Some? && e.category.value.id !in excluded && e.category.value.id < -1 &&
    !BsColorElements.Listed(cats, e.category.value.id)
  }

  /** The categories collected, in the order of the elements. */
  function Collect(es: seq<PElement>, excluded: set<int>): seq<CategoryInfo>
  {
    if es == [] then []
    else
      var acc := Collect(es[..|es| - 1], excluded);
      var e := es[|es| - 1];
      if Admits(acc, e, excluded) then acc + [CategoryOf(e)] else acc
  }

  /** `get_used_categories`: the collected categories sorted by name. */
  function UsedCategories(es: seq<PElement>, excluded: set<int>): seq<CategoryInfo>
  {
    Sorting.Sort(Collect(es, excluded), BsColorElements.CatLe)
  }

  /** The exclusion list used: the one given unless it is empty, else `CAT_EXCLUDED`. */
  function ExcludedOr(given: set<int>, builtIn: set<int>): (r: set<int>)
    ensures given != {} ==> r == given
    ensures given == {} ==> BsColorElements.ExtraExcluded <= r && builtIn <= r
  {
    if given != {} then given else builtIn + BsColorElements.ExtraExcluded
  }

  /**
   * `get_used_categories` over the elements of the view; `builtIn` holds the
   * ids of the built-in categories `CAT_EXCLUDED` names, and an empty
   * `given` stands for no exclusion list.
   */
  method GetUsedCategories(es: seq<PElement>, given: set<int>, builtIn: set<int>) returns (cats: seq<CategoryInfo>)
    ensures cats == UsedCategories(es, ExcludedOr(given, builtIn))
  {
    var ex := ExcludedOr(given, builtIn);
    cats := [];
    for i := 0 to |es|
      invariant cats == Collect(es[..i], ex)
    {
      assert es[..i + 1][..i] == es[..i];
      var e := es[i];
      if e.category.None? {
        continue;
      }
      var id := e.category.value.id;
      if id in ex || id >= -1 {
        continue;
      }
      if BsColorElements.Listed(cats, id) {
        continue;
      }
      var instance := ListParams(e.params, 0);
      var types := if e.typeParams.Some? then ListParams(e.typeParams.value, 1) else [];
      var sorted := Sorting.Sort(instance + types, NameLe);
      cats := cats + [BsColorElements.CategoryInfo(e.category.value.name, id, sorted)];
    }
    assert es[..|es|] == es;
    cats := Sorting.Sort(cats, BsColorElements.CatLe);
  }

  /** Index of the first element with a category of this id, or -1. */
  function FirstOf(es: seq<PElement>, id: int): (r: int)
    ensures -1 <= r < |es|
    ensures r >= 0 ==> InCategory(es[r], id) && forall m :: 0 <= m < r ==> !InCategory(es[m], id)
    ensures r < 0 ==> forall m :: 0 <= m < |es| ==> !InCategory(es[m], id)
  {
    if es == [] then -1
    else
      var f := FirstOf(es[..|es| - 1], id);
      if f >= 0 then f else if InCategory(es[|es| - 1], id) then |es| - 1 else -1
  }

  /**
   * The collected list has a category for each id below -1 that is not
   * excluded and that some element carries, and for no other id.
   */
  lemma {:induction false} CollectListed(es: seq<PElement>, excluded: set<int>)
    ensures forall id :: BsColorElements.Listed(Collect(es, excluded), id) <==>
      id !in excluded && id < -1 && FirstOf(es, id) >= 0
  {
    if es != [] {
      var init := es[..|es| - 1];
      var e := es[|es| - 1];
      CollectListed(init, excluded);
      var acc := Collect(init, excluded);
      forall id ensures BsColorElements.Listed(Collect(es, excluded), id) <==>
        id !in excluded && id < -1 && FirstOf(es, id) >= 0
      {
        if Admits(acc, e, excluded) {
          var r := acc + [CategoryOf(e)];
          assert r[|acc|].id == e.category.value.id;
          if BsColorElements.Listed(acc, id) {
            var k :| 0 <= k < |acc| && acc[k].id == id;
            assert r[k].id == id;
          }
          if BsColorElements.Listed(r, id) {
            var k :| 0 <= k < |r| && r[k].id == id;
            if k < |acc| {
              assert acc[k].id == id;
            }
          }
        }
      }
    }
  }

  /** `c` is the category the first element of its id describes. */
  predicate BuiltFromFirst(es: seq<PElement>, c: CategoryInfo)
  {
    var f := FirstOf(es, c.id);
    f >= 0 && c == CategoryOf(es[f])
  }

  lemma BuiltFromFirstExtend(es: seq<PElement>, c: CategoryInfo)
    requires es != [] && BuiltFromFirst(es[..|es| - 1], c)
    ensures BuiltFromFirst(es, c)
  {
    var f := FirstOf(es[..|es| - 1], c.id);
    assert es[f] == es[..|es| - 1][f];
  }

  /** Each collected category is the one the first element of its id describes. */
  lemma {:induction false} CollectFirst(es: seq<PElement>, excluded: set<int>)
    ensures forall c :: c in Collect(es, excluded) ==> BuiltFromFirst(es, c)
  {
    if es != [] {
      var init := es[..|es| - 1];
      var e := es[|es| - 1];
      CollectFirst(init, excluded);
      var acc := Collect(init, excluded);
      forall c | c in acc ensures BuiltFromFirst(es, c) {
        BuiltFromFirstExtend(es, c);
      }
      if Admits(acc, e, excluded) {
        CollectListed(init, excluded);
        var id := e.category.value.id;
        assert FirstOf(init, id) < 0;
        assert FirstOf(es, id) == |es| - 1;
        assert BuiltFromFirst(es, CategoryOf(e));
      }
    }
  }

  /** No two collected categories share an id. */
  lemma {:induction false} CollectDistinct(es: seq<PElement>, excluded: set<int>)
    ensures Sorting.DistinctBy(Collect(es, excluded), BsColorElements.CatId)
  {
    if es != [] {
      var init := es[..|es| - 1];
      var e := es[|es| - 1];
      CollectDistinct(init, excluded);
      var acc := Collect(init, excluded);
      if Admits(acc, e, excluded) {
        var r := acc + [CategoryOf(e)];
        forall i, j | 0 <= i < j < |r| ensures BsColorElements.CatId(r[i]) != BsColorElements.CatId(r[j]) {
          if j == |acc| {
            assert r[i] == acc[i];
          } else {
            assert r[i] == acc[i] && r[j] == acc[j];
          }
        }
      }
    }
  }

  /** `get_used_categories` is sorted by name and lists each id once. */
  lemma UsedCategoriesSorted(es: seq<PElement>, excluded: set<int>)
    ensures Sorting.Sorted(UsedCategories(es, excluded), BsColorElements.CatLe)
    ensures Sorting.DistinctBy(UsedCategories(es, excluded), BsColorElements.CatId)
  {
    var cats := Collect(es, excluded);
    BsColorElements.OrdersTotal();
    Sorting.SortSorted(cats, BsColorElements.CatLe);
    CollectDistinct(es, excluded);
    Sorting.SortDistinctBy(cats, BsColorElements.CatLe, BsColorElements.CatId);
  }

  /**
   * `get_used_categories` lists a category for exactly the ids below -1,
   * not excluded, that an element of the view carries.
   */
  lemma UsedCategoriesListed(es: seq<PElement>, excluded: set<int>)
    ensures forall id :: BsColorElements.Listed(UsedCategories(es, excluded), id) <==>
      id !in excluded && id < -1 && FirstOf(es, id) >= 0
  {
    var cats := Collect(es, excluded);
    var r := UsedCategories(es, excluded);
    Sorting.SortElems(cats, BsColorElements.CatLe);
    CollectListed(es, excluded);
    forall id ensures BsColorElements.Listed(r, id) <==> BsColorElements.Listed(cats, id) {
      if BsColorElements.Listed(r, id) {
        var k :| 0 <= k < |r| && r[k].id == id;
        assert r[k] in cats;
      }
      if BsColorElements.Listed(cats, id) {
        var k :| 0 <= k < |cats| && cats[k].id == id;
        assert cats[k] in r;
      }
    }
  }

  /** Each category `get_used_categories` lists is built from the first element of its id. */
  lemma UsedCategoriesFirst(es: seq<PElement>, excluded: set<int>)
    ensures forall c :: c in UsedCategories(es, excluded) ==> BuiltFromFirst(es, c)
  {
    Sorting.SortElems(Collect(es, excluded), BsColorElements.CatLe);
    CollectFirst(es, excluded);
  }

  /**
   * A category's parameters are the listable parameters of the element
   * (kind 0) and of its type (kind 1), sorted by name, parameters of the
   * same name in their listed order.
   */
  lemma CategoryParams(e: PElement)
    requires e.category.Some?
    ensures var ps := CategoryOf(e).params;
      multiset(ps) == multiset(AllParams(e)) &&
      Sorting.Sorted(ps, NameLe) &&
      forall z :: Sorting.Class(ps, z, NameLe) == Sorting.Class(AllParams(e), z, NameLe)
  {
    var all := AllParams(e);
    NameLeTotal();
    Sorting.SortSorted(all, NameLe);
    forall z ensures Sorting.Class(Sorting.Sort(all, NameLe), z, NameLe) == Sorting.Class(all, z, NameLe) {
      Sorting.SortStable(all, z, NameLe);
    }
  }

  // ---------------------------------------------------------------- reading a parameter

  /**
   * A parameter: the name of its definition (none when it has no
   * definition), its storage and value, the host's formatted value
   * (`AsValueString`, empty when there is none), the text of `AsDouble()`,
   * and whether its type is Yes/No.
   */
  datatype PParam = PParam(definition: Option<string>, param: Param, valueString: string, doubleText: string, yesNo: bool)

  /** An element: its id, its category, its parameters and its type's parameters (none without a type). */
  datatype PElement = PElement(id: int, category: Option<CatRef>, params: seq<PParam>, typeParams: Option<seq<PParam>>)

  /**
   * `get_parameter_value`, with `names` the names of the elements in the
   * document. The host-version switch only chooses which API tells a Yes/No
   * parameter apart; both branches then do the same, so the version is not a
   * parameter here.
   */
  function GetParameterValue(p: PParam, names: map<int, string>): (r: string)
    ensures r == "" ==> (p.param.hasValue &&
      (p.param.storage == IdStorage || (p.param.storage == DoubleStorage && p.doubleText == "")))
  {
    if !p.param.hasValue then "None"
    else match p.param.storage
      case DoubleStorage => if p.valueString != "" then p.valueString else p.doubleText
      case IdStorage =>
        var id := RevitUtils.AsElementId(p.param.value);
        if id >= 0 && id in names then names[id] else "None"
      case IntStorage =>
        if p.yesNo then (if RevitUtils.AsInteger(p.param.value) == 1 then "Yes" else "No")
        else if p.valueString != "" then p.valueString
        else IntToString(RevitUtils.AsInteger(p.param.value))
      case StrStorage =>
        var s := RevitUtils.AsString(p.param.value);
        if s != "" then s else "None"
      case NoStorage => "None"
  }

  /**
   * "None" without a value; "Yes"/"No" for a Yes/No parameter; an integer
   * without a formatted value as a text that reads back as that integer; an
   * element's name, or "None" when the id is negative or names no element;
   * a text, or "None" when it is empty; a double's formatted value, else its
   * plain text.
   */
  lemma ParameterValueCases(p: PParam, names: map<int, string>)
    ensures var r := GetParameterValue(p, names);
      (!p.param.hasValue || p.param.storage == NoStorage ==> r == "None") &&
      (p.param.hasValue && p.param.storage == IntStorage && p.yesNo ==>
        (r == "Yes" <==> RevitUtils.AsInteger(p.param.value) == 1) &&
        (r == "No" <==> RevitUtils.AsInteger(p.param.value) != 1)) &&
      (p.param.hasValue && p.param.storage == IntStorage && !p.yesNo && p.valueString == "" ==>
        ParseInt(r) == Some(RevitUtils.AsInteger(p.param.value))) &&
      (p.param.hasValue && p.param.storage == IdStorage ==>
        var id := RevitUtils.AsElementId(p.param.value);
        (id >= 0 && id in names ==> r == names[id]) && (id < 0 || id !in names ==> r == "None")) &&
      (p.param.hasValue && p.param.storage == StrStorage ==>
        var s := RevitUtils.AsString(p.param.value);
        (s != "" ==> r == s) && (s == "" ==> r == "None")) &&
      (p.param.hasValue && p.param.storage == DoubleStorage ==>
        r == if p.valueString != "" then p.valueString else p.doubleText)
  {
    if p.param.hasValue && p.param.storage == IntStorage {
      var i := RevitUtils.AsInteger(p.param.value);
      if p.yesNo {
        assert "Yes" != "No";
      } else if p.valueString == "" {
        assert GetParameterValue(p, names) == IntToString(i);
        IntRoundTrip(i);
      }
    }
  }

  /** `get_parameter_value(param) or "None"` */
  function Shown(p: PParam, names: map<int, string>): (r: string)
    ensures r != ""
    ensures GetParameterValue(p, names) != "" ==> r == GetParameterValue(p, names)
  {
    var v := GetParameterValue(p, names);
    if v == "" then "None" else v
  }

  /** A parameter the search stops at: it has the name sought and its value is not a "None" left out. */
  predicate Stops(p: PParam, name: string, excludeNone: bool, names: map<int, string>)
  {
    p.definition == Some(name) && !(excludeNone && Shown(p, names) == "None")
  }

  /** A parameter the search moves past: it has a definition and is not one to stop at. */
  predicate Passes(p: PParam, name: string, excludeNone: bool, names: map<int, string>)
  {
    p.definition.Some? && !Stops(p, name, excludeNone, names)
  }

  /** What the search over one element's parameters gives: nothing, a value, or an exception. */
  datatype PRead = NoValue | Value(v: string) | Aborted

  /**
   * The inner loop of `get_parameter_values` from position `k`: the value of
   * the first parameter of the name sought whose value is kept; a parameter
   * without a definition before it raises.
   */
  function ReadFrom(ps: seq<PParam>, k: nat, name: string, excludeNone: bool, names: map<int, string>): PRead
    requires k <= |ps|
    decreases |ps| - k
  {
    if k == |ps| then NoValue
    else if ps[k].definition.None? then Aborted
    else if Stops(ps[k], name, excludeNone, names) then Value(Shown(ps[k], names))
    else ReadFrom(ps, k + 1, name, excludeNone, names)
  }

  /** Nothing is read exactly when every parameter from `k` on is passed over. */
  lemma {:induction false} ReadFromNoValue(ps: seq<PParam>, k: nat, name: string, excludeNone: bool, names: map<int, string>)
    requires k <= |ps|
    ensures ReadFrom(ps, k, name, excludeNone, names).NoValue? <==>
      forall m :: k <= m < |ps| ==> Passes(ps[m], name, excludeNone, names)
    decreases |ps| - k
  {
    if k < |ps| && ps[k].definition.Some? && !Stops(ps[k], name, excludeNone, names) {
      ReadFromNoValue(ps, k + 1, name, excludeNone, names);
    }
  }

  /** A value read is the shown value of the first parameter to stop at, all before it passed over. */
  lemma {:induction false} ReadFromValue(ps: seq<PParam>, k: nat, name: string, excludeNone: bool, names: map<int, string>)
    requires k <= |ps| && ReadFrom(ps, k, name, excludeNone, names).Value?
    ensures exists j :: (k <= j < |ps| && Stops(ps[j], name, excludeNone, names) &&
      ReadFrom(ps, k, name, excludeNone, names).v == Shown(ps[j], names) &&
      forall m :: k <= m < j ==> Passes(ps[m], name, excludeNone, names))
    decreases |ps| - k
  {
    if !Stops(ps[k], name, excludeNone, names) {
      ReadFromValue(ps, k + 1, name, excludeNone, names);
      var j :| k + 1 <= j < |ps| && Stops(ps[j], name, excludeNone, names) &&
        ReadFrom(ps, k + 1, name, excludeNone, names).v == Shown(ps[j], names) &&
        forall m :: k + 1 <= m < j ==> Passes(ps[m], name, excludeNone, names);
      assert Passes(ps[k], name, excludeNone, names);
      assert forall m :: k <= m < j ==> Passes(ps[m], name, excludeNone, names);
    }
  }

  /** A reading raises at the first parameter without a definition, all before it passed over. */
  lemma {:induction false} ReadFromAborted(ps: seq<PParam>, k: nat, name: string, excludeNone: bool, names: map<int, string>)
    requires k <= |ps| && ReadFrom(ps, k, name, excludeNone, names).Aborted?
    ensures exists j :: (k <= j < |ps| && ps[j].definition.None? &&
      forall m :: k <= m < j ==> Passes(ps[m], name, excludeNone, names))
    decreases |ps| - k
  {
    if ps[k].definition.Some? {
      ReadFromAborted(ps, k + 1, name, excludeNone, names);
      var j :| k + 1 <= j < |ps| && ps[j].definition.None? &&
        forall m :: k + 1 <= m < j ==> Passes(ps[m], name, excludeNone, names);
      assert Passes(ps[k], name, excludeNone, names);
      assert forall m :: k <= m < j ==> Passes(ps[m], name, excludeNone, names);
    }
  }

  /** The loop over one element's parameters, with its `continue` and `break`. */
  method ReadParams(ps: seq<PParam>, name: string, excludeNone: bool, names: map<int, string>) returns (r: PRead)
    ensures r == ReadFrom(ps, 0, name, excludeNone, names)
  {
    for k := 0 to |ps|
      invariant ReadFrom(ps, 0, name, excludeNone, names) == ReadFrom(ps, k, name, excludeNone, names)
    {
      var p := ps[k];
      if p.definition.None? {
        return Aborted;
      }
      if p.definition.value != name {
        continue;
      }
      var value := Shown(p, names);
      if value == "None" && excludeNone {
        continue;
      }
      return Value(value);
    }
    return NoValue;
  }

  /** One element read for the chosen parameter: on the element itself (kind 0) or on its type. */
  function ElementRead(e: PElement, chosen: ParamInfo, excludeNone: bool, names: map<int, string>): PRead
  {
    var host := if chosen.paramType == 0 then Some(e.params) else e.typeParams;
    if host.None? then NoValue else ReadFrom(host.value, 0, chosen.name, excludeNone, names)
  }

  /** Reading one element: its own parameters or its type's, nothing when it has no type. */
  method ReadElement(e: PElement, chosen: ParamInfo, excludeNone: bool, names: map<int, string>) returns (r: PRead)
    ensures r == ElementRead(e, chosen, excludeNone, names)
  {
    var host := if chosen.paramType == 0 then Some(e.params) else e.typeParams;
    if host.None? {
      return NoValue;
    }
    r := ReadParams(host.value, chosen.name, excludeNone, names);
  }

  /** The hits of the elements in order; `None` when a reading raises. */
  function Hits(es: seq<PElement>, chosen: ParamInfo, excludeNone: bool, names: map<int, string>): Option<seq<Hit>>
  {
    if es == [] then Some([])
    else match Hits(es[..|es| - 1], chosen, excludeNone, names)
      case None => None
      case Some(hs) =>
        var e := es[|es| - 1];
        match ElementRead(e, chosen, excludeNone, names)
        case Aborted => None
        case NoValue => Some(hs)
        case Value(v) => Some(hs + [Hit(v, e.id)])
  }

  lemma {:induction false} AbortStays(es: seq<PElement>, j: nat, chosen: ParamInfo, excludeNone: bool, names: map<int, string>)
    requires j <= |es| && Hits(es[..j], chosen, excludeNone, names).None?
    ensures Hits(es, chosen, excludeNone, names).None?
    decreases |es| - j
  {
    if j < |es| {
      assert es[..j + 1][..j] == es[..j];
      AbortStays(es, j + 1, chosen, excludeNone, names);
    } else {
      assert es[..j] == es;
    }
  }

  /** Every value read is non-empty, and with `exclude_none` none reads "None". */
  lemma {:induction false} HitsValues(es: seq<PElement>, chosen: ParamInfo, excludeNone: bool, names: map<int, string>)
    requires Hits(es, chosen, excludeNone, names).Some?
    ensures forall h :: h in Hits(es, chosen, excludeNone, names).value ==>
      h.value != "" && (excludeNone ==> h.value != "None")
  {
    if es != [] {
      HitsValues(es[..|es| - 1], chosen, excludeNone, names);
      var e := es[|es| - 1];
      var host := if chosen.paramType == 0 then Some(e.params) else e.typeParams;
      if host.Some? && ReadFrom(host.value, 0, chosen.name, excludeNone, names).Value? {
        ReadFromValue(host.value, 0, chosen.name, excludeNone, names);
      }
    }
  }

  /** The category of `get_parameter_values`: its id, whether it is a built-in category, its elements in the view. */
  datatype ViewCategory = ViewCategory(id: int, hasBuiltIn: bool, elements: seq<PElement>)

  /**
   * The hits `get_parameter_values` collects; none without a view, for
   * category id 0, for a category that is not built in, without elements,
   * or when a reading raises.
   */
  function ReadHits(hasView: bool, cat: ViewCategory, chosen: ParamInfo, excludeNone: bool, names: map<int, string>): seq<Hit>
  {
    if !hasView || cat.id == 0 || !cat.hasBuiltIn || cat.elements == [] then []
    else match Hits(cat.elements, chosen, excludeNone, names)
      case None => []
      case Some(hs) => hs
  }

  // ---------------------------------------------------------------- colours

  const FireRating: map<string, Rgb> :=
    map["1hr" := Rgb(255, 0, 0), "2hr" := Rgb(0, 255, 0), "3hr" := Rgb(0, 0, 255), "None" := Rgb(128, 128, 128)]

  const MmiColors: map<string, Rgb> :=
    map["A" := Rgb(255, 0, 0), "B" := Rgb(255, 165, 0), "C" := Rgb(255, 255, 0), "D" := Rgb(0, 128, 0),
        "None" := Rgb(128, 128, 128)]

  /** `PREDEFINED_SCHEMAS`: fixed colours for some values of two parameters. */
  const PredefinedSchemas: map<string, map<string, Rgb>> := map["Fire Rating" := FireRating, "MMI" := MmiColors]

  function Predefined(name: string, value: string): (r: Option<Rgb>)
    ensures r.Some? <==> name in PredefinedSchemas && value in PredefinedSchemas[name]
    ensures r.Some? ==> r.value == PredefinedSchemas[name][value]
  {
    if name in PredefinedSchemas && value in PredefinedSchemas[name] then Some(PredefinedSchemas[name][value]) else None
  }

  /** A colour `random_color` can give: three `randint(0, 230)`. */
  predicate RandintColor(c: Rgb)
  {
    0 <= c.r <= 230 && 0 <= c.g <= 230 && 0 <= c.b <= 230
  }

  /** How many colours `random_color` can give. */
  const ColorCount: nat := 231 * 231 * 231

  /** A draw at `p` or later is a colour outside `used`. */
  ghost predicate FreshAfter(draw: nat -> Rgb, used: set<Rgb>, p: nat)
  {
    exists j: nat :: p <= j && draw(j) !in used
  }

  /**
   * What the model takes of the successive results of `random_color`: each
   * is a colour it can give, and while fewer colours are used than it can
   * give, some later draw is a colour not used yet.
   */
  ghost predicate RandomDraws(draw: nat -> Rgb)
  {
    (forall k: nat :: RandintColor(draw(k))) &&
    forall used: set<Rgb>, p: nat :: |used| < ColorCount ==> FreshAfter(draw, used, p)
  }

  /** The `while True` loop drawing colours until one is not used yet. */
  method DrawFresh(draw: nat -> Rgb, pos: nat, used: set<Rgb>) returns (c: Rgb, next: nat)
    requires RandomDraws(draw) && |used| < ColorCount
    ensures c !in used && RandintColor(c) && pos < next && c == draw(next - 1)
    ensures forall m :: pos <= m < next - 1 ==> draw(m) in used
  {
    assert FreshAfter(draw, used, pos);
    ghost var j: nat :| pos <= j && draw(j) !in used;
    var k := pos;
    while draw(k) in used
      invariant pos <= k <= j
      invariant forall m :: pos <= m < k ==> draw(m) in used
      decreases j - k
    {
      k := k + 1;
    }
    c, next := draw(k), k + 1;
  }

  /** A new row's colour: the predefined one if there is one, else the one drawn. */
  function Colour(name: string, value: string, drawn: Rgb): (r: Rgb)
    ensures Predefined(name, value).Some? ==> r == Predefined(name, value).value
    ensures Predefined(name, value).None? ==> r == drawn
  {
    OrElse(Predefined(name, value), drawn)
  }

  /** The grouped rows with the colours of their values, `drawn[i]` the colour drawn for row `i`. */
  function Colored(g: seq<ValueItem>, name: string, drawn: seq<Rgb>): (r: seq<ValueItem>)
    requires |drawn| == |g|
    ensures |r| == |g|
  {
    seq(|g|, i requires 0 <= i < |g| => g[i].(color := Colour(name, g[i].value, drawn[i])))
  }

  lemma FindValueSame(a: seq<ValueItem>, b: seq<ValueItem>, v: string)
    requires |a| == |b| && forall i :: 0 <= i < |a| ==> a[i].value == b[i].value
    ensures FindValue(a, v) == FindValue(b, v)
  {
    var ka, kb := FindValue(a, v), FindValue(b, v);
    if ka >= 0 && kb >= 0 {
      assert a[kb].value == v && b[ka].value == v;
    }
  }

  /**
   * The state of the loop over the elements: the rows are the grouped rows
   * `g` coloured with `drawn`, one colour drawn per row, all different, all
   * colours `random_color` can give, and `used` holds exactly those drawn.
   */
  ghost predicate Painted(rows: seq<ValueItem>, g: seq<ValueItem>, name: string, drawn: seq<Rgb>, used: set<Rgb>)
  {
    |drawn| == |g| && rows == Colored(g, name, drawn) &&
    ViewColorElements.AllDistinct(drawn) && (forall c :: c in used <==> c in drawn) &&
    forall k :: 0 <= k < |drawn| ==> RandintColor(drawn[k])
  }

  /** One value read: its id joins the row of its value, or a new row is added with a fresh colour. */
  method AddValue(rows: seq<ValueItem>, used: set<Rgb>, pos: nat, ghost drawn: seq<Rgb>, ghost g: seq<ValueItem>,
                  h: Hit, name: string, draw: nat -> Rgb)
    returns (rows': seq<ValueItem>, used': set<Rgb>, pos': nat, ghost drawn': seq<Rgb>)
    requires RandomDraws(draw) && |used| < ColorCount
    requires Painted(rows, g, name, drawn, used)
    ensures Painted(rows', AddHit(g, h), name, drawn', used')
    ensures |used'| <= |used| + 1
  {
    var k := FindValue(rows, h.value);
    FindValueSame(rows, g, h.value);
    if k >= 0 {
      rows' := rows[k := rows[k].(ids := rows[k].ids + [h.id])];
      used', pos', drawn' := used, pos, drawn;
      ColoredJoin(g, name, drawn, k, h.id);
    } else {
      var c;
      c, pos' := DrawFresh(draw, pos, used);
      used' := used + {c};
      drawn' := drawn + [c];
      rows' := rows + [ValueItem(h.value, [h.id], Colour(name, h.value, c))];
      ColoredNew(g, name, drawn, h, c);
      forall k | 0 <= k < |drawn'| ensures RandintColor(drawn'[k]) {
        if k < |drawn| {
          assert drawn'[k] == drawn[k];
        }
      }
    }
  }

  /** Colouring commutes with an id joining the row at `k`. */
  lemma ColoredJoin(g: seq<ValueItem>, name: string, drawn: seq<Rgb>, k: nat, id: int)
    requires |drawn| == |g| && k < |g|
    ensures var c := Colored(g, name, drawn);
      Colored(g[k := g[k].(ids := g[k].ids + [id])], name, drawn) == c[k := c[k].(ids := c[k].ids + [id])]
  {
  }

  /** Colouring commutes with a new row, coloured with the colour drawn for it. */
  lemma ColoredNew(g: seq<ValueItem>, name: string, drawn: seq<Rgb>, h: Hit, c: Rgb)
    requires |drawn| == |g|
    ensures Colored(g + [ValueItem(h.value, [h.id], Unpainted)], name, drawn + [c]) ==
      Colored(g, name, drawn) + [ValueItem(h.value, [h.id], Colour(name, h.value, c))]
  {
    var g' := g + [ValueItem(h.value, [h.id], Unpainted)];
    assert forall i :: 0 <= i < |g| ==> g'[i] == g[i] && (drawn + [c])[i] == drawn[i];
  }

  lemma HitsStep(es: seq<PElement>, i: nat, chosen: ParamInfo, excludeNone: bool, names: map<int, string>)
    requires i < |es| && Hits(es[..i], chosen, excludeNone, names).Some?
    ensures var hs := Hits(es[..i], chosen, excludeNone, names).value;
      Hits(es[..i + 1], chosen, excludeNone, names) ==
        match ElementRead(es[i], chosen, excludeNone, names)
        case Aborted => None
        case NoValue => Some(hs)
        case Value(v) => Some(hs + [Hit(v, es[i].id)])
  {
    assert es[..i + 1][..i] == es[..i];
  }

  lemma GroupSnoc(hs: seq<Hit>, h: Hit)
    ensures Group(hs + [h]) == AddHit(Group(hs), h)
  {
    assert (hs + [h])[..|hs|] == hs;
  }

  /**
   * The loop over the elements of `get_parameter_values`: the grouped rows
   * with their colours, or `ok` false when a reading raises.
   */
  method CollectRows(es: seq<PElement>, chosen: ParamInfo, excludeNone: bool, names: map<int, string>, draw: nat -> Rgb)
    returns (ok: bool, rows: seq<ValueItem>, ghost drawn: seq<Rgb>)
    requires RandomDraws(draw) && |es| <= ColorCount
    ensures ok <==> Hits(es, chosen, excludeNone, names).Some?
    ensures ok ==> var g := Group(Hits(es, chosen, excludeNone, names).value);
      |drawn| == |g| && rows == Colored(g, chosen.name, drawn)
    ensures ViewColorElements.AllDistinct(drawn) && forall k :: 0 <= k < |drawn| ==> RandintColor(drawn[k])
  {
    rows, drawn := [], [];
    var used: set<Rgb> := {};
    var pos: nat := 0;
    for i := 0 to |es|
      invariant Hits(es[..i], chosen, excludeNone, names).Some?
      invariant Painted(rows, Group(Hits(es[..i], chosen, excludeNone, names).value), chosen.name, drawn, used)
      invariant |used| <= i
    {
      ghost var hs := Hits(es[..i], chosen, excludeNone, names).value;
      HitsStep(es, i, chosen, excludeNone, names);
      var e := es[i];
      var read := ReadElement(e, chosen, excludeNone, names);
      if read.Aborted? {
        AbortStays(es, i + 1, chosen, excludeNone, names);
        ok, rows, drawn := false, [], [];
        return;
      }
      if read.NoValue? {
        continue;
      }
      GroupSnoc(hs, Hit(read.v, e.id));
      rows, used, pos, drawn := AddValue(rows, used, pos, drawn, Group(hs), Hit(read.v, e.id), chosen.name, draw);
    }
    assert es[..|es|] == es;
    ok := true;
  }

  // ---------------------------------------------------------------- ordering

  /** `is_numeric` */
  predicate IsNumeric(s: string)
  {
    ParseFloat(s).Some?
  }

  /** `safe_float`: the number, or 0.0 for a text that is not one. */
  function SafeFloat(s: string): (r: real)
    ensures IsNumeric(s) ==> r == ParseFloat(s).value
    ensures !IsNumeric(s) ==> r == 0.0
  {
    match ParseFloat(s)
    case None => 0.0
    case Some(x) => x
  }

  /** The text of a whole number reads back as that number. */
  lemma SafeFloatOfNatural(n: nat)
    ensures IsNumeric(NatToString(n)) && SafeFloat(NatToString(n)) == n as real
  {
    var d := NatToString(n);
    StripUnchanged(d, IsSpace);
    ParseNatural(n);
    assert d[0] != '-' && d[0] != '+' by {
      assert IsDigit(d[0]);
    }
  }

  /** A character of the number part for `get_index_units`. */
  predicate NumberChar(c: char)
  {
    IsDigit(c) || c == '.' || c == ','
  }

  function UnitsFrom(value: string, i: nat): (r: nat)
    requires 1 <= i <= |value|
    ensures r == 0 <==> forall m :: i <= m < |value| ==> NumberChar(value[m])
    ensures r > 0 ==> (r <= |value| - i && !NumberChar(value[|value| - r]) &&
      forall m :: i <= m < |value| - r ==> NumberChar(value[m]))
    decreases |value| - i
  {
    if i == |value| then 0
    else if !NumberChar(value[i]) then |value| - i
    else UnitsFrom(value, i + 1)
  }

  /**
   * `get_index_units`: the length of the unit at the end of the value, the
   * unit starting at the first character after the first that is not a
   * digit, '.' or ','; 0 when there is none.
   */
  function IndexUnits(value: string): (r: nat)
    ensures r == 0 <==> forall m :: 1 <= m < |value| ==> NumberChar(value[m])
    ensures r > 0 ==> (r < |value| && !NumberChar(value[|value| - r]) &&
      forall m :: 1 <= m < |value| - r ==> NumberChar(value[m]))
  {
    if value == "" then 0 else UnitsFrom(value, 1)
  }

  method GetIndexUnits(value: string) returns (r: nat)
    ensures r == IndexUnits(value)
  {
    if value == "" {
      return 0;
    }
    for i := 0 to |value|
      invariant i == 0 || IndexUnits(value) == UnitsFrom(value, i)
    {
      if i > 0 && !NumberChar(value[i]) {
        return |value| - i;
      }
    }
    return 0;
  }

  /** A measure such as "12 mm": its unit has the length `get_index_units` finds, and what is left is its number. */
  lemma MeasureUnits(n: nat, unit: string)
    requires unit != [] && !NumberChar(unit[0])
    ensures IndexUnits(NatToString(n) + unit) == |unit|
    ensures SafeFloat(DropUnits(NatToString(n) + unit, |unit|)) == n as real
  {
    var d := NatToString(n);
    var v := d + unit;
    forall m | 1 <= m < |d| ensures NumberChar(v[m]) {
      assert IsDigit(d[m]);
    }
    assert v[|d|] == unit[0];
    assert v[..|v| - |unit|] == d;
    SafeFloatOfNatural(n);
  }

  /** `x.value[:-k] if len(x.value) > k else x.value` */
  function DropUnits(value: string, k: nat): string
  {
    if |value| > k then value[..|value| - k] else value
  }

  /** `sorted(key=lambda x: x.value)` */
  const TextLe: (ValueItem, ValueItem) -> bool := (a: ValueItem, b: ValueItem) => StrLe(a.value, b.value)

  /** `sorted(key=lambda x: safe_float(x.value))` */
  const FloatLe: (ValueItem, ValueItem) -> bool := (a: ValueItem, b: ValueItem) => SafeFloat(a.value) <= SafeFloat(b.value)

  /** `sorted(key=lambda x: safe_float(<x.value without its last k characters>))` */
  function UnitLe(k: nat): (ValueItem, ValueItem) -> bool
  {
    (a: ValueItem, b: ValueItem) => SafeFloat(DropUnits(a.value, k)) <= SafeFloat(DropUnits(b.value, k))
  }

  /** How the rows are ordered after the sort by text. */
  datatype SortMode = ByText | ByNumber | ByNumberBeforeUnits(units: nat)

  /**
   * The choice `get_parameter_values` makes from the rows sorted by text:
   * by number when the first has no unit and all are numbers; by the number
   * before the unit when the first has a unit; else by text.
   */
  function ModeOf(s: seq<ValueItem>): (m: SortMode)
    requires s != []
    ensures m == ByNumber <==> IndexUnits(s[0].value) == 0 && forall i :: 0 <= i < |s| ==> IsNumeric(s[i].value)
    ensures m.ByNumberBeforeUnits? <==> IndexUnits(s[0].value) > 0
    ensures m.ByNumberBeforeUnits? ==> 0 < m.units < |s[0].value| && m.units == IndexUnits(s[0].value)
  {
    var first := s[0].value;
    var k := IndexUnits(first);
    if k == 0 && forall i :: 0 <= i < |s| ==> IsNumeric(s[i].value) then ByNumber
    else if 0 < k < |first| then ByNumberBeforeUnits(k)
    else ByText
  }

  function ModeLe(m: SortMode): (ValueItem, ValueItem) -> bool
  {
    match m
    case ByText => TextLe
    case ByNumber => FloatLe
    case ByNumberBeforeUnits(k) => UnitLe(k)
  }

  lemma OrdersTotal()
    ensures Sorting.TotalPreorder(TextLe)
    ensures forall m: SortMode :: Sorting.TotalPreorder(ModeLe(m))
  {
    StrOrder.LeTotalPreorder();
    forall a: ValueItem, b: ValueItem ensures TextLe(a, b) || TextLe(b, a) {
      assert StrOrder.Le(a.value, b.value) || StrOrder.Le(b.value, a.value);
    }
    forall a: ValueItem, b: ValueItem, c: ValueItem | TextLe(a, b) && TextLe(b, c) ensures TextLe(a, c) {
      assert StrOrder.Le(a.value, b.value) && StrOrder.Le(b.value, c.value);
    }
  }

  /** The rows other than "None", in the order `get_parameter_values` gives them. */
  function SortRest(rest: seq<ValueItem>): seq<ValueItem>
  {
    if |rest| <= 1 then rest
    else
      var byText := Sorting.Sort(rest, TextLe);
      match ModeOf(byText)
      case ByText => byText
      case ByNumber => Sorting.Sort(byText, FloatLe)
      case ByNumberBeforeUnits(k) => Sorting.Sort(byText, UnitLe(k))
  }

  /** The rows in the order returned: the others as `SortRest` orders them, then "None" when it has elements. */
  function Arrange(items: seq<ValueItem>): seq<ValueItem>
  {
    var nones := Filter(items, IsNone);
    SortRest(Filter(items, NotNone)) + (if HasIds(nones) then nones else [])
  }

  /**
   * `get_parameter_values`; `draw` gives the successive results of
   * `random_color` and `drawn` the colour drawn for each row. Reading raises
   * nowhere but on a parameter without a definition.
   */
  method GetParameterValues(hasView: bool, cat: ViewCategory, chosen: ParamInfo, excludeNone: bool,
                            names: map<int, string>, draw: nat -> Rgb)
    returns (values: seq<ValueItem>, ghost drawn: seq<Rgb>)
    requires RandomDraws(draw) && |cat.elements| <= ColorCount
    ensures var hs := ReadHits(hasView, cat, chosen, excludeNone, names);
      |drawn| == |Group(hs)| && values == Rows(hs, chosen.name, drawn)
    ensures ViewColorElements.AllDistinct(drawn) && forall k :: 0 <= k < |drawn| ==> RandintColor(drawn[k])
  {
    if !hasView || cat.id == 0 || !cat.hasBuiltIn || cat.elements == [] {
      values, drawn := [], [];
      return;
    }
    var ok, rows;
    ok, rows, drawn := CollectRows(cat.elements, chosen, excludeNone, names, draw);
    if !ok {
      values, drawn := [], [];
      return;
    }
    values := Arrange(rows);
  }

  // ---------------------------------------------------------------- properties of the rows

  /** The non-"None" rows come out as a permutation, in the chosen order, equal keys keeping their text order. */
  lemma SortRestProps(rest: seq<ValueItem>)
    ensures multiset(SortRest(rest)) == multiset(rest)
    ensures |rest| > 1 ==>
      var byText := Sorting.Sort(rest, TextLe);
      var le := ModeLe(ModeOf(byText));
      Sorting.Sorted(SortRest(rest), le) &&
      forall z :: Sorting.Class(SortRest(rest), z, le) == Sorting.Class(byText, z, le)
  {
    if |rest| > 1 {
      var byText := Sorting.Sort(rest, TextLe);
      var m := ModeOf(byText);
      var le := ModeLe(m);
      OrdersTotal();
      assert Sorting.TotalPreorder(le);
      if m == ByText {
        Sorting.SortSorted(rest, TextLe);
      } else {
        assert SortRest(rest) == Sorting.Sort(byText, le);
        Sorting.SortSorted(byText, le);
        forall z ensures Sorting.Class(SortRest(rest), z, le) == Sorting.Class(byText, z, le) {
          Sorting.SortStable(byText, z, le);
        }
      }
    }
  }

  lemma SortRestMembers(rest: seq<ValueItem>)
    ensures forall x :: x in SortRest(rest) <==> x in rest
  {
    SortRestProps(rest);
    var sorted := SortRest(rest);
    forall x ensures x in sorted <==> x in rest {
      assert x in sorted <==> x in multiset(sorted);
      assert x in rest <==> x in multiset(rest);
    }
  }

  /** Among rows with distinct values that all have elements, the "None" row (if any) is kept, after the others. */
  lemma ArrangeShape(items: seq<ValueItem>)
    requires DistinctValues(items)
    requires forall i :: 0 <= i < |items| ==> |items[i].ids| > 0
    ensures var nones := Filter(items, IsNone);
      Arrange(items) == SortRest(Filter(items, NotNone)) + nones &&
      |nones| <= 1 && (forall k :: 0 <= k < |nones| ==> nones[k].value == "None")
  {
    var nones := Filter(items, IsNone);
    NonesProps(items, TextLe);
    forall k | 0 <= k < |nones| ensures nones[k].value == "None" {
      assert nones[k] in nones;
    }
  }

  /** Rows with distinct values that all have elements are all kept, and no other. */
  lemma ArrangeMembers(items: seq<ValueItem>)
    requires DistinctValues(items)
    requires forall i :: 0 <= i < |items| ==> |items[i].ids| > 0
    ensures forall x :: x in Arrange(items) <==> x in items
  {
    ArrangeShape(items);
    SortRestMembers(Filter(items, NotNone));
    forall x | x in items ensures x in Arrange(items) {
      if x.value == "None" {
        assert x in Filter(items, IsNone);
      } else {
        assert x in Filter(items, NotNone);
      }
    }
  }

  /** Arranged rows keep distinct values, "None" only last. */
  lemma ArrangeDistinct(items: seq<ValueItem>)
    requires DistinctValues(items)
    requires forall i :: 0 <= i < |items| ==> |items[i].ids| > 0
    ensures var r := Arrange(items);
      DistinctValues(r) && forall i :: 0 <= i < |r| && r[i].value == "None" ==> i == |r| - 1
  {
    var rest := Filter(items, NotNone);
    var nones := Filter(items, IsNone);
    ArrangeShape(items);
    SortRestMembers(rest);
    FilterDistinct(items, NotNone);
    SortRestDistinct(rest);
    var sorted := SortRest(rest);
    forall k | 0 <= k < |sorted| ensures sorted[k].value != "None" {
      assert sorted[k] in rest;
    }
    var r := sorted + nones;
    forall i, j | 0 <= i < j < |r| ensures r[i].value != r[j].value {
      if j >= |sorted| && i < |sorted| {
        assert r[j] == nones[j - |sorted|];
      }
    }
  }

  lemma SortRestDistinct(rest: seq<ValueItem>)
    requires DistinctValues(rest)
    ensures DistinctValues(SortRest(rest))
  {
    if |rest| > 1 {
      var byText := Sorting.Sort(rest, TextLe);
      DistinctValuesBy(rest);
      Sorting.SortDistinctBy(rest, TextLe, Val);
      Sorting.SortDistinctBy(byText, ModeLe(ModeOf(byText)), Val);
      DistinctValuesBy(SortRest(rest));
    }
  }

  /** Colouring keeps the rows' values and ids. */
  lemma ColoredProps(g: seq<ValueItem>, name: string, drawn: seq<Rgb>)
    requires |drawn| == |g|
    ensures var c := Colored(g, name, drawn);
      Values(c) == Values(g) && (DistinctValues(c) <==> DistinctValues(g)) &&
      forall i :: 0 <= i < |c| ==> c[i].ids == g[i].ids && c[i].color == Colour(name, g[i].value, drawn[i])
  {
    assert Values(Colored(g, name, drawn)) == Values(g);
  }

  /** The rows returned for the hits `hs`, `drawn` holding the colour drawn for each new value. */
  function Rows(hs: seq<Hit>, name: string, drawn: seq<Rgb>): seq<ValueItem>
    requires |drawn| == |Group(hs)|
  {
    Arrange(Colored(Group(hs), name, drawn))
  }

  /** Each row returned is one of the coloured grouped rows. */
  lemma RowsFrom(hs: seq<Hit>, name: string, drawn: seq<Rgb>)
    requires |drawn| == |Group(hs)|
    ensures var g := Group(hs);
      forall i :: 0 <= i < |Rows(hs, name, drawn)| ==> exists j :: (0 <= j < |g| &&
        Rows(hs, name, drawn)[i] == Colored(g, name, drawn)[j])
  {
    var c := Colored(Group(hs), name, drawn);
    ColoredReady(hs, name, drawn);
    ArrangeMembers(c);
    var r := Rows(hs, name, drawn);
    forall i | 0 <= i < |r| ensures exists j :: 0 <= j < |Group(hs)| && r[i] == c[j] {
      assert r[i] in c;
    }
  }

  /** The rows have distinct values, "None" only last. */
  lemma RowsDistinct(hs: seq<Hit>, name: string, drawn: seq<Rgb>)
    requires |drawn| == |Group(hs)|
    ensures var r := Rows(hs, name, drawn);
      DistinctValues(r) && forall i :: 0 <= i < |r| && r[i].value == "None" ==> i == |r| - 1
  {
    ColoredReady(hs, name, drawn);
    ArrangeDistinct(Colored(Group(hs), name, drawn));
  }

  /** The coloured grouped rows: the distinct values read, in order, each with at least one id. */
  lemma ColoredReady(hs: seq<Hit>, name: string, drawn: seq<Rgb>)
    requires |drawn| == |Group(hs)|
    ensures var c := Colored(Group(hs), name, drawn);
      Values(c) == StrOrder.Dedup(HitValues(hs)) && DistinctValues(c) &&
      forall i :: 0 <= i < |c| ==> |c[i].ids| > 0
  {
    var g := Group(hs);
    GroupValues(hs);
    GroupIds(hs);
    ColoredProps(g, name, drawn);
  }

  /** Arranging keeps exactly the values of the rows. */
  lemma ArrangeValues(items: seq<ValueItem>)
    requires DistinctValues(items)
    requires forall i :: 0 <= i < |items| ==> |items[i].ids| > 0
    ensures forall v :: v in Values(Arrange(items)) <==> v in Values(items)
  {
    ArrangeMembers(items);
    var r := Arrange(items);
    forall v ensures v in Values(r) <==> v in Values(items) {
      if v in Values(r) {
        var i :| 0 <= i < |r| && Values(r)[i] == v;
        assert r[i] in items;
        var j :| 0 <= j < |items| && items[j] == r[i];
        assert Values(items)[j] == v;
      }
      if v in Values(items) {
        var j :| 0 <= j < |items| && Values(items)[j] == v;
        assert items[j] in r;
        var i :| 0 <= i < |r| && r[i] == items[j];
        assert Values(r)[i] == v;
      }
    }
  }

  /** There is a row for each value read, and for no other value. */
  lemma RowsValues(hs: seq<Hit>, name: string, drawn: seq<Rgb>)
    requires |drawn| == |Group(hs)|
    ensures forall v :: v in Values(Rows(hs, name, drawn)) <==> v in HitValues(hs)
  {
    var c := Colored(Group(hs), name, drawn);
    ColoredReady(hs, name, drawn);
    ArrangeValues(c);
  }

  /** Each row holds the ids of the elements reading its value, and its value's predefined colour or one drawn. */
  lemma {:induction false} RowsIdsColours(hs: seq<Hit>, name: string, drawn: seq<Rgb>)
    requires |drawn| == |Group(hs)|
    ensures var r := Rows(hs, name, drawn);
      forall i :: 0 <= i < |r| ==>
        r[i].ids == IdsOf(hs, r[i].value) &&
        (Predefined(name, r[i].value).Some? ==> r[i].color == Predefined(name, r[i].value).value) &&
        (Predefined(name, r[i].value).None? ==> r[i].color in drawn)
  {
    var g := Group(hs);
    var c := Colored(g, name, drawn);
    GroupIds(hs);
    ColoredProps(g, name, drawn);
    RowsFrom(hs, name, drawn);
    var r := Rows(hs, name, drawn);
    forall i | 0 <= i < |r| ensures r[i].ids == IdsOf(hs, r[i].value) &&
      (Predefined(name, r[i].value).Some? ==> r[i].color == Predefined(name, r[i].value).value) &&
      (Predefined(name, r[i].value).None? ==> r[i].color in drawn)
    {
      var j :| 0 <= j < |g| && r[i] == c[j];
      assert g[j].value == r[i].value;
    }
  }

  /** With the drawn colours all different, two rows without a predefined colour have different colours. */
  lemma {:induction false} RowsColoursDistinct(hs: seq<Hit>, name: string, drawn: seq<Rgb>)
    requires |drawn| == |Group(hs)|
    requires ViewColorElements.AllDistinct(drawn)
    ensures var r := Rows(hs, name, drawn);
      forall i, j :: (0 <= i < j < |r| && Predefined(name, r[i].value).None? &&
        Predefined(name, r[j].value).None?) ==> r[i].color != r[j].color
  {
    var g := Group(hs);
    var c := Colored(g, name, drawn);
    ColoredDrawnDistinct(g, name, drawn);
    RowsFrom(hs, name, drawn);
    RowsDistinct(hs, name, drawn);
    var r := Rows(hs, name, drawn);
    forall i, j | 0 <= i < j < |r| && Predefined(name, r[i].value).None? &&
      Predefined(name, r[j].value).None? ensures r[i].color != r[j].color
    {
      var a :| 0 <= a < |g| && r[i] == c[a];
      var b :| 0 <= b < |g| && r[j] == c[b];
      assert a != b;
    }
  }

  /** Coloured rows at different positions without a predefined colour have different drawn colours. */
  lemma ColoredDrawnDistinct(g: seq<ValueItem>, name: string, drawn: seq<Rgb>)
    requires |drawn| == |g|
    requires ViewColorElements.AllDistinct(drawn)
    ensures var c := Colored(g, name, drawn);
      forall a, b :: (0 <= a < |c| && 0 <= b < |c| && a != b && Predefined(name, c[a].value).None? &&
        Predefined(name, c[b].value).None?) ==> c[a].color != c[b].color
  {
    ColoredProps(g, name, drawn);
  }

  /**
   * The rows `get_parameter_values` returns: one per distinct value read,
   * "None" included when read, left out with `exclude_none`; each holds the
   * ids of the elements reading its value; "None" comes last; a value with a
   * predefined colour has it, the others have different colours drawn for them.
   */
  lemma ParameterValuesProps(hasView: bool, cat: ViewCategory, chosen: ParamInfo, excludeNone: bool,
                             names: map<int, string>, drawn: seq<Rgb>)
    requires |drawn| == |Group(ReadHits(hasView, cat, chosen, excludeNone, names))|
    requires ViewColorElements.AllDistinct(drawn)
    ensures var hs := ReadHits(hasView, cat, chosen, excludeNone, names);
      var r := Rows(hs, chosen.name, drawn);
      (forall v :: v in Values(r) <==> v in HitValues(hs)) &&
      DistinctValues(r) &&
      (excludeNone ==> "None" !in Values(r)) &&
      (forall i :: 0 <= i < |r| && r[i].value == "None" ==> i == |r| - 1) &&
      (forall i :: 0 <= i < |r| ==>
        r[i].ids == IdsOf(hs, r[i].value) &&
        (Predefined(chosen.name, r[i].value).Some? ==> r[i].color == Predefined(chosen.name, r[i].value).value) &&
        (Predefined(chosen.name, r[i].value).None? ==> r[i].color in drawn)) &&
      (forall i, j :: (0 <= i < j < |r| && Predefined(chosen.name, r[i].value).None? &&
        Predefined(chosen.name, r[j].value).None?) ==> r[i].color != r[j].color)
  {
    var hs := ReadHits(hasView, cat, chosen, excludeNone, names);
    RowsValues(hs, chosen.name, drawn);
    RowsDistinct(hs, chosen.name, drawn);
    RowsIdsColours(hs, chosen.name, drawn);
    RowsColoursDistinct(hs, chosen.name, drawn);
    if excludeNone && hs != [] {
      HitsValues(cat.elements, chosen, excludeNone, names);
      forall k | 0 <= k < |hs| ensures HitValues(hs)[k] != "None" {
        assert hs[k] in hs;
      }
    }
  }
}
