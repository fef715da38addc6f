/**
 * The Color Elements window of the BS tab's Colorize panel: the categories
 * used in the active view with their parameters, the category check boxes
 * that survive a change of view, and the legend of one parameter's values.
 */
module BsColorElements {
  import opened Common
  import opened Strs
  import Sorting
  import StrOrder
  import RevitUtils
  import opened ColorValues
  import ViewColorElements

  type ParamInfo = ViewColorElements.ParamInfo

  // ---------------------------------------------------------------- the legend

  /**
   * `get_parameter_values`: `None` when reading a value raises; else the
   * rows grouped by value (strings taken as they are), ordered by
   * `extract_number` with "None" last, and painted from
   * `generate_color_range` sized to the number of rows.
   */
  function Legend(cats: seq<SelCategory>, c: Chosen, version: int, names: map<int, string>): Option<seq<ValueItem>>
  {
    match AllHits(cats, c, version, names, true)
    case None => None
    case Some(hs) =>
      var o := Ordered(Group(hs), ItemLe);
      RevitUtils.ColorRangeLength(|o|);
      Some(Paint(o, RevitUtils.ColorRange(|o|)))
  }

  method GetParameterValues(cats: seq<SelCategory>, c: Chosen, version: int, names: map<int, string>)
    returns (r: Option<seq<ValueItem>>)
    ensures r == Legend(cats, c, version, names)
  {
    var ok, values := CollectValues(cats, c, version, names, true);
    if !ok {
      return None;
    }
    var o := Ordered(values, ItemLe);
    var colors := RevitUtils.GenerateColorRange(|o|);
    RevitUtils.ColorRangeLength(|o|);
    var painted := PaintValues(o, colors);
    return Some(painted);
  }

  /**
   * The legend holds one row per distinct value read, with the ids of the
   * elements reading it; rows other than "None" are ordered by the number in
   * their value and coloured from the palette by position; "None" is last
   * and grey.
   */
  lemma LegendProps(cats: seq<SelCategory>, c: Chosen, version: int, names: map<int, string>)
    requires Legend(cats, c, version, names).Some?
    ensures var hs := AllHits(cats, c, version, names, true).value;
      var r := Legend(cats, c, version, names).value;
      (forall v :: v in Values(r) <==> v in HitValues(hs)) &&
      DistinctValues(r) &&
      (forall i :: 0 <= i < |r| ==> r[i].ids == IdsOf(hs, r[i].value)) &&
      (forall i :: 0 <= i < |r| ==> r[i].color == if r[i].value == "None" then Grey else RevitUtils.ColorRange(|r|)[i]) &&
      (forall i :: 0 <= i < |r| && r[i].value == "None" ==> i == |r| - 1) &&
      (forall i, j :: 0 <= i < j < |r| && r[j].value != "None" ==> NumberLe(r[i].value, r[j].value))
  {
    var hs := AllHits(cats, c, version, names, true).value;
    var o := Ordered(Group(hs), ItemLe);
    ItemLeProps();
    RevitUtils.ColorRangeLength(|o|);
    ArrangedRows(hs, ItemLe, NumberLe, RevitUtils.ColorRange(|o|));
    ArrangedOrder(hs, ItemLe, NumberLe, RevitUtils.ColorRange(|o|));
  }

  // ---------------------------------------------------------------- used categories

  /** A category as an element reports it. */
  datatype CatRef = CatRef(id: int, name: string)

  /** A parameter of an element: its name, and whether it is the element's category parameter. */
  datatype ElemParam = ElemParam(name: string, isCategoryParam: bool)

  /** An element of the view: its category, its parameters and its type's parameters (none without a type). */
  datatype ViewElement = ViewElement(category: Option<CatRef>, params: seq<ElemParam>, typeParams: Option<seq<ElemParam>>)

  /** `LocalCategoryInfo`: the (accent-folded) name, the id, the instance and type parameters. */
  datatype CategoryInfo = CategoryInfo(name: string, id: int, params: seq<ParamInfo>)

  /** The two ids written out in `CAT_EXCLUDED` beside the built-in categories. */
  const ExtraExcluded: set<int> := {-2000278, -1}

  /** `LocalParameterInfo(kind, p)`: the name with its accents stripped. */
  function ParamInfoOf(p: ElemParam, kind: int): ParamInfo
  {
    ViewColorElements.ParamInfo(StripAccents(p.name), kind)
  }

  /** `[LocalParameterInfo(kind, p) for p in ps if p is not a category parameter]` */
  function ListParams(ps: seq<ElemParam>, kind: int): (r: seq<ParamInfo>)
    ensures |r| <= |ps|
    ensures forall q :: q in r <==> (q.paramType == kind && exists p :: p in ps && !p.isCategoryParam && q == ParamInfoOf(p, kind))
  {
    if ps == [] then []
    else
      var rest := ListParams(ps[1..], kind);
      assert forall p :: p in ps <==> p == ps[0] || p in ps[1..];
      (if ps[0].isCategoryParam then [] else [ParamInfoOf(ps[0], kind)]) + rest
  }

  /** `x.name.upper()` order, ASCII letters folded. */
  const ParamLe: (ParamInfo, ParamInfo) -> bool := (a: ParamInfo, b: ParamInfo) => StrLe(Upper(a.name), Upper(b.name))

  /** `x.name` order. */
  const CatLe: (CategoryInfo, CategoryInfo) -> bool := (a: CategoryInfo, b: CategoryInfo) => StrLe(a.name, b.name)

  const CatId: CategoryInfo -> int := (c: CategoryInfo) => c.id

  lemma OrdersTotal()
    ensures Sorting.TotalPreorder(ParamLe) && Sorting.TotalPreorder(CatLe)
  {
    StrOrder.LeTotalPreorder();
    forall a: ParamInfo, b: ParamInfo ensures ParamLe(a, b) || ParamLe(b, a) {
      assert StrOrder.Le(Upper(a.name), Upper(b.name)) || StrOrder.Le(Upper(b.name), Upper(a.name));
    }
    forall a: ParamInfo, b: ParamInfo, c: ParamInfo | ParamLe(a, b) && ParamLe(b, c) ensures ParamLe(a, c) {
      assert StrOrder.Le(Upper(a.name), Upper(b.name)) && StrOrder.Le(Upper(b.name), Upper(c.name));
    }
    forall a: CategoryInfo, b: CategoryInfo ensures CatLe(a, b) || CatLe(b, a) {
      assert StrOrder.Le(a.name, b.name) || StrOrder.Le(b.name, a.name);
    }
    forall a: CategoryInfo, b: CategoryInfo, c: CategoryInfo | CatLe(a, b) && CatLe(b, c) ensures CatLe(a, c) {
      assert StrOrder.Le(a.name, b.name) && StrOrder.Le(b.name, c.name);
    }
  }

  /** An element that has a category with this id and a type. */
  predicate Typed(e: ViewElement, id: int)
  {
    e.category.Some? && e.category.value.id == id && e.typeParams.Some?
  }

  /** The category an element with a category and a type adds: its parameters sorted by upper-cased name. */
  function CategoryOf(e: ViewElement): CategoryInfo
    requires e.category.Some? && e.typeParams.Some?
  {
    CategoryInfo(StripAccents(e.category.value.name), e.category.value.id,
      Sorting.Sort(ListParams(e.params, 0) + ListParams(e.typeParams.value, 1), ParamLe))
  }

  /** A category of the list carries this id. */
  predicate Listed(cats: seq<CategoryInfo>, id: int)
  {
    exists k :: 0 <= k < |cats| && cats[k].id == id
  }

  /** Whether the loop adds a category for `e`, given those collected so far. */
  predicate Admits(cats: seq<CategoryInfo>, e: ViewElement, excluded: set<int>)
  {
    e.category.Some? && e.category.value.id !in excluded && !Listed(cats, e.category.value.id) && e.typeParams.Some?
  }

  /** The categories collected, in the order of the elements. */
  function Collect(es: seq<ViewElement>, excluded: set<int>): seq<CategoryInfo>
  {
    if es == [] then []
    else
      var acc := Collect(es[..|es| - 1], excluded);
      var e := es[|es| - 1];
      if Admits(acc, e, excluded) then acc + [CategoryOf(e)] else acc
  }

  /** `get_used_categories`: the collected categories sorted by name. */
  function UsedCategories(es: seq<ViewElement>, excluded: set<int>): seq<CategoryInfo>
  {
    Sorting.Sort(Collect(es, excluded), CatLe)
  }

  /** The exclusion list used: the one given, else `CAT_EXCLUDED`. */
  function ExcludedOr(excluded: Option<set<int>>, builtIn: set<int>): (r: set<int>)
    ensures excluded.None? ==> ExtraExcluded <= r && builtIn <= r
    ensures excluded.Some? ==> r == excluded.value
  {
    if excluded.Some? then excluded.value else builtIn + ExtraExcluded
  }

  /**
   * `get_used_categories` over the elements of the view; `builtIn` holds the
   * ids of the built-in categories `CAT_EXCLUDED` names.
   */
  method GetUsedCategories(es: seq<ViewElement>, excluded: Option<set<int>>, builtIn: set<int>)
    returns (cats: seq<CategoryInfo>)
    ensures cats == UsedCategories(es, ExcludedOr(excluded, builtIn))
  {
    var ex := ExcludedOr(excluded, builtIn);
    cats := [];
    for i := 0 to |es|
      invariant cats == Collect(es[..i], ex)
    {
      assert es[..i + 1][..i] == es[..i];
      var e := es[i];
      if e.category.None? {
        continue;
      }
      var id := e.category.value.id;
      if id in ex || Listed(cats, id) {
        continue;
      }
      if e.typeParams.None? {
        continue;
      }
      var all := ListParams(e.params, 0) + ListParams(e.typeParams.value, 1);
      var sorted := Sorting.Sort(all, ParamLe);
      cats := cats + [CategoryInfo(StripAccents(e.category.value.name), id, sorted)];
    }
    assert es[..|es|] == es;
    cats := Sorting.Sort(cats, CatLe);
  }

  /** Index of the first element with a category of this id and a type, or -1. */
  function FirstTyped(es: seq<ViewElement>, id: int): (r: int)
    ensures -1 <= r < |es|
    ensures r >= 0 ==> Typed(es[r], id) && forall m :: 0 <= m < r ==> !Typed(es[m], id)
    ensures r < 0 ==> forall m :: 0 <= m < |es| ==> !Typed(es[m], id)
  {
    if es == [] then -1
    else
      var f := FirstTyped(es[..|es| - 1], id);
      if f >= 0 then f else if Typed(es[|es| - 1], id) then |es| - 1 else -1
  }

  /**
   * The collected list has a category for each id that is not excluded and
   * that some element with a type carries, and for no other id.
   */
  lemma {:induction false} CollectListed(es: seq<ViewElement>, excluded: set<int>)
    ensures forall id :: Listed(Collect(es, excluded), id) <==> id !in excluded && FirstTyped(es, id) >= 0
  {
    if es != [] {
      var init := es[..|es| - 1];
      var e := es[|es| - 1];
      CollectListed(init, excluded);
      var acc := Collect(init, excluded);
      forall id ensures Listed(Collect(es, excluded), id) <==> id !in excluded && FirstTyped(es, id) >= 0 {
        if Admits(acc, e, excluded) {
          var r := acc + [CategoryOf(e)];
          assert r[|acc|].id == e.category.value.id;
          if Listed(acc, id) {
            var k :| 0 <= k < |acc| && acc[k].id == id;
            assert r[k].id == id;
          }
          if Listed(r, id) {
            var k :| 0 <= k < |r| && r[k].id == id;
            if k < |acc| {
              assert acc[k].id == id;
            }
          }
        }
      }
    }
  }

  /** `c` is the category the first typed element of its id describes. */
  predicate BuiltFromFirst(es: seq<ViewElement>, c: CategoryInfo)
  {
    var f := FirstTyped(es, c.id);
    f >= 0 && c == CategoryOf(es[f])
  }

  lemma BuiltFromFirstExtend(es: seq<ViewElement>, c: CategoryInfo)
    requires es != [] && BuiltFromFirst(es[..|es| - 1], c)
    ensures BuiltFromFirst(es, c)
  {
    var f := FirstTyped(es[..|es| - 1], c.id);
    assert es[f] == es[..|es| - 1][f];
  }

  /** Each collected category is the one the first typed element of its id describes. */
  lemma {:induction false} CollectFirst(es: seq<ViewElement>, excluded: set<int>)
    ensures forall c :: c in Collect(es, excluded) ==> BuiltFromFirst(es, c)
  {
    if es != [] {
      var init := es[..|es| - 1];
      var e := es[|es| - 1];
      CollectFirst(init, excluded);
      var acc := Collect(init, excluded);
      forall c | c in acc ensures BuiltFromFirst(es, c) {
        BuiltFromFirstExtend(es, c);
      }
      if Admits(acc, e, excluded) {
        CollectListed(init, excluded);
        var id := e.category.value.id;
        assert FirstTyped(init, id) < 0;
        assert FirstTyped(es, id) == |es| - 1;
        assert BuiltFromFirst(es, CategoryOf(e));
      }
    }
  }

  /** No two collected categories share an id. */
  lemma {:induction false} CollectDistinct(es: seq<ViewElement>, excluded: set<int>)
    ensures Sorting.DistinctBy(Collect(es, excluded), CatId)
  {
    if es != [] {
      var init := es[..|es| - 1];
      var e := es[|es| - 1];
      CollectDistinct(init, excluded);
      var acc := Collect(init, excluded);
      if Admits(acc, e, excluded) {
        var r := acc + [CategoryOf(e)];
        forall i, j | 0 <= i < j < |r| ensures CatId(r[i]) != CatId(r[j]) {
          if j == |acc| {
            assert r[i] == acc[i];
          } else {
            assert r[i] == acc[i] && r[j] == acc[j];
          }
        }
      }
    }
  }

  /** `get_used_categories` is sorted by name and lists each id once. */
  lemma UsedCategoriesSorted(es: seq<ViewElement>, excluded: set<int>)
    ensures Sorting.Sorted(UsedCategories(es, excluded), CatLe)
    ensures Sorting.DistinctBy(UsedCategories(es, excluded), CatId)
  {
    var cats := Collect(es, excluded);
    OrdersTotal();
    Sorting.SortSorted(cats, CatLe);
    CollectDistinct(es, excluded);
    Sorting.SortDistinctBy(cats, CatLe, CatId);
  }

  /**
   * `get_used_categories` lists a category for exactly the ids carried by an
   * element that has a type and whose category is not excluded.
   */
  lemma UsedCategoriesListed(es: seq<ViewElement>, excluded: set<int>)
    ensures forall id :: Listed(UsedCategories(es, excluded), id) <==> id !in excluded && FirstTyped(es, id) >= 0
  {
    var cats := Collect(es, excluded);
    var r := UsedCategories(es, excluded);
    Sorting.SortElems(cats, CatLe);
    CollectListed(es, excluded);
    forall id ensures Listed(r, id) <==> Listed(cats, id) {
      if Listed(r, id) {
        var k :| 0 <= k < |r| && r[k].id == id;
        assert r[k] in cats;
      }
      if Listed(cats, id) {
        var k :| 0 <= k < |cats| && cats[k].id == id;
        assert cats[k] in r;
      }
    }
  }

  /** Each category `get_used_categories` lists is built from the first typed element of its id. */
  lemma UsedCategoriesFirst(es: seq<ViewElement>, excluded: set<int>)
    ensures forall c :: c in UsedCategories(es, excluded) ==> BuiltFromFirst(es, c)
  {
    Sorting.SortElems(Collect(es, excluded), CatLe);
    CollectFirst(es, excluded);
  }

  /**
   * A category's parameters are its instance parameters (kind 0) and its
   * type's (kind 1), category parameters left out, sorted by upper-cased
   * name, with parameters of the same upper-cased name in their listed order.
   */
  lemma CategoryParams(e: ViewElement)
    requires e.category.Some? && e.typeParams.Some?
    ensures var all := ListParams(e.params, 0) + ListParams(e.typeParams.value, 1);
      var ps := CategoryOf(e).params;
      multiset(ps) == multiset(all) &&
      Sorting.Sorted(ps, ParamLe) &&
      forall z :: Sorting.Class(ps, z, ParamLe) == Sorting.Class(all, z, ParamLe)
  {
    var all := ListParams(e.params, 0) + ListParams(e.typeParams.value, 1);
    OrdersTotal();
    Sorting.SortSorted(all, ParamLe);
    forall z ensures Sorting.Class(Sorting.Sort(all, ParamLe), z, ParamLe) == Sorting.Class(all, z, ParamLe) {
      Sorting.SortStable(all, z, ParamLe);
    }
  }

  // ---------------------------------------------------------------- category check boxes

  /** The names of the checked items, in list order. */
  function SelectedNames(items: seq<string>, selected: seq<bool>): (r: seq<string>)
    requires |selected| == |items|
    ensures forall n :: n in r ==> n in items
  {
    if items == [] then []
    else
      var init := SelectedNames(items[..|items| - 1], selected[..|items| - 1]);
      if selected[|items| - 1] then init + [items[|items| - 1]] else init
  }

  /**
   * The check boxes after a load: the items whose name was stored; when none
   * is, only the first item.
   */
  function Restored(items: seq<string>, stored: seq<string>): (r: seq<bool>)
    ensures |r| == |items|
  {
    var hit := seq(|items|, i requires 0 <= i < |items| => items[i] in stored);
    if true in hit then hit else seq(|items|, i requires 0 <= i < |items| => i == 0)
  }

  predicate DistinctNames(items: seq<string>)
  {
    forall i, j :: 0 <= i < j < |items| ==> items[i] != items[j]
  }

  lemma {:induction false} SelectedNamesMembers(items: seq<string>, selected: seq<bool>)
    requires |selected| == |items| && DistinctNames(items)
    ensures forall i :: 0 <= i < |items| ==> (items[i] in SelectedNames(items, selected) <==> selected[i])
  {
    if items != [] {
      var n := |items| - 1;
      var init := items[..n];
      SelectedNamesMembers(init, selected[..n]);
      forall i | 0 <= i < n ensures items[i] != items[n] && init[i] == items[i] && selected[..n][i] == selected[i] {
      }
    }
  }

  /**
   * Storing the checked names and loading the same list again checks the same
   * items, whenever at least one was checked and the names are distinct.
   */
  lemma StoreThenRestore(items: seq<string>, selected: seq<bool>)
    requires |selected| == |items| && DistinctNames(items) && true in selected
    ensures Restored(items, SelectedNames(items, selected)) == selected
  {
    var stored := SelectedNames(items, selected);
    SelectedNamesMembers(items, selected);
    var hit := seq(|items|, i requires 0 <= i < |items| => items[i] in stored);
    assert hit == selected;
  }

  /**
   * A load never leaves a non-empty list unchecked: the items whose name is
   * stored are checked, and when none is, only the first item.
   */
  lemma RestoredProps(items: seq<string>, stored: seq<string>)
    ensures items != [] ==> true in Restored(items, stored)
    ensures (forall i :: 0 <= i < |items| ==> items[i] !in stored) ==>
      forall i :: 0 <= i < |items| ==> (Restored(items, stored)[i] <==> i == 0)
    ensures (exists i :: 0 <= i < |items| && items[i] in stored) ==>
      forall i :: 0 <= i < |items| ==> (Restored(items, stored)[i] <==> items[i] in stored)
  {
    var hit := seq(|items|, i requires 0 <= i < |items| => items[i] in stored);
    var r := Restored(items, stored);
    if items != [] {
      assert r[0] || hit == r;
    }
    if exists i :: 0 <= i < |items| && items[i] in stored {
      var i :| 0 <= i < |items| && items[i] in stored;
      assert hit[i];
    }
  }

  /**
   * The category list of the window: the names of its items, their check
   * boxes, the names kept across views, and the flag that silences the check
   * box handler while a selection is being restored.
   */
  class CategoryPanel {
    var items: seq<string>
    var selected: seq<bool>
    var storedNames: seq<string>
    var restoring: bool

    ghost predicate Valid()
      reads this
    {
      |selected| == |items|
    }

    constructor ()
      ensures Valid() && items == [] && storedNames == [] && !restoring
    {
      items := [];
      selected := [];
      storedNames := [];
      restoring := false;
    }

    /** `store_selected_categories`. */
    method StoreSelectedCategories() returns (names: seq<string>)
      requires Valid()
      modifies this
      ensures Valid()
      ensures items == old(items) && selected == old(selected) && restoring == old(restoring)
      ensures names == SelectedNames(items, selected) && storedNames == names
    {
      names := [];
      for i := 0 to |items|
        invariant names == SelectedNames(items[..i], selected[..i])
      {
        assert items[..i + 1][..i] == items[..i] && selected[..i + 1][..i] == selected[..i];
        if selected[i] {
          names := names + [items[i]];
        }
      }
      assert items[..|items|] == items && selected[..|selected|] == selected;
      storedNames := names;
    }

    /** Checks the items whose name is stored, and the first item when there is none. */
    method RestoreSelection()
      requires Valid() && forall k :: 0 <= k < |selected| ==> !selected[k]
      modifies this
      ensures Valid() && selected == Restored(items, storedNames)
      ensures items == old(items) && storedNames == old(storedNames) && restoring == old(restoring)
    {
      var its, st := items, storedNames;
      var sel := selected;
      var any := false;
      if st != [] {
        for i := 0 to |its|
          invariant |sel| == |its|
          invariant forall k :: 0 <= k < i ==> (sel[k] <==> its[k] in st)
          invariant forall k :: i <= k < |its| ==> !sel[k]
          invariant any <==> exists k :: 0 <= k < i && its[k] in st
        {
          if its[i] in st {
            sel := sel[i := true];
            any := true;
          }
        }
      }
      var hit := seq(|its|, i requires 0 <= i < |its| => its[i] in st);
      if any {
        assert sel == hit;
      } else {
        assert forall k :: 0 <= k < |its| ==> !hit[k];
        if |its| > 0 {
          sel := sel[0 := true];
        }
      }
      selected := sel;
    }

    /**
     * `load_categories` given the names of the view's categories: keep the
     * current check boxes' names unless names are already stored, rebuild
     * the list unchecked, restore the selection with the handler silenced,
     * then store what ended up checked.
     */
    method LoadCategories(names: seq<string>)
      requires Valid()
      modifies this
      ensures Valid() && items == names
      ensures var kept := if old(storedNames) == [] then SelectedNames(old(items), old(selected)) else old(storedNames);
        selected == Restored(names, kept) &&
        (names != [] ==> storedNames == SelectedNames(names, selected) && !restoring) &&
        (names == [] ==> storedNames == kept && restoring)
    {
      if storedNames == [] {
        var _ := StoreSelectedCategories();
      }
      items := names;
      selected := seq(|names|, i requires 0 <= i < |names| => false);
      restoring := true;
      RestoreSelection();
      if |items| > 0 {
        restoring := false;
        var _ := StoreSelectedCategories();
      }
    }
  }
}
