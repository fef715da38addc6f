/**
 * Shared Revit helpers: the colour range used to colour parameter values,
 * the display string of a parameter value, the categories (with their
 * instance and type parameters) found in a view, and the writable
 * parameter names of a view.
 */
module RevitUtils {
  import opened Common
  import opened Strs
  import Sorting
  import StrOrder

  // ---------------------------------------------------------------- colour range

  /** The five distinct colours for small sets: red, green, blue, gold, purple. */
  const Distinct5: seq<Rgb> := [Rgb(255, 0, 0), Rgb(0, 200, 0), Rgb(0, 0, 255), Rgb(255, 215, 0), Rgb(148, 0, 211)]

  /** Python's `s[:n]`, including a negative `n` counting from the end. */
  function SliceTo<T>(s: seq<T>, n: int): (r: seq<T>)
    ensures 0 <= n <= |s| ==> r == s[..n]
    ensures n > |s| ==> r == s
    ensures n < 0 ==> r == s[..if |s| + n < 0 then 0 else |s| + n]
  {
    if n >= |s| then s
    else if n >= 0 then s[..n]
    else if |s| + n < 0 then []
    else s[..|s| + n]
  }

  /** Colour `i` of the red-to-green half of `n` colours. */
  function RedToGreen(n: int, i: int): Rgb
    requires 0 <= i < n
  {
    if n > 1 then Rgb(255 * (n - 1 - i) / (n - 1), 200 * i / (n - 1), 0) else Rgb(255, 0, 0)
  }

  /** Colour `i` of the green-to-blue half of `n` colours. */
  function GreenToBlue(n: int, i: int): Rgb
    requires 0 <= i < n
  {
    if n > 1 then Rgb(0, 200 * (n - 1 - i) / (n - 1), 255 * i / (n - 1)) else Rgb(0, 200, 0)
  }

  /** Colour `i` of the 6..20 gradient: the first `count / 2` run red to green, the rest green to blue. */
  function GradientAt(count: int, i: int): Rgb
    requires 0 <= i < count
  {
    var half := count / 2;
    if i < half then RedToGreen(half, i) else GreenToBlue(count - half, i - half)
  }

  /**
   * Colour `i` of `n` on the fully saturated HSV wheel: sector `6i / n`,
   * the fraction inside the sector `(6i mod n) / n`.
   */
  function WheelAt(n: int, i: int): Rgb
    requires 0 <= i < n
  {
    var sector := 6 * i / n;
    var k := 6 * i % n;
    var q := 255 * (n - k) / n;
    var t := 255 * k / n;
    if sector == 0 then Rgb(255, t, 0)
    else if sector == 1 then Rgb(q, 255, 0)
    else if sector == 2 then Rgb(0, 255, t)
    else if sector == 3 then Rgb(0, q, 255)
    else if sector == 4 then Rgb(t, 0, 255)
    else Rgb(255, 0, q)
  }

  /** The colours `generate_color_range(count)` returns. */
  function ColorRange(count: int): seq<Rgb>
  {
    if count <= 5 then SliceTo(Distinct5, count)
    else if count <= 20 then seq(count, i requires 0 <= i < count => GradientAt(count, i))
    else seq(count, i requires 0 <= i < count => WheelAt(count, i))
  }

  /** `generate_color_range`: a fixed prefix, a two-part gradient or an HSV wheel. */
  method GenerateColorRange(count: int) returns (colors: seq<Rgb>)
    ensures colors == ColorRange(count)
  {
    if count <= 5 {
      colors := SliceTo(Distinct5, count);
    } else if count <= 20 {
      colors := [];
      var half := count / 2;
      var i := 0;
      while i < half
        invariant 0 <= i <= half
        invariant |colors| == i && forall k :: 0 <= k < i ==> colors[k] == GradientAt(count, k)
      {
        var r, g;
        if half > 1 {
          r, g := 255 * (half - 1 - i) / (half - 1), 200 * i / (half - 1);
        } else {
          r, g := 255, 0;
        }
        colors := colors + [Rgb(r, g, 0)];
        i := i + 1;
      }
      var remaining := count - half;
      i := 0;
      while i < remaining
        invariant 0 <= i <= remaining
        invariant |colors| == half + i && forall k :: 0 <= k < half + i ==> colors[k] == GradientAt(count, k)
      {
        var g, b;
        if remaining > 1 {
          g, b := 200 * (remaining - 1 - i) / (remaining - 1), 255 * i / (remaining - 1);
        } else {
          g, b := 200, 0;
        }
        colors := colors + [Rgb(0, g, b)];
        i := i + 1;
      }
    } else {
      colors := [];
      var i := 0;
      while i < count
        invariant 0 <= i <= count
        invariant |colors| == i && forall k :: 0 <= k < i ==> colors[k] == WheelAt(count, k)
      {
        colors := colors + [WheelAt(count, i)];
        i := i + 1;
      }
    }
  }

  /** Exactly `count` colours for every `count >= 0`; a negative count slices from the end of the five. */
  lemma ColorRangeLength(count: int)
    ensures count >= 0 ==> |ColorRange(count)| == count
    ensures count < 0 ==> |ColorRange(count)| == if count < -5 then 0 else 5 + count
  {
  }

  /** Up to five colours are a prefix of the five distinct colours. */
  lemma ColorRangeSmall(count: int)
    requires 0 <= count <= 5
    ensures ColorRange(count) == Distinct5[..count]
  {
  }

  /** `a / d` lies in `0..hi` when `a` lies in `0..hi * d`. */
  lemma DivBounds(a: int, d: int, hi: int)
    requires d > 0 && 0 <= a <= hi * d
    ensures 0 <= a / d <= hi
  {
  }

  lemma DivSelf(c: int, d: int)
    requires d > 0
    ensures c * d / d == c
  {
    var q := c * d / d;
    var r := c * d % d;
    assert d * (c - q) == r;
    if c - q >= 1 {
      assert false;
    } else if c - q <= -1 {
      assert false;
    }
  }

  predicate InByte(c: Rgb)
  {
    0 <= c.r <= 255 && 0 <= c.g <= 255 && 0 <= c.b <= 255
  }

  lemma RedToGreenBounds(n: int, i: int)
    requires 0 <= i < n
    ensures InByte(RedToGreen(n, i)) && RedToGreen(n, i).b == 0
  {
    if n > 1 {
      DivBounds(255 * (n - 1 - i), n - 1, 255);
      DivBounds(200 * i, n - 1, 200);
    }
  }

  lemma GreenToBlueBounds(n: int, i: int)
    requires 0 <= i < n
    ensures InByte(GreenToBlue(n, i)) && GreenToBlue(n, i).r == 0
  {
    if n > 1 {
      DivBounds(200 * (n - 1 - i), n - 1, 200);
      DivBounds(255 * i, n - 1, 255);
    }
  }

  /**
   * For 6..20 colours: every component is a byte, the first half has no
   * blue and the second no red, and the gradient runs from pure red
   * through green to pure blue.
   */
  lemma ColorRangeGradient(count: int)
    requires 6 <= count <= 20
    ensures var cs := ColorRange(count);
      && |cs| == count
      && (forall i :: 0 <= i < count ==> InByte(cs[i]))
      && (forall i :: 0 <= i < count / 2 ==> cs[i].b == 0)
      && (forall i :: count / 2 <= i < count ==> cs[i].r == 0)
      && cs[0] == Rgb(255, 0, 0)
      && cs[count / 2 - 1] == Rgb(0, 200, 0) && cs[count / 2] == Rgb(0, 200, 0)
      && cs[count - 1] == Rgb(0, 0, 255)
  {
    var cs := ColorRange(count);
    var half := count / 2;
    forall i | 0 <= i < count
      ensures InByte(cs[i]) && (i < half ==> cs[i].b == 0) && (i >= half ==> cs[i].r == 0)
    {
      if i < half {
        RedToGreenBounds(half, i);
      } else {
        GreenToBlueBounds(count - half, i - half);
      }
    }
    DivSelf(255, half - 1);
    DivSelf(200, half - 1);
    DivSelf(200, count - half - 1);
    DivSelf(255, count - half - 1);
    assert cs[0] == RedToGreen(half, 0);
    assert cs[half - 1] == RedToGreen(half, half - 1);
    assert cs[half] == GreenToBlue(count - half, 0);
    assert cs[count - 1] == GreenToBlue(count - half, count - half - 1);
  }

  lemma WheelBounds(n: int, i: int)
    requires 0 <= i < n
    ensures var c := WheelAt(n, i);
      InByte(c) && (c.r == 255 || c.g == 255 || c.b == 255) && (c.r == 0 || c.g == 0 || c.b == 0)
  {
    var k := 6 * i % n;
    DivBounds(255 * (n - k), n, 255);
    DivBounds(255 * k, n, 255);
  }

  /** Above 20 colours every colour is a fully saturated, full-value byte triple. */
  lemma ColorRangeWheel(count: int)
    requires count > 20
    ensures var cs := ColorRange(count);
      |cs| == count &&
      forall i :: 0 <= i < count ==>
        InByte(cs[i]) && (cs[i].r == 255 || cs[i].g == 255 || cs[i].b == 255) && (cs[i].r == 0 || cs[i].g == 0 || cs[i].b == 0)
  {
    var cs := ColorRange(count);
    forall i | 0 <= i < count
      ensures InByte(cs[i]) && (cs[i].r == 255 || cs[i].g == 255 || cs[i].b == 255) && (cs[i].r == 0 || cs[i].g == 0 || cs[i].b == 0)
    {
      WheelBounds(count, i);
    }
  }

  // ---------------------------------------------------------------- value strings

  /**
   * A parameter as the value-string helpers see it: its storage and value,
   * the host's formatted value (`AsValueString`), whether it is a Yes/No
   * parameter, and whether its type can be asked on old host versions.
   */
  datatype RParam = RParam(param: Param, valueString: string, yesNo: bool, typeKnown: bool)

  function AsInteger(v: ParamValue): int
  {
    if v.IntVal? then v.i else 0
  }

  function AsString(v: ParamValue): string
  {
    if v.StrVal? then v.s else ""
  }

  function AsElementId(v: ParamValue): int
  {
    if v.IdVal? then v.id else InvalidId
  }

  /** An integer parameter that is shown as a Yes/No value. */
  predicate ShownAsYesNo(p: RParam, version: int)
  {
    p.param.storage == IntStorage && p.yesNo && (version > 2021 || p.typeKnown)
  }

  /**
   * `get_parameter_value_string`: "None" without a value; element names
   * for id parameters (looked up in `names`); "True"/"False" for Yes/No;
   * the formatted value for numbers; the text, or "None" when empty.
   */
  function ParameterValueString(p: RParam, version: int, names: map<int, string>): (r: string)
    ensures !p.param.hasValue ==> r == "None"
    ensures p.param.hasValue && p.param.storage == IdStorage ==>
      var id := AsElementId(p.param.value);
      r == if id >= 0 && id in names then names[id] else "None"
    ensures p.param.hasValue && ShownAsYesNo(p, version) ==>
      (r == "True" || r == "False") && (r == "True" <==> AsInteger(p.param.value) == 1)
    ensures p.param.hasValue && p.param.storage == StrStorage ==>
      (r == "None" <== AsString(p.param.value) == "") && (AsString(p.param.value) != "" ==> r == AsString(p.param.value))
    ensures p.param.hasValue && p.param.storage == DoubleStorage ==> r == p.valueString
    ensures p.param.hasValue && p.param.storage == IntStorage && !ShownAsYesNo(p, version) ==>
      r == if version > 2021 || p.typeKnown || p.valueString != "" then p.valueString else IntToString(AsInteger(p.param.value))
  {
    if !p.param.hasValue then "None"
    else match p.param.storage
      case DoubleStorage => p.valueString
      case IdStorage =>
        var id := AsElementId(p.param.value);
        if id != InvalidId && id >= 0 && id in names then names[id] else "None"
      case IntStorage =>
        if version > 2021 || p.typeKnown then
          if p.yesNo then (if AsInteger(p.param.value) == 1 then "True" else "False") else p.valueString
        else if p.valueString != "" then p.valueString
        else IntToString(AsInteger(p.param.value))
      case StrStorage => if AsString(p.param.value) != "" then AsString(p.param.value) else "None"
      case NoStorage => "None"
  }

  // ---------------------------------------------------------------- categories in a view

  /** A parameter definition: its name, whether it is the element's category parameter, and the parameter. */
  datatype PInfo = PInfo(name: string, categoryParam: bool, param: Param)

  /**
   * An element of a view: its category id (None without a category), its
   * parameters and, when it has a type element, the type's parameters.
   */
  datatype VElement = VElement(category: Option<int>, params: seq<PInfo>, typeParams: Option<seq<PInfo>>)

  datatype CatInfo = CatInfo(instanceParams: map<string, PInfo>, typeParams: map<string, PInfo>)

  /** The parameters by name, category parameters skipped, a later name replacing an earlier one. */
  function ParamDict(ps: seq<PInfo>): map<string, PInfo>
  {
    if ps == [] then map[]
    else
      var d := ParamDict(ps[..|ps| - 1]);
      var p := ps[|ps| - 1];
      if p.categoryParam then d else d[p.name := p]
  }

  lemma {:induction false} ParamDictProps(ps: seq<PInfo>)
    ensures forall n :: n in ParamDict(ps) <==> exists p :: p in ps && p.name == n && !p.categoryParam
    ensures forall n :: n in ParamDict(ps) ==>
      var p := ParamDict(ps)[n]; p in ps && p.name == n && !p.categoryParam
  {
    if ps != [] {
      var init := ps[..|ps| - 1];
      ParamDictProps(init);
      assert ps == init + [ps[|ps| - 1]];
    }
  }

  lemma ParamDictSnoc(ps: seq<PInfo>, i: int)
    requires 0 <= i < |ps|
    ensures ParamDict(ps[..i + 1]) == (if ps[i].categoryParam then ParamDict(ps[..i]) else ParamDict(ps[..i])[ps[i].name := ps[i]])
  {
    assert ps[..i + 1][..i] == ps[..i];
  }

  /** The inner loop over `element.Parameters`: the category parameters skipped, every other one stored by name. */
  method CollectParams(ps: seq<PInfo>) returns (d: map<string, PInfo>)
    ensures d == ParamDict(ps)
    ensures forall n :: n in d <==> exists p :: p in ps && p.name == n && !p.categoryParam
  {
    d := map[];
    var i := 0;
    while i < |ps|
      invariant 0 <= i <= |ps|
      invariant d == ParamDict(ps[..i])
    {
      ParamDictSnoc(ps, i);
      if !ps[i].categoryParam {
        d := d[ps[i].name := ps[i]];
      }
      i := i + 1;
    }
    assert ps[..i] == ps;
    ParamDictProps(ps);
  }

  /** What an element offers for one side: its own parameters, or its type's (none without a type). */
  function Supplied(e: VElement, typeSide: bool): map<string, PInfo>
  {
    if !typeSide then ParamDict(e.params)
    else if e.typeParams.Some? then ParamDict(e.typeParams.value)
    else map[]
  }

  /** One element of the loop in `get_categories_in_view`. */
  function CatStep(d: map<int, CatInfo>, e: VElement, excluded: seq<int>): map<int, CatInfo>
  {
    if e.category.None? || e.category.value in excluded then d
    else
      var c := e.category.value;
      var info := if c in d then d[c] else CatInfo(map[], map[]);
      var inst := if info.instanceParams == map[] then Supplied(e, false) else info.instanceParams;
      var typ := if info.typeParams == map[] then Supplied(e, true) else info.typeParams;
      d[c := CatInfo(inst, typ)]
  }

  function Categories(es: seq<VElement>, excluded: seq<int>): map<int, CatInfo>
  {
    if es == [] then map[] else CatStep(Categories(es[..|es| - 1], excluded), es[|es| - 1], excluded)
  }

  /**
   * Reference definition: the parameters of the first element of category
   * `c` that supplies any on that side, or none.
   */
  function FirstSupplied(es: seq<VElement>, c: int, typeSide: bool): map<string, PInfo>
  {
    if es == [] then map[]
    else if es[0].category == Some(c) && Supplied(es[0], typeSide) != map[] then Supplied(es[0], typeSide)
    else FirstSupplied(es[1..], c, typeSide)
  }

  lemma {:induction false} FirstSuppliedSnoc(es: seq<VElement>, e: VElement, c: int, typeSide: bool)
    ensures FirstSupplied(es + [e], c, typeSide) ==
      if FirstSupplied(es, c, typeSide) != map[] then FirstSupplied(es, c, typeSide)
      else if e.category == Some(c) then Supplied(e, typeSide)
      else map[]
  {
    if es != [] {
      assert (es + [e])[1..] == es[1..] + [e];
      FirstSuppliedSnoc(es[1..], e, c, typeSide);
    }
  }

  /** A category id that some element carries and that is not excluded. */
  predicate Seen(es: seq<VElement>, c: int, excluded: seq<int>)
  {
    c !in excluded && exists e :: e in es && e.category == Some(c)
  }

  /**
   * `get_categories_in_view` keeps one entry per category id that occurs
   * and is not excluded; each entry's instance and type parameters come
   * from the first element of the category that supplies any.
   */
  lemma {:induction false} CategoriesProps(es: seq<VElement>, excluded: seq<int>)
    ensures forall c :: c in Categories(es, excluded) <==> Seen(es, c, excluded)
    ensures forall c :: c in Categories(es, excluded) ==>
      Categories(es, excluded)[c] == CatInfo(FirstSupplied(es, c, false), FirstSupplied(es, c, true))
  {
    if es != [] {
      var init := es[..|es| - 1];
      var e := es[|es| - 1];
      CategoriesProps(init, excluded);
      assert es == init + [e];
      forall c | c in Categories(es, excluded)
        ensures Categories(es, excluded)[c] == CatInfo(FirstSupplied(es, c, false), FirstSupplied(es, c, true))
      {
        FirstSuppliedSnoc(init, e, c, false);
        FirstSuppliedSnoc(init, e, c, true);
        if !Seen(init, c, excluded) {
          assert forall x :: x in init ==> x.category != Some(c) || c in excluded;
          FirstSuppliedNone(init, c, false);
          FirstSuppliedNone(init, c, true);
        }
      }
    }
  }

  lemma {:induction false} FirstSuppliedNone(es: seq<VElement>, c: int, typeSide: bool)
    requires forall x :: x in es ==> x.category != Some(c)
    ensures FirstSupplied(es, c, typeSide) == map[]
  {
    if es != [] {
      FirstSuppliedNone(es[1..], c, typeSide);
    }
  }

  lemma CategoriesSnoc(es: seq<VElement>, excluded: seq<int>, i: int)
    requires 0 <= i < |es|
    ensures Categories(es[..i + 1], excluded) == CatStep(Categories(es[..i], excluded), es[i], excluded)
  {
    assert es[..i + 1][..i] == es[..i];
  }

  /** One pass of the loop: register the category, then fill whichever parameter side is still empty. */
  method AddElement(d0: map<int, CatInfo>, e: VElement, excluded: seq<int>) returns (d: map<int, CatInfo>)
    ensures d == CatStep(d0, e, excluded)
  {
    d := d0;
    if e.category.Some? && e.category.value !in excluded {
      var c := e.category.value;
      if c !in d {
        d := d[c := CatInfo(map[], map[])];
      }
      if d[c].instanceParams == map[] {
        var inst := CollectParams(e.params);
        d := d[c := d[c].(instanceParams := inst)];
      }
      if d[c].typeParams == map[] && e.typeParams.Some? {
        var typ := CollectParams(e.typeParams.value);
        d := d[c := d[c].(typeParams := typ)];
      }
    }
  }

  /** `get_categories_in_view` as the loop it is. */
  method GetCategoriesInView(es: seq<VElement>, excluded: seq<int>) returns (d: map<int, CatInfo>)
    ensures forall c :: c in d <==> Seen(es, c, excluded)
    ensures forall c :: c in d ==> d[c] == CatInfo(FirstSupplied(es, c, false), FirstSupplied(es, c, true))
  {
    d := map[];
    var i := 0;
    while i < |es|
      invariant 0 <= i <= |es|
      invariant d == Categories(es[..i], excluded)
    {
      CategoriesSnoc(es, excluded, i);
      d := AddElement(d, es[i], excluded);
      i := i + 1;
    }
    assert es[..i] == es;
    CategoriesProps(es, excluded);
  }

  // ---------------------------------------------------------------- available parameters

  /** A parameter the colouring tools can write: not read-only, text or number storage. */
  predicate Writable(p: PInfo)
  {
    !p.param.readOnly && p.param.storage in {StrStorage, DoubleStorage, IntStorage}
  }

  function WritableNames(ps: seq<PInfo>): (r: seq<string>)
    ensures forall n :: n in r <==> exists p :: p in ps && Writable(p) && p.name == n
  {
    if ps == [] then []
    else WritableNames(ps[..|ps| - 1]) + (if Writable(ps[|ps| - 1]) then [ps[|ps| - 1].name] else [])
  }

  function AllWritableNames(es: seq<VElement>): (r: seq<string>)
    ensures forall n :: n in r <==> exists e, p :: e in es && p in e.params && Writable(p) && p.name == n
  {
    if es == [] then [] else AllWritableNames(es[..|es| - 1]) + WritableNames(es[|es| - 1].params)
  }

  method CollectWritable(ps: seq<PInfo>) returns (names: seq<string>)
    ensures names == WritableNames(ps)
  {
    names := [];
    var i := 0;
    while i < |ps|
      invariant 0 <= i <= |ps|
      invariant names == WritableNames(ps[..i])
    {
      assert ps[..i + 1][..i] == ps[..i];
      if Writable(ps[i]) {
        names := names + [ps[i].name];
      }
      i := i + 1;
    }
    assert ps[..i] == ps;
  }

  /**
   * `get_available_parameters`: the names of writable text/number
   * parameters of the view's elements, each once, in ascending order.
   */
  method GetAvailableParameters(es: seq<VElement>) returns (r: seq<string>)
    ensures Sorting.Sorted(r, StrOrder.Le)
    ensures forall n :: multiset(r)[n] == if exists e, p :: e in es && p in e.params && Writable(p) && p.name == n then 1 else 0
  {
    var names: seq<string> := [];
    var i := 0;
    while i < |es|
      invariant 0 <= i <= |es|
      invariant names == AllWritableNames(es[..i])
    {
      assert es[..i + 1][..i] == es[..i];
      var more := CollectWritable(es[i].params);
      names := names + more;
      i := i + 1;
    }
    assert es[..i] == es;
    StrOrder.SortedSetProps(names);
    r := StrOrder.SortedSet(names);
  }
}
