/**
 * The Color Elements window of the View panel: the common parameters of the
 * selected categories, the legend of one parameter's values with the
 * Tableau-style palette, and colour schemas kept as `value::RrGgBb` lines in
 * `.cschn` files.
 */
module ViewColorElements {
  import opened Common
  import opened Strs
  import Sorting
  import RevitUtils
  import opened ColorValues

  // ---------------------------------------------------------------- palette

  /** Tableau "Jewel Bright", five colours. */
  const Jewel5: seq<Rgb> := [Rgb(253, 111, 48), Rgb(249, 167, 41), Rgb(249, 210, 60), Rgb(95, 187, 104), Rgb(100, 205, 204)]

  /** Tableau "Jewel Bright", nine colours. */
  const Jewel9: seq<Rgb> := [Rgb(235, 30, 44), Rgb(253, 111, 48), Rgb(249, 167, 41), Rgb(249, 210, 60),
                             Rgb(95, 187, 104), Rgb(100, 205, 204), Rgb(145, 220, 234), Rgb(164, 164, 213),
                             Rgb(187, 201, 229)]

  /** Tableau "Hue Circle", nineteen colours. */
  const HueCircle: seq<Rgb> := [Rgb(27, 163, 198), Rgb(44, 181, 192), Rgb(48, 188, 173), Rgb(33, 176, 135),
                                Rgb(51, 166, 92), Rgb(87, 163, 55), Rgb(162, 182, 39), Rgb(213, 187, 33),
                                Rgb(248, 182, 32), Rgb(248, 146, 23), Rgb(240, 103, 25), Rgb(224, 52, 38),
                                Rgb(246, 73, 113), Rgb(252, 113, 158), Rgb(235, 115, 179), Rgb(206, 105, 190),
                                Rgb(162, 109, 194), Rgb(120, 115, 192), Rgb(79, 124, 186)]

  /** The value component, `int(255 * 0.9)`. */
  const WheelV: int := 229
  /** The floor component, `int(255 * 0.9 * (1 - 0.85))`. */
  const WheelP: int := 34

  /**
   * Colour `i` of `n` on the HSV wheel with saturation 0.85 and value 0.9:
   * with `f = (6i mod n) / n`, `q = int(229.5 (1 - 0.85 f))` and
   * `t = int(229.5 (1 - 0.85 (1 - f)))`, in exact arithmetic.
   */
  function HsvAt(n: int, i: int): Rgb
    requires 0 <= i < n
  {
    var sector := 6 * i / n;
    var k := 6 * i % n;
    var q := (229500 * n - 195075 * k) / (1000 * n);
    var t := (34425 * n + 195075 * k) / (1000 * n);
    if sector == 0 then Rgb(WheelV, t, WheelP)
    else if sector == 1 then Rgb(q, WheelV, WheelP)
    else if sector == 2 then Rgb(WheelP, WheelV, t)
    else if sector == 3 then Rgb(WheelP, q, WheelV)
    else if sector == 4 then Rgb(t, WheelP, WheelV)
    else Rgb(WheelV, WheelP, q)
  }

  /** The colours `generate_color_range(count)` of this window returns. */
  function ViewColorRange(count: int): (r: seq<Rgb>)
    ensures count >= 0 ==> |r| == count
  {
    if count <= 5 then RevitUtils.SliceTo(Jewel5, count)
    else if count <= 9 then Jewel9[..count]
    else if count <= 19 then HueCircle[..count]
    else seq(count, i requires 0 <= i < count => HsvAt(count, i))
  }

  /** `generate_color_range`: a palette prefix, or the HSV wheel filled in a loop. */
  method GenerateColorRange(count: int) returns (colors: seq<Rgb>)
    ensures colors == ViewColorRange(count)
  {
    if count <= 5 {
      return RevitUtils.SliceTo(Jewel5, count);
    }
    if count <= 9 {
      return Jewel9[..count];
    } else if count <= 19 {
      return HueCircle[..count];
    }
    colors := [];
    for i := 0 to count
      invariant |colors| == i
      invariant forall k :: 0 <= k < i ==> colors[k] == HsvAt(count, k)
    {
      colors := colors + [HsvAt(count, i)];
    }
  }

  lemma MulAtLeast(d: int, x: int)
    requires d > 0
    ensures x >= 1 ==> d * x >= d
    ensures x <= -1 ==> d * x <= -d
  {
  }

  /** Integer division lands in `[lo, hi]` when the dividend lies in `[lo d, (hi + 1) d)`. */
  lemma DivRange(a: int, d: int, lo: int, hi: int)
    requires d > 0 && lo * d <= a < (hi + 1) * d
    ensures lo <= a / d <= hi
  {
    var q := a / d;
    assert a == d * q + a % d;
    MulAtLeast(d, q - lo);
    MulAtLeast(d, q - hi);
    assert d * (q - lo) == d * q - d * lo;
    assert d * (q - hi) == d * q - d * hi;
  }

  /** Every wheel colour has its components between 34 and 229, one of each present. */
  lemma HsvBounds(n: int, i: int)
    requires 0 <= i < n
    ensures var c := HsvAt(n, i);
      WheelP <= c.r <= WheelV && WheelP <= c.g <= WheelV && WheelP <= c.b <= WheelV &&
      (c.r == WheelV || c.g == WheelV || c.b == WheelV) && (c.r == WheelP || c.g == WheelP || c.b == WheelP)
  {
    var k := 6 * i % n;
    DivRange(229500 * n - 195075 * k, 1000 * n, 34, 229);
    DivRange(34425 * n + 195075 * k, 1000 * n, 34, 229);
  }

  predicate AllDistinct(cs: seq<Rgb>)
  {
    forall i, j :: 0 <= i < j < |cs| ==> cs[i] != cs[j]
  }

  lemma Jewel5Distinct()
    ensures AllDistinct(Jewel5)
  {
  }

  lemma Jewel9Distinct()
    ensures AllDistinct(Jewel9)
  {
  }

  /** Which third of the hue circle a colour lies in: greens and blues, yellows and reds, pinks and violets. */
  function Band(c: Rgb): int
  {
    if c.b < 100 then 1 else if c.g >= 160 then 0 else 2
  }

  /** Three runs of distinct colours lying in different bands are distinct together. */
  lemma BandsDistinct(cs: seq<Rgb>, i: int, j: int)
    requires 0 <= i <= j <= |cs|
    requires AllDistinct(cs[..i]) && AllDistinct(cs[i..j]) && AllDistinct(cs[j..])
    requires forall k :: 0 <= k < |cs| ==> Band(cs[k]) == if k < i then 0 else if k < j then 1 else 2
    ensures AllDistinct(cs)
  {
    forall a, b | 0 <= a < b < |cs| ensures cs[a] != cs[b] {
      if b < i {
        assert cs[..i][a] == cs[a] && cs[..i][b] == cs[b];
      } else if i <= a && b < j {
        assert cs[i..j][a - i] == cs[a] && cs[i..j][b - i] == cs[b];
      } else if j <= a {
        assert cs[j..][a - j] == cs[a] && cs[j..][b - j] == cs[b];
      } else {
        assert Band(cs[a]) != Band(cs[b]);
      }
    }
  }

  lemma HueCircleDistinct()
    ensures AllDistinct(HueCircle)
  {
    assert AllDistinct(HueCircle[..4]);
    assert AllDistinct(HueCircle[4..12]);
    assert AllDistinct(HueCircle[12..]);
    BandsDistinct(HueCircle, 4, 12);
  }

  lemma PrefixDistinct(cs: seq<Rgb>, n: int)
    requires AllDistinct(cs) && 0 <= n <= |cs|
    ensures AllDistinct(cs[..n])
  {
  }

  /** Up to nineteen colours, the palette never repeats a colour. */
  lemma ViewColorRangeDistinct(count: int)
    requires count <= 19
    ensures AllDistinct(ViewColorRange(count))
  {
    if count <= 0 {
    } else if count <= 5 {
      Jewel5Distinct();
      PrefixDistinct(Jewel5, count);
    } else if count <= 9 {
      Jewel9Distinct();
      PrefixDistinct(Jewel9, count);
    } else {
      HueCircleDistinct();
      PrefixDistinct(HueCircle, count);
    }
  }

  /** Beyond nineteen, every colour is a wheel colour between 34 and 229. */
  lemma ViewColorRangeWheel(count: int)
    requires count > 19
    ensures forall i :: 0 <= i < count ==>
      WheelP <= ViewColorRange(count)[i].r <= WheelV &&
      WheelP <= ViewColorRange(count)[i].g <= WheelV &&
      WheelP <= ViewColorRange(count)[i].b <= WheelV
  {
    forall i | 0 <= i < count
      ensures WheelP <= ViewColorRange(count)[i].r <= WheelV &&
        WheelP <= ViewColorRange(count)[i].g <= WheelV &&
        WheelP <= ViewColorRange(count)[i].b <= WheelV
    {
      HsvBounds(count, i);
    }
  }

  // ---------------------------------------------------------------- the legend

  /**
   * `get_parameter_values`: `None` when reading a value raises; else the
   * rows grouped by value, ordered by `extract_number` with "None" last, and
   * painted from this window's palette sized to the number of rows.
   */
  function Legend(cats: seq<SelCategory>, c: Chosen, version: int, names: map<int, string>): Option<seq<ValueItem>>
  {
    match AllHits(cats, c, version, names, false)
    case None => None
    case Some(hs) =>
      var o := Ordered(Group(hs), ItemLe);
      Some(Paint(o, ViewColorRange(|o|)))
  }

  method GetParameterValues(cats: seq<SelCategory>, c: Chosen, version: int, names: map<int, string>)
    returns (r: Option<seq<ValueItem>>)
    ensures r == Legend(cats, c, version, names)
  {
    var ok, values := CollectValues(cats, c, version, names, false);
    if !ok {
      return None;
    }
    var o := Ordered(values, ItemLe);
    var colors := GenerateColorRange(|o|);
    var painted := PaintValues(o, colors);
    return Some(painted);
  }

  /**
   * The legend holds one row per distinct value read, with the ids of the
   * elements reading it; rows other than "None" are ordered by the number in
   * their value and coloured from the palette by position; "None" is last
   * and grey.
   */
  lemma LegendProps(cats: seq<SelCategory>, c: Chosen, version: int, names: map<int, string>)
    requires Legend(cats, c, version, names).Some?
    ensures var hs := AllHits(cats, c, version, names, false).value;
      var r := Legend(cats, c, version, names).value;
      (forall v :: v in Values(r) <==> v in HitValues(hs)) &&
      DistinctValues(r) &&
      (forall i :: 0 <= i < |r| ==> r[i].ids == IdsOf(hs, r[i].value)) &&
      (forall i :: 0 <= i < |r| ==> r[i].color == if r[i].value == "None" then Grey else ViewColorRange(|r|)[i]) &&
      (forall i :: 0 <= i < |r| && r[i].value == "None" ==> i == |r| - 1) &&
      (forall i, j :: 0 <= i < j < |r| && r[j].value != "None" ==> NumberLe(r[i].value, r[j].value))
  {
    var hs := AllHits(cats, c, version, names, false).value;
    var o := Ordered(Group(hs), ItemLe);
    ItemLeProps();
    ArrangedRows(hs, ItemLe, NumberLe, ViewColorRange(|o|));
    ArrangedOrder(hs, ItemLe, NumberLe, ViewColorRange(|o|));
  }

  // ---------------------------------------------------------------- common parameters

  /** A parameter of a category as listed: its (accent-folded) name and 0 for instance, 1 for type. */
  datatype ParamInfo = ParamInfo(name: string, paramType: int)

  /** `[p for p in ps if p.param_type == code]` */
  function OfKind(ps: seq<ParamInfo>, code: int): (r: seq<ParamInfo>)
    ensures forall p :: p in r <==> p in ps && p.paramType == code
  {
    if ps == [] then [] else (if ps[0].paramType == code then [ps[0]] else []) + OfKind(ps[1..], code)
  }

  function Names(ps: seq<ParamInfo>): (r: seq<string>)
    ensures |r| == |ps| && forall i :: 0 <= i < |ps| ==> r[i] == ps[i].name
  {
    seq(|ps|, i requires 0 <= i < |ps| => ps[i].name)
  }

  /** `[p for p in ps if p.name in names]` */
  function WithNameIn(ps: seq<ParamInfo>, names: seq<string>): seq<ParamInfo>
  {
    if ps == [] then [] else (if ps[0].name in names then [ps[0]] else []) + WithNameIn(ps[1..], names)
  }

  /** Exactly the parameters whose name is listed are kept. */
  lemma {:induction false} WithNameInMembers(ps: seq<ParamInfo>, names: seq<string>)
    ensures forall p :: p in WithNameIn(ps, names) <==> p in ps && p.name in names
  {
    if ps != [] {
      WithNameInMembers(ps[1..], names);
      assert ps == [ps[0]] + ps[1..];
    }
  }

  /** The narrowing loop: the first category's parameters kept while their name is in each later category. */
  function Narrow(common: seq<ParamInfo>, others: seq<seq<ParamInfo>>, code: int): seq<ParamInfo>
  {
    if others == [] then common
    else WithNameIn(Narrow(common, others[..|others| - 1], code), Names(OfKind(others[|others| - 1], code)))
  }

  predicate InEvery(name: string, others: seq<seq<ParamInfo>>, code: int)
  {
    forall k :: 0 <= k < |others| ==> name in Names(OfKind(others[k], code))
  }

  /** Reference definition: one pass over the first list, keeping what every other category names. */
  function KeepCommon(ps: seq<ParamInfo>, others: seq<seq<ParamInfo>>, code: int): seq<ParamInfo>
  {
    if ps == [] then []
    else (if InEvery(ps[0].name, others, code) then [ps[0]] else []) + KeepCommon(ps[1..], others, code)
  }

  lemma {:induction false} KeepCommonSnoc(ps: seq<ParamInfo>, others: seq<seq<ParamInfo>>, c: seq<ParamInfo>, code: int)
    ensures WithNameIn(KeepCommon(ps, others, code), Names(OfKind(c, code))) == KeepCommon(ps, others + [c], code)
  {
    if ps != [] {
      KeepCommonSnoc(ps[1..], others, c, code);
      var all := others + [c];
      assert InEvery(ps[0].name, all, code) <==>
        InEvery(ps[0].name, others, code) && ps[0].name in Names(OfKind(c, code)) by {
        assert forall k :: 0 <= k < |others| ==> all[k] == others[k];
        assert all[|others|] == c;
      }
      var head := if InEvery(ps[0].name, others, code) then [ps[0]] else [];
      var rest := KeepCommon(ps[1..], others, code);
      WithNameInAppend(head, rest, Names(OfKind(c, code)));
    }
  }

  lemma {:induction false} WithNameInAppend(a: seq<ParamInfo>, b: seq<ParamInfo>, names: seq<string>)
    ensures WithNameIn(a + b, names) == WithNameIn(a, names) + WithNameIn(b, names)
  {
    if a == [] {
      assert a + b == b;
    } else {
      var ab := a + b;
      assert ab[0] == a[0] && ab[1..] == a[1..] + b;
      WithNameInAppend(a[1..], b, names);
      var head := if a[0].name in names then [a[0]] else [];
      assert WithNameIn(ab, names) == head + WithNameIn(a[1..] + b, names);
      assert WithNameIn(a, names) == head + WithNameIn(a[1..], names);
    }
  }

  lemma {:induction false} KeepCommonNone(ps: seq<ParamInfo>, code: int)
    ensures KeepCommon(ps, [], code) == ps
  {
    if ps != [] {
      KeepCommonNone(ps[1..], code);
      assert ps == [ps[0]] + ps[1..];
    }
  }

  /**
   * The common parameters are the first category's parameters of the chosen
   * kind whose name every other selected category has, in the first
   * category's order.
   */
  lemma {:induction false} NarrowIsCommon(first: seq<ParamInfo>, others: seq<seq<ParamInfo>>, code: int)
    ensures Narrow(OfKind(first, code), others, code) == KeepCommon(OfKind(first, code), others, code)
  {
    if others == [] {
      KeepCommonNone(OfKind(first, code), code);
    } else {
      var init := others[..|others| - 1];
      NarrowIsCommon(first, init, code);
      KeepCommonSnoc(OfKind(first, code), init, others[|others| - 1], code);
      assert init + [others[|others| - 1]] == others;
    }
  }

  lemma {:induction false} KeepCommonMembers(ps: seq<ParamInfo>, others: seq<seq<ParamInfo>>, code: int)
    ensures forall p :: p in KeepCommon(ps, others, code) <==> p in ps && InEvery(p.name, others, code)
  {
    if ps != [] {
      KeepCommonMembers(ps[1..], others, code);
      assert ps == [ps[0]] + ps[1..];
    }
  }

  /** The index re-selected: the last parameter named `preserve`, else 0, else none (-1). */
  function SelectedIndex(common: seq<ParamInfo>, preserve: string): (r: int)
    ensures -1 <= r < |common|
    ensures r == -1 <==> common == []
  {
    var last := LastNamed(common, preserve);
    if preserve != "" && last >= 0 then last else if |common| > 0 then 0 else -1
  }

  /** Index of the last parameter carrying `name`, or -1. */
  function LastNamed(ps: seq<ParamInfo>, name: string): (r: int)
    ensures -1 <= r < |ps|
    ensures r >= 0 ==> ps[r].name == name && forall k :: r < k < |ps| ==> ps[k].name != name
    ensures r < 0 ==> forall k :: 0 <= k < |ps| ==> ps[k].name != name
  {
    if ps == [] then -1
    else if ps[|ps| - 1].name == name then |ps| - 1
    else LastNamed(ps[..|ps| - 1], name)
  }

  /** The outcome of `load_parameters_for_categories`. */
  datatype Loaded = NoCategories | Loaded(params: seq<ParamInfo>, selected: int)

  function LoadSpec(cats: seq<seq<ParamInfo>>, preserve: string, isInstance: bool): Loaded
  {
    if cats == [] then NoCategories
    else
      var code := if isInstance then 0 else 1;
      var common := Narrow(OfKind(cats[0], code), cats[1..], code);
      Loaded(common, SelectedIndex(common, preserve))
  }

  /** The narrowing loop over the categories after the first. */
  method NarrowParams(first: seq<ParamInfo>, rest: seq<seq<ParamInfo>>, code: int) returns (common: seq<ParamInfo>)
    ensures common == Narrow(OfKind(first, code), rest, code)
  {
    common := OfKind(first, code);
    for i := 0 to |rest|
      invariant common == Narrow(OfKind(first, code), rest[..i], code)
    {
      assert rest[..i + 1][..i] == rest[..i];
      common := WithNameIn(common, Names(OfKind(rest[i], code)));
    }
    assert rest[..|rest|] == rest;
  }

  /** The listing loop: the index of the preserved name, or the first, or none. */
  method SelectParam(common: seq<ParamInfo>, preserve: string) returns (selected: int)
    ensures selected == SelectedIndex(common, preserve)
  {
    selected := -1;
    for i := 0 to |common|
      invariant selected == if preserve != "" then LastNamed(common[..i], preserve) else -1
    {
      assert common[..i + 1][..i] == common[..i];
      if preserve != "" && common[i].name == preserve {
        selected := i;
      }
    }
    assert common[..|common|] == common;
    if selected < 0 && |common| > 0 {
      selected := 0;
    }
  }

  /** `load_parameters_for_categories`. */
  method LoadParametersForCategories(cats: seq<seq<ParamInfo>>, preserve: string, isInstance: bool)
    returns (res: Loaded)
    ensures res == LoadSpec(cats, preserve, isInstance)
  {
    if cats == [] {
      return NoCategories;
    }
    var code := if isInstance then 0 else 1;
    var common := NarrowParams(cats[0], cats[1..], code);
    var selected := SelectParam(common, preserve);
    return Loaded(common, selected);
  }

  /**
   * What the window ends up with: the common parameters, and the preserved
   * name selected whenever it is among them, else the first parameter.
   */
  lemma LoadProps(cats: seq<seq<ParamInfo>>, preserve: string, isInstance: bool)
    requires cats != []
    ensures var code := if isInstance then 0 else 1;
      var res := LoadSpec(cats, preserve, isInstance);
      (forall p :: p in res.params <==> p in cats[0] && p.paramType == code && InEvery(p.name, cats[1..], code)) &&
      (preserve != "" && preserve in Names(res.params) ==> res.params[res.selected].name == preserve) &&
      ((preserve == "" || preserve !in Names(res.params)) && res.params != [] ==> res.selected == 0)
  {
    var code := if isInstance then 0 else 1;
    NarrowIsCommon(cats[0], cats[1..], code);
    KeepCommonMembers(OfKind(cats[0], code), cats[1..], code);
    LastNamedFound(LoadSpec(cats, preserve, isInstance).params, preserve);
  }

  /** `LastNamed` finds a parameter exactly when the name is listed. */
  lemma LastNamedFound(ps: seq<ParamInfo>, name: string)
    ensures LastNamed(ps, name) >= 0 <==> name in Names(ps)
  {
    var l := LastNamed(ps, name);
    if l >= 0 {
      assert Names(ps)[l] == name;
    }
    if name in Names(ps) {
      var k :| 0 <= k < |ps| && Names(ps)[k] == name;
      assert ps[k].name == name;
    }
  }

  // ---------------------------------------------------------------- colour schemas

  /** One schema line: its value and colour. */
  datatype SchemaEntry = SchemaEntry(value: string, color: Rgb)

  /** What one line of a schema file gives: nothing, an entry, or an exception. */
  datatype LineRead = Skipped | Entry(entry: SchemaEntry) | Failed

  const RgbLetters: set<char> := {'R', 'G', 'B'}

  predicate IsByte(x: int) { 0 <= x <= 255 }

  /**
   * A line of a schema file: blank lines, lines that are not exactly two
   * parts around "::", and colour parts with fewer than four pieces around
   * R, G and B are skipped; a piece that is not an integer, or a component
   * outside 0..255, raises.
   */
  function ParseSchemaLine(raw: string): (r: LineRead)
    ensures r.Entry? ==> IsByte(r.entry.color.r) && IsByte(r.entry.color.g) && IsByte(r.entry.color.b)
    ensures r.Entry? ==> |SplitOn(Strip(raw), "::")| == 2 && r.entry.value == SplitOn(Strip(raw), "::")[0]
    ensures IsBlank(raw) ==> r == Skipped
  {
    var line := Strip(raw);
    BlankIffStripEmpty(raw);
    if line == [] then Skipped
    else
      var parts := SplitOn(line, "::");
      if |parts| != 2 then Skipped
      else
        var pieces := SplitAny(parts[1], RgbLetters);
        if |pieces| < 4 then Skipped
        else
          match (ParseInt(pieces[1]), ParseInt(pieces[2]), ParseInt(pieces[3]))
          case (Some(r), Some(g), Some(b)) =>
            if IsByte(r) && IsByte(g) && IsByte(b) then Entry(SchemaEntry(parts[0], Rgb(r, g, b))) else Failed
          case _ => Failed
  }

  /** The entries of a schema file, or `None` once a line raises. */
  function LoadSchema(lines: seq<string>): Option<seq<SchemaEntry>>
  {
    if lines == [] then Some([])
    else match LoadSchema(lines[..|lines| - 1])
      case None => None
      case Some(es) =>
        match ParseSchemaLine(lines[|lines| - 1])
        case Skipped => Some(es)
        case Entry(e) => Some(es + [e])
        case Failed => None
  }

  /** The reading loop of `load_color_schema_from_file`. */
  method ReadSchema(lines: seq<string>) returns (r: Option<seq<SchemaEntry>>)
    ensures r == LoadSchema(lines)
  {
    var entries: seq<SchemaEntry> := [];
    for i := 0 to |lines|
      invariant LoadSchema(lines[..i]) == Some(entries)
    {
      assert lines[..i + 1][..i] == lines[..i];
      match ParseSchemaLine(lines[i]) {
        case Skipped =>
        case Entry(e) => entries := entries + [e];
        case Failed =>
          SchemaFailStays(lines, i);
          return None;
      }
    }
    assert lines[..|lines|] == lines;
    return Some(entries);
  }

  lemma {:induction false} SchemaFailStays(lines: seq<string>, i: nat)
    requires i < |lines| && ParseSchemaLine(lines[i]).Failed?
    ensures LoadSchema(lines).None?
  {
    if i < |lines| - 1 {
      assert lines[..|lines| - 1][i] == lines[i];
      SchemaFailStays(lines[..|lines| - 1], i);
    }
  }

  /** The colour part of a schema line, `R<r>G<g>B<b>`. */
  function RgbText(c: Rgb): string
  {
    "R" + IntToString(c.r) + "G" + IntToString(c.g) + "B" + IntToString(c.b)
  }

  /** The line a schema entry is written as. */
  function FormatEntry(e: SchemaEntry): string
  {
    e.value + "::" + RgbText(e.color)
  }

  /**
   * Round trip: a colon-free value that does not start with white space,
   * with byte components, written as `value::RrGgBb`, reads back as itself.
   */
  lemma ParseFormatEntry(e: SchemaEntry)
    requires ':' !in e.value && (e.value != [] ==> !IsSpace(e.value[0]))
    requires IsByte(e.color.r) && IsByte(e.color.g) && IsByte(e.color.b)
    ensures ParseSchemaLine(FormatEntry(e)) == Entry(e)
  {
    var rs, gs, bs := IntToString(e.color.r), IntToString(e.color.g), IntToString(e.color.b);
    FormatEntryParts(e);
    RgbTextPieces(e.color);
    IntRoundTrip(e.color.r);
    IntRoundTrip(e.color.g);
    IntRoundTrip(e.color.b);
    ParseLineOf(FormatEntry(e), e.value, RgbText(e.color), rs, gs, bs, e.color);
  }

  /** A line whose parts are known reads as the entry they spell. */
  lemma ParseLineOf(line: string, v: string, rgb: string, rs: string, gs: string, bs: string, c: Rgb)
    requires Strip(line) != [] && SplitOn(Strip(line), "::") == [v, rgb]
    requires SplitAny(rgb, RgbLetters) == ["", rs, gs, bs]
    requires ParseInt(rs) == Some(c.r) && ParseInt(gs) == Some(c.g) && ParseInt(bs) == Some(c.b)
    requires IsByte(c.r) && IsByte(c.g) && IsByte(c.b)
    ensures ParseSchemaLine(line) == Entry(SchemaEntry(v, c))
  {
  }

  lemma FormatEntryParts(e: SchemaEntry)
    requires ':' !in e.value && (e.value != [] ==> !IsSpace(e.value[0]))
    requires IsByte(e.color.r) && IsByte(e.color.g) && IsByte(e.color.b)
    ensures Strip(FormatEntry(e)) != []
    ensures SplitOn(Strip(FormatEntry(e)), "::") == [e.value, RgbText(e.color)]
  {
    var line := FormatEntry(e);
    var rgb := RgbText(e.color);
    var bs := IntToString(e.color.b);
    assert line[|line| - 1] == bs[|bs| - 1];
    assert line[0] == if e.value == [] then ':' else e.value[0];
    StripUnchanged(line, IsSpace);
    RgbTextNoColon(e.color);
    SplitOnFirst(e.value, rgb);
  }

  lemma RgbTextNoColon(c: Rgb)
    requires IsByte(c.r) && IsByte(c.g) && IsByte(c.b)
    ensures ':' !in RgbText(c)
  {
    var rs, gs, bs := IntToString(c.r), IntToString(c.g), IntToString(c.b);
    assert AllDigits(rs) && AllDigits(gs) && AllDigits(bs);
    assert ':' !in rs && ':' !in gs && ':' !in bs;
  }

  /** Splitting `a::b` on "::" gives `[a, b]` when neither part has a colon. */
  lemma {:induction false} SplitOnFirst(a: string, b: string)
    requires ':' !in a && ':' !in b
    ensures SplitOn(a + "::" + b, "::") == [a, b]
  {
    var s := a + "::" + b;
    forall j | 0 <= j < |a| ensures !SliceAt(s, "::", j) {
      assert s[j] == a[j];
      assert s[j..j + 2][0] == s[j];
    }
    assert s[|a|..|a| + 2] == "::";
    assert SliceAt(s, "::", |a|);
    assert FirstSlice(s, "::") == Some(|a|);
    assert s[..|a|] == a;
    assert s[|a| + 2..] == b;
    forall j | 0 <= j <= |b| - 2 ensures !SliceAt(b, "::", j) {
      assert b[j..j + 2][0] == b[j];
    }
    assert FirstSlice(b, "::").None?;
  }

  /** Text free of separators is one piece. */
  lemma {:induction false} SplitAnyNone(x: string, seps: set<char>)
    requires forall i :: 0 <= i < |x| ==> x[i] !in seps
    ensures SplitAny(x, seps) == [x]
  {
    if x != [] {
      SplitAnyNone(x[1..], seps);
      assert [x[0]] + x[1..] == x;
    }
  }

  /** Text free of separators joins the first piece of what follows it. */
  lemma {:induction false} SplitAnyPlain(x: string, y: string, seps: set<char>)
    requires forall i :: 0 <= i < |x| ==> x[i] !in seps
    ensures SplitAny(x + y, seps) == [x + SplitAny(y, seps)[0]] + SplitAny(y, seps)[1..]
  {
    if x != [] {
      SplitAnyPlain(x[1..], y, seps);
      assert (x + y)[1..] == x[1..] + y;
      assert (x + y)[0] == x[0];
      assert [x[0]] + (x[1..] + SplitAny(y, seps)[0]) == x + SplitAny(y, seps)[0];
    } else {
      var t := SplitAny(y, seps);
      assert x + y == y;
      assert x + t[0] == t[0];
      assert t == [t[0]] + t[1..];
    }
  }

  /** A separator in front starts a new, empty, piece. */
  lemma SplitAnyAtSep(c: char, y: string, seps: set<char>)
    requires c in seps
    ensures SplitAny([c] + y, seps) == [[]] + SplitAny(y, seps)
  {
    assert ([c] + y)[1..] == y;
  }

  lemma DigitsFree(d: string)
    requires AllDigits(d)
    ensures forall i :: 0 <= i < |d| ==> d[i] !in RgbLetters
  {
  }

  lemma RgbTextPieces(c: Rgb)
    requires IsByte(c.r) && IsByte(c.g) && IsByte(c.b)
    ensures SplitAny(RgbText(c), RgbLetters) == ["", IntToString(c.r), IntToString(c.g), IntToString(c.b)]
  {
    RgbPieces(IntToString(c.r), IntToString(c.g), IntToString(c.b));
  }

  /** `R<r>G<g>B<b>` splits on the letters into an empty piece and the three numbers. */
  lemma {:induction false} RgbPieces(rs: string, gs: string, bs: string)
    requires AllDigits(rs) && AllDigits(gs) && AllDigits(bs)
    ensures SplitAny("R" + rs + "G" + gs + "B" + bs, RgbLetters) == ["", rs, gs, bs]
  {
    DigitsFree(rs);
    DigitsFree(gs);
    DigitsFree(bs);
    var tailB := ['B'] + bs;
    assert bs + "" == bs;
    TailPieces('B', bs, "", [], RgbLetters);
    assert SplitAny(tailB, RgbLetters) == ["", bs];
    var tailG := ['G'] + (gs + tailB);
    TailPieces('G', gs, tailB, [bs], RgbLetters);
    SplitAnyPlain(rs, tailG, RgbLetters);
    assert rs + "" == rs;
    SplitAnyAtSep('R', rs + tailG, RgbLetters);
    assert "R" + rs + "G" + gs + "B" + bs == ['R'] + (rs + tailG);
  }

  /** A separator, a plain piece and text whose pieces are `[""] + more`. */
  lemma TailPieces(c: char, x: string, y: string, more: seq<string>, seps: set<char>)
    requires c in seps && forall i :: 0 <= i < |x| ==> x[i] !in seps
    requires y == [] || SplitAny(y, seps) == [""] + more
    requires y == [] ==> more == []
    ensures SplitAny([c] + (x + y), seps) == ["", x] + more
  {
    SplitAnyAtSep(c, x + y, seps);
    if y == [] {
      SplitAnyNone(x, seps);
      assert x + y == x;
    } else {
      SplitAnyPlain(x, y, seps);
      assert x + "" == x;
    }
  }

  /** The colour of the last schema entry for `v`, if there is one. */
  function LastMatch(schema: seq<SchemaEntry>, v: string): Option<Rgb>
  {
    if schema == [] then None
    else if schema[|schema| - 1].value == v then Some(schema[|schema| - 1].color)
    else LastMatch(schema[..|schema| - 1], v)
  }

  /** `LastMatch` names the entry after which no entry has the value. */
  lemma {:induction false} LastMatchProps(schema: seq<SchemaEntry>, v: string)
    ensures LastMatch(schema, v).None? <==> forall k :: 0 <= k < |schema| ==> schema[k].value != v
    ensures LastMatch(schema, v).Some? ==> exists k :: (0 <= k < |schema| && schema[k].value == v &&
      schema[k].color == LastMatch(schema, v).value && forall m :: k < m < |schema| ==> schema[m].value != v)
  {
    if schema != [] && schema[|schema| - 1].value != v {
      var init := schema[..|schema| - 1];
      LastMatchProps(init, v);
      if LastMatch(init, v).Some? {
        var k :| 0 <= k < |init| && init[k].value == v &&
          init[k].color == LastMatch(init, v).value && forall m :: k < m < |init| ==> init[m].value != v;
        assert schema[k] == init[k];
      }
    }
  }

  /** One legend row after the schema: the colour of the last entry for its value, else its own. */
  function Recolor(item: ValueItem, schema: seq<SchemaEntry>): ValueItem
  {
    item.(color := OrElse(LastMatch(schema, item.value), item.color))
  }

  /** The inner loop: every entry for the row's value paints it in turn. */
  method RecolorItem(item: ValueItem, schema: seq<SchemaEntry>) returns (r: ValueItem)
    ensures r == Recolor(item, schema)
  {
    r := item;
    for j := 0 to |schema|
      invariant r == Recolor(item, schema[..j])
    {
      assert schema[..j + 1][..j] == schema[..j];
      if item.value == schema[j].value {
        r := r.(color := schema[j].color);
      }
    }
    assert schema[..|schema|] == schema;
  }

  function ApplySchema(items: seq<ValueItem>, schema: seq<SchemaEntry>): (r: seq<ValueItem>)
    ensures |r| == |items|
  {
    seq(|items|, i requires 0 <= i < |items| => Recolor(items[i], schema))
  }

  /** The applying part of `load_color_schema_from_file`, only when both lists are non-empty. */
  method ApplyColorSchema(items: seq<ValueItem>, schema: seq<SchemaEntry>) returns (r: seq<ValueItem>)
    ensures r == ApplySchema(items, schema)
  {
    r := items;
    if |schema| == 0 || |items| == 0 {
      assert forall i :: 0 <= i < |items| ==> Recolor(items[i], schema) == items[i];
      return;
    }
    for i := 0 to |items|
      invariant |r| == |items|
      invariant forall k :: 0 <= k < i ==> r[k] == Recolor(items[k], schema)
      invariant forall k :: i <= k < |items| ==> r[k] == items[k]
    {
      var item := RecolorItem(items[i], schema);
      r := r[i := item];
    }
  }

  /**
   * Applying a schema changes colours only: a row named in the schema takes
   * the colour of its last entry, the others keep theirs, and applying the
   * same schema again changes nothing.
   */
  lemma ApplySchemaProps(items: seq<ValueItem>, schema: seq<SchemaEntry>)
    ensures var r := ApplySchema(items, schema);
      (forall i :: 0 <= i < |r| ==> r[i].value == items[i].value && r[i].ids == items[i].ids) &&
      (forall i :: 0 <= i < |r| ==>
        (forall k :: 0 <= k < |schema| ==> schema[k].value != items[i].value) ==> r[i].color == items[i].color) &&
      ApplySchema(r, schema) == r
  {
    var r := ApplySchema(items, schema);
    forall i | 0 <= i < |r| ensures
      (forall k :: 0 <= k < |schema| ==> schema[k].value != items[i].value) ==> r[i].color == items[i].color
    {
      LastMatchProps(schema, items[i].value);
    }
  }

  // ---------------------------------------------------------------- schema files

  /** A schema file: the name it is offered under and its file name. */
  datatype Schema = Schema(name: string, file: string)

  const Ext: string := ".cschn"

  predicate EndsWith(s: string, suffix: string)
  {
    |suffix| <= |s| && s[|s| - |suffix|..] == suffix
  }

  predicate AllDots(s: string)
  {
    forall i :: 0 <= i < |s| ==> s[i] == '.'
  }

  /**
   * `os.path.splitext(f)[0]` for a name ending in ".cschn": the name without
   * it, unless only dots precede it (a hidden file such as ".cschn", which
   * has no extension).
   */
  function Stem(f: string): (r: string)
    requires EndsWith(f, Ext)
    ensures r == f || r + Ext == f
  {
    var base := f[..|f| - |Ext|];
    assert base + Ext == f;
    if AllDots(base) then f else base
  }

  /** `get_available_schemas`, given the file names of the schema folder. */
  function AvailableSchemas(files: seq<string>): (r: seq<Schema>)
    ensures forall s :: s in r ==> EndsWith(s.file, Ext) && s.file in files
  {
    if files == [] then []
    else
      (if EndsWith(files[0], Ext) then [Schema(Stem(files[0]), files[0])] else []) + AvailableSchemas(files[1..])
  }

  /** Index of the first schema whose lower-cased name is `key`, or -1. */
  function FirstSchema(schemas: seq<Schema>, key: string): (r: int)
    ensures -1 <= r < |schemas|
    ensures r >= 0 ==> Lower(schemas[r].name) == key && forall k :: 0 <= k < r ==> Lower(schemas[k].name) != key
    ensures r < 0 ==> forall k :: 0 <= k < |schemas| ==> Lower(schemas[k].name) != key
  {
    if schemas == [] then -1
    else if Lower(schemas[0].name) == key then 0
    else
      var k := FirstSchema(schemas[1..], key);
      if k < 0 then -1 else k + 1
  }

  /**
   * `check_for_matching_schema`: nothing for an empty name; else the file of
   * the first schema whose name equals the parameter name ignoring case.
   */
  function CheckForMatchingSchema(paramName: string, schemas: seq<Schema>): (r: Option<string>)
    ensures paramName == "" ==> r.None?
    ensures r.Some? ==> exists k :: (0 <= k < |schemas| && schemas[k].file == r.value &&
      Lower(schemas[k].name) == Lower(paramName) &&
      forall m :: 0 <= m < k ==> Lower(schemas[m].name) != Lower(paramName))
    ensures paramName != "" && r.None? ==> forall k :: 0 <= k < |schemas| ==> Lower(schemas[k].name) != Lower(paramName)
  {
    if paramName == "" then None
    else
      var k := FirstSchema(schemas, Lower(paramName));
      if k < 0 then None else Some(schemas[k].file)
  }

  /** A schema file named after a parameter, in any case, is found for it. */
  lemma MatchingSchemaFound(paramName: string, files: seq<string>)
    requires paramName != [] && !AllDots(paramName)
    requires paramName + Ext in files
    ensures CheckForMatchingSchema(paramName, AvailableSchemas(files)).Some?
  {
    var f := paramName + Ext;
    AvailableContains(files, f);
    assert f[..|f| - |Ext|] == paramName;
    var schemas := AvailableSchemas(files);
    var k :| 0 <= k < |schemas| && schemas[k] == Schema(paramName, f);
    assert Lower(schemas[k].name) == Lower(paramName);
  }

  lemma {:induction false} AvailableContains(files: seq<string>, f: string)
    requires f in files && EndsWith(f, Ext)
    ensures Schema(Stem(f), f) in AvailableSchemas(files)
  {
    if files[0] != f {
      AvailableContains(files[1..], f);
    }
  }
}
