/**
 * What the ColorElements commands of the View and Colorize panels share:
 * folding accented letters in display names, reading one parameter of the
 * elements of the selected categories as a string, grouping the elements by
 * that string, and arranging the groups as legend rows — the values other
 * than "None" ordered by the number written in them, the "None" row last and
 * grey, and one palette colour per row.
 */
module ColorValues {
  import opened Common
  import opened Strs
  import Sorting
  import StrOrder
  import RevitUtils

  // ---------------------------------------------------------------- accents

  const AccentsA: string := "\U{E1}\U{E0}\U{E2}\U{E4}\U{E3}\U{E5}\U{101}"
  const AccentsE: string := "\U{E9}\U{E8}\U{EA}\U{EB}\U{113}\U{117}"
  const AccentsI: string := "\U{ED}\U{EC}\U{EE}\U{EF}\U{12B}"
  const AccentsO: string := "\U{F3}\U{F2}\U{F4}\U{F6}\U{F5}\U{F8}\U{14D}"
  const AccentsU: string := "\U{FA}\U{F9}\U{FB}\U{FC}\U{16B}"
  const AccentsN: string := "\U{F1}\U{144}"
  const AccentsC: string := "\U{E7}\U{107}"
  const AccentsY: string := "\U{FF}"
  const AccentsZ: string := "\U{17E}\U{17A}\U{17C}"
  const AccentsS: string := "\U{161}\U{15B}"

  /** One of the lower-case accented letters the commands fold. */
  predicate Accented(c: char)
  {
    c in AccentsA || c in AccentsE || c in AccentsI || c in AccentsO || c in AccentsU ||
    c in AccentsN || c in AccentsC || c in AccentsY || c in AccentsZ || c in AccentsS
  }

  /** The character `simple_strip_accents` writes for `c`. */
  function AccentBase(c: char): (r: char)
    ensures Accented(c) ==> 'a' <= r <= 'z'
    ensures !Accented(c) ==> r == c
    ensures c in AccentsA ==> r == 'a'
    ensures c in AccentsE ==> r == 'e'
    ensures c in AccentsI ==> r == 'i'
    ensures c in AccentsO ==> r == 'o'
    ensures c in AccentsU ==> r == 'u'
    ensures c in AccentsN ==> r == 'n'
    ensures c in AccentsC ==> r == 'c'
    ensures c in AccentsY ==> r == 'y'
    ensures c in AccentsZ ==> r == 'z'
    ensures c in AccentsS ==> r == 's'
  {
    if c as int < 128 then c
    else if c in AccentsA then 'a'
    else if c in AccentsE then 'e'
    else if c in AccentsI then 'i'
    else if c in AccentsO then 'o'
    else if c in AccentsU then 'u'
    else if c in AccentsN then 'n'
    else if c in AccentsC then 'c'
    else if c in AccentsY then 'y'
    else if c in AccentsZ then 'z'
    else if c in AccentsS then 's'
    else c
  }

  /**
   * The text with every listed accented letter replaced by its plain ASCII
   * letter; every other character, ASCII or not, kept where it was.
   */
  function StripAccents(text: string): (r: string)
    ensures |r| == |text|
    ensures forall i :: 0 <= i < |text| ==> r[i] == AccentBase(text[i])
    ensures forall i :: 0 <= i < |text| && !Accented(text[i]) ==> r[i] == text[i]
    ensures forall i :: 0 <= i < |text| && Accented(text[i]) ==> 'a' <= r[i] <= 'z'
    ensures forall i :: 0 <= i < |r| ==> !Accented(r[i])
  {
    seq(|text|, i requires 0 <= i < |text| => AccentBase(text[i]))
  }

  /** Folding twice is folding once, and ASCII text is left alone. */
  lemma StripAccentsIdempotent(text: string)
    ensures StripAccents(StripAccents(text)) == StripAccents(text)
    ensures (forall i :: 0 <= i < |text| ==> text[i] as int < 128) ==> StripAccents(text) == text
  {
    var r := StripAccents(text);
    assert forall i :: 0 <= i < |r| ==> StripAccents(r)[i] == r[i];
  }

  /** The character loop of `simple_strip_accents`. */
  method SimpleStripAccents(text: string) returns (result: string)
    ensures result == StripAccents(text)
  {
    result := "";
    for i := 0 to |text|
      invariant |result| == i
      invariant forall k :: 0 <= k < i ==> result[k] == AccentBase(text[k])
    {
      result := result + [AccentBase(text[i])];
    }
  }

  // ---------------------------------------------------------------- reading a value

  /**
   * `get_parameter_value` of the two ColorElements windows. `None` stands
   * for the exceptions it lets through: an element-id parameter naming an
   * element that is not in the document (`names`), and the parameter type
   * that cannot be asked on a host of version 2021 or older. With
   * `rawString` the text of a string parameter is returned as it is (the
   * Colorize panel); without it an empty text reads "None" (the View panel).
   */
  function ParameterValue(p: RevitUtils.RParam, version: int, names: map<int, string>, rawString: bool): (r: Option<string>)
    ensures r.None? <==> (p.param.hasValue &&
      ((p.param.storage == IdStorage && RevitUtils.AsElementId(p.param.value) >= 0 &&
        RevitUtils.AsElementId(p.param.value) !in names) ||
       (p.param.storage == IntStorage && version <= 2021 && !p.typeKnown)))
    ensures r.Some? && !(rawString && p.param.storage == StrStorage) ==>
      r.value == RevitUtils.ParameterValueString(p, version, names)
    ensures r.Some? && rawString && p.param.hasValue && p.param.storage == StrStorage ==>
      r.value == RevitUtils.AsString(p.param.value)
  {
    if !p.param.hasValue then Some("None")
    else match p.param.storage
      case DoubleStorage => Some(p.valueString)
      case IdStorage =>
        var id := RevitUtils.AsElementId(p.param.value);
        if id >= 0 then (if id in names then Some(names[id]) else None) else Some("None")
      case IntStorage =>
        if version <= 2021 && !p.typeKnown then None
        else if p.yesNo then Some(if RevitUtils.AsInteger(p.param.value) == 1 then "True" else "False")
        else Some(p.valueString)
      case StrStorage =>
        var s := RevitUtils.AsString(p.param.value);
        if rawString || s != "" then Some(s) else Some("None")
      case NoStorage => Some("None")
  }

  // ---------------------------------------------------------------- grouping

  /** One element's reading: the value string and the element's id. */
  datatype Hit = Hit(value: string, id: int)

  /** A legend row (`ValuesInfo`): a value, the ids of the elements carrying it, its colour. */
  datatype ValueItem = ValueItem(value: string, ids: seq<int>, color: Rgb)

  /** The placeholder colour a row has until the palette is applied. */
  const Unpainted: Rgb := Rgb(0, 0, 0)

  function HitValues(hs: seq<Hit>): (r: seq<string>)
    ensures |r| == |hs| && forall i :: 0 <= i < |hs| ==> r[i] == hs[i].value
  {
    seq(|hs|, i requires 0 <= i < |hs| => hs[i].value)
  }

  function Values(items: seq<ValueItem>): (r: seq<string>)
    ensures |r| == |items| && forall i :: 0 <= i < |items| ==> r[i] == items[i].value
  {
    seq(|items|, i requires 0 <= i < |items| => items[i].value)
  }

  predicate DistinctValues(items: seq<ValueItem>)
  {
    forall i, j :: 0 <= i < j < |items| ==> items[i].value != items[j].value
  }

  /** The ids of the hits reading `v`, in the order read. */
  function IdsOf(hs: seq<Hit>, v: string): seq<int>
  {
    if hs == [] then []
    else IdsOf(hs[..|hs| - 1], v) + (if hs[|hs| - 1].value == v then [hs[|hs| - 1].id] else [])
  }

  lemma {:induction false} IdsOfAbsent(hs: seq<Hit>, v: string)
    requires v !in HitValues(hs)
    ensures IdsOf(hs, v) == []
  {
    if hs != [] {
      var init := hs[..|hs| - 1];
      assert HitValues(hs) == HitValues(init) + [hs[|hs| - 1].value];
      IdsOfAbsent(init, v);
    }
  }

  /** `[x for x in values if x.value == v]`, first match: its index, or -1. */
  function FindValue(items: seq<ValueItem>, v: string): (r: int)
    ensures -1 <= r < |items|
    ensures r >= 0 ==> items[r].value == v && forall k :: 0 <= k < r ==> items[k].value != v
    ensures r < 0 ==> forall k :: 0 <= k < |items| ==> items[k].value != v
  {
    if items == [] then -1
    else if items[0].value == v then 0
    else
      var k := FindValue(items[1..], v);
      if k < 0 then -1 else k + 1
  }

  /** One hit: the id joins the row of its value, or a new row is appended. */
  function AddHit(items: seq<ValueItem>, h: Hit): seq<ValueItem>
  {
    var k := FindValue(items, h.value);
    if k >= 0 then items[k := items[k].(ids := items[k].ids + [h.id])]
    else items + [ValueItem(h.value, [h.id], Unpainted)]
  }

  function GroupInto(acc: seq<ValueItem>, hs: seq<Hit>): seq<ValueItem>
  {
    if hs == [] then acc else AddHit(GroupInto(acc, hs[..|hs| - 1]), hs[|hs| - 1])
  }

  /** The rows the hits make, starting from none. */
  function Group(hs: seq<Hit>): seq<ValueItem>
  {
    GroupInto([], hs)
  }

  lemma {:induction false} GroupIntoAppend(acc: seq<ValueItem>, a: seq<Hit>, b: seq<Hit>)
    ensures GroupInto(acc, a + b) == GroupInto(GroupInto(acc, a), b)
  {
    if b == [] {
      assert a + b == a;
    } else {
      GroupIntoAppend(acc, a, b[..|b| - 1]);
      assert (a + b)[..|a + b| - 1] == a + b[..|b| - 1];
    }
  }

  /** A hit keeps the values distinct, adding its value at the end when it is new. */
  lemma AddHitValues(items: seq<ValueItem>, h: Hit)
    requires DistinctValues(items)
    ensures DistinctValues(AddHit(items, h))
    ensures Values(AddHit(items, h)) == if h.value in Values(items) then Values(items) else Values(items) + [h.value]
  {
    AddHitProps(items, h);
  }

  lemma {:induction false} AddHitProps(items: seq<ValueItem>, h: Hit)
    requires DistinctValues(items)
    ensures var r := AddHit(items, h);
      DistinctValues(r) &&
      Values(r) == (if h.value in Values(items) then Values(items) else Values(items) + [h.value]) &&
      (forall i :: 0 <= i < |items| ==>
        r[i].ids == items[i].ids + (if items[i].value == h.value then [h.id] else []) &&
        r[i].color == items[i].color) &&
      (h.value !in Values(items) ==> r[|items|] == ValueItem(h.value, [h.id], Unpainted))
  {
    var k := FindValue(items, h.value);
    if k >= 0 {
      assert h.value in Values(items) by { assert Values(items)[k] == h.value; }
    } else {
      assert h.value !in Values(items);
    }
  }

  /**
   * The rows are the distinct values read, in the order each was first read;
   * each row holds exactly the ids of the elements reading its value, in
   * reading order; no row is painted yet.
   */
  lemma {:induction false} GroupValues(hs: seq<Hit>)
    ensures Values(Group(hs)) == StrOrder.Dedup(HitValues(hs))
    ensures DistinctValues(Group(hs))
  {
    if hs != [] {
      var init := hs[..|hs| - 1];
      var h := hs[|hs| - 1];
      GroupValues(init);
      var g0 := Group(init);
      assert Group(hs) == AddHit(g0, h);
      AddHitValues(g0, h);
      var vs := HitValues(hs);
      assert vs[..|vs| - 1] == HitValues(init) && vs[|vs| - 1] == h.value;
      var d := StrOrder.Dedup(HitValues(init));
      assert StrOrder.Dedup(vs) == if h.value in d then d else d + [h.value];
      assert Values(g0) == d;
    }
  }

  /**
   * Each row holds exactly the ids of the elements reading its value, in
   * reading order (so at least one), and is not painted yet.
   */
  lemma {:induction false} GroupIds(hs: seq<Hit>)
    ensures var g := Group(hs);
      forall i :: 0 <= i < |g| ==>
        g[i].ids == IdsOf(hs, g[i].value) && |g[i].ids| > 0 && g[i].color == Unpainted
  {
    if hs != [] {
      var init := hs[..|hs| - 1];
      var h := hs[|hs| - 1];
      GroupIds(init);
      GroupValues(init);
      var g0 := Group(init);
      AddHitProps(g0, h);
      if h.value !in Values(g0) {
        assert h.value !in HitValues(init);
        IdsOfAbsent(init, h.value);
      }
      var g := Group(hs);
      assert g == AddHit(g0, h);
      forall i | 0 <= i < |g|
        ensures g[i].ids == IdsOf(hs, g[i].value) && |g[i].ids| > 0 && g[i].color == Unpainted
      {
        var v := g[i].value;
        assert IdsOf(hs, v) == IdsOf(init, v) + (if h.value == v then [h.id] else []);
        if i < |g0| {
          assert Values(g)[i] == Values(g0)[i];
        } else {
          assert g[i] == ValueItem(h.value, [h.id], Unpainted);
        }
      }
    }
  }

  // ---------------------------------------------------------------- collecting

  /** A parameter of an element: its definition name and its state. */
  datatype NParam = NParam(name: string, p: RevitUtils.RParam)

  /** An element of a category: id, parameters, and its type's parameters when it has a type. */
  datatype CElement = CElement(id: int, params: seq<NParam>, typeParams: Option<seq<NParam>>)

  /** A selected category: whether it is a built-in category, and its elements in the view. */
  datatype SelCategory = SelCategory(hasBic: bool, elements: seq<CElement>)

  /** The chosen parameter: its name and whether it lives on the type. */
  datatype Chosen = Chosen(name: string, typeSide: bool)

  /** What reading one element gives: nothing, a hit, or an exception. */
  datatype Read = Skip | Got(hit: Hit) | Raised

  /** Index of the first parameter carrying `name`, or -1. */
  function FindName(ps: seq<NParam>, name: string): (r: int)
    ensures -1 <= r < |ps|
    ensures r >= 0 ==> ps[r].name == name && forall k :: 0 <= k < r ==> ps[k].name != name
    ensures r < 0 ==> forall k :: 0 <= k < |ps| ==> ps[k].name != name
  {
    if ps == [] then -1
    else if ps[0].name == name then 0
    else
      var k := FindName(ps[1..], name);
      if k < 0 then -1 else k + 1
  }

  /**
   * One element: the parameter host is the element or, for a type
   * parameter, its type (skipped when it has none); the first parameter of
   * the host with the chosen name is read (skipped when there is none).
   */
  function ElementRead(e: CElement, c: Chosen, version: int, names: map<int, string>, rawString: bool): (r: Read)
    ensures r.Got? ==> r.hit.id == e.id
    ensures r.Skip? <==> ((c.typeSide && e.typeParams.None?) ||
      FindName(if c.typeSide && e.typeParams.Some? then e.typeParams.value else e.params, c.name) < 0)
  {
    var host := if c.typeSide then e.typeParams else Some(e.params);
    match host
    case None => Skip
    case Some(ps) =>
      var k := FindName(ps, c.name);
      if k < 0 then Skip
      else match ParameterValue(ps[k].p, version, names, rawString)
        case None => Raised
        case Some(v) => Got(Hit(v, e.id))
  }

  /** The hits of a run of elements, or `None` once one read raises. */
  function ElementsHits(es: seq<CElement>, c: Chosen, version: int, names: map<int, string>, rawString: bool): Option<seq<Hit>>
  {
    if es == [] then Some([])
    else match ElementsHits(es[..|es| - 1], c, version, names, rawString)
      case None => None
      case Some(hs) =>
        match ElementRead(es[|es| - 1], c, version, names, rawString)
        case Skip => Some(hs)
        case Got(h) => Some(hs + [h])
        case Raised => None
  }

  /** Categories that are not built-in ones are passed over. */
  function CategoryHits(cat: SelCategory, c: Chosen, version: int, names: map<int, string>, rawString: bool): Option<seq<Hit>>
  {
    if cat.hasBic then ElementsHits(cat.elements, c, version, names, rawString) else Some([])
  }

  function AllHits(cats: seq<SelCategory>, c: Chosen, version: int, names: map<int, string>, rawString: bool): Option<seq<Hit>>
  {
    if cats == [] then Some([])
    else match AllHits(cats[..|cats| - 1], c, version, names, rawString)
      case None => None
      case Some(hs) =>
        match CategoryHits(cats[|cats| - 1], c, version, names, rawString)
        case None => None
        case Some(more) => Some(hs + more)
  }

  /** Every hit comes from an element of a selected built-in category whose chosen parameter was read. */
  lemma {:induction false} AllHitsFromElements(cats: seq<SelCategory>, c: Chosen, version: int, names: map<int, string>, rawString: bool)
    requires AllHits(cats, c, version, names, rawString).Some?
    ensures forall h :: h in AllHits(cats, c, version, names, rawString).value ==>
      exists i, j :: 0 <= i < |cats| && cats[i].hasBic && 0 <= j < |cats[i].elements| &&
        ElementRead(cats[i].elements[j], c, version, names, rawString) == Got(h)
  {
    if cats != [] {
      var init := cats[..|cats| - 1];
      var last := cats[|cats| - 1];
      AllHitsFromElements(init, c, version, names, rawString);
      if last.hasBic {
        ElementsHitsFrom(last.elements, c, version, names, rawString);
      }
      forall h | h in AllHits(cats, c, version, names, rawString).value
        ensures exists i, j :: (0 <= i < |cats| && cats[i].hasBic && 0 <= j < |cats[i].elements| &&
          ElementRead(cats[i].elements[j], c, version, names, rawString) == Got(h))
      {
        if h in AllHits(init, c, version, names, rawString).value {
          var i, j :| 0 <= i < |init| && init[i].hasBic && 0 <= j < |init[i].elements| &&
            ElementRead(init[i].elements[j], c, version, names, rawString) == Got(h);
          assert cats[i] == init[i];
        } else {
          var j :| 0 <= j < |last.elements| && ElementRead(last.elements[j], c, version, names, rawString) == Got(h);
          assert cats[|cats| - 1] == last;
        }
      }
    }
  }

  lemma {:induction false} ElementsHitsFrom(es: seq<CElement>, c: Chosen, version: int, names: map<int, string>, rawString: bool)
    requires ElementsHits(es, c, version, names, rawString).Some?
    ensures forall h :: h in ElementsHits(es, c, version, names, rawString).value ==>
      exists j :: 0 <= j < |es| && ElementRead(es[j], c, version, names, rawString) == Got(h)
  {
    if es != [] {
      var init := es[..|es| - 1];
      ElementsHitsFrom(init, c, version, names, rawString);
      forall h | h in ElementsHits(es, c, version, names, rawString).value
        ensures exists j :: 0 <= j < |es| && ElementRead(es[j], c, version, names, rawString) == Got(h)
      {
        if h in ElementsHits(init, c, version, names, rawString).value {
          var j :| 0 <= j < |init| && ElementRead(init[j], c, version, names, rawString) == Got(h);
          assert es[j] == init[j];
        } else {
          assert ElementRead(es[|es| - 1], c, version, names, rawString) == Got(h);
        }
      }
    }
  }

  /** The element loop of one category, grouping as it reads. */
  method CollectElements(values0: seq<ValueItem>, es: seq<CElement>, c: Chosen, version: int, names: map<int, string>, rawString: bool)
    returns (ok: bool, values: seq<ValueItem>)
    ensures ok <==> ElementsHits(es, c, version, names, rawString).Some?
    ensures ok ==> values == GroupInto(values0, ElementsHits(es, c, version, names, rawString).value)
  {
    values := values0;
    ghost var hs: seq<Hit> := [];
    for j := 0 to |es|
      invariant ElementsHits(es[..j], c, version, names, rawString) == Some(hs)
      invariant values == GroupInto(values0, hs)
    {
      assert es[..j + 1][..j] == es[..j];
      var read := ElementRead(es[j], c, version, names, rawString);
      match read {
        case Skip =>
        case Got(h) =>
          values := AddHit(values, h);
          assert (hs + [h])[..|hs|] == hs;
          hs := hs + [h];
        case Raised =>
          AbortStaysAborted(es, j, c, version, names, rawString);
          return false, values;
      }
    }
    assert es[..|es|] == es;
    ok := true;
  }

  /** Once a read raises, the whole run does. */
  lemma {:induction false} AbortStaysAborted(es: seq<CElement>, j: nat, c: Chosen, version: int, names: map<int, string>, rawString: bool)
    requires j < |es| && ElementRead(es[j], c, version, names, rawString) == Raised
    ensures ElementsHits(es, c, version, names, rawString).None?
  {
    if j < |es| - 1 {
      assert es[..|es| - 1][j] == es[j];
      AbortStaysAborted(es[..|es| - 1], j, c, version, names, rawString);
    }
  }

  lemma {:induction false} CategoryAbortStaysAborted(cats: seq<SelCategory>, i: nat, c: Chosen, version: int, names: map<int, string>, rawString: bool)
    requires i < |cats| && CategoryHits(cats[i], c, version, names, rawString).None?
    ensures AllHits(cats, c, version, names, rawString).None?
  {
    if i < |cats| - 1 {
      assert cats[..|cats| - 1][i] == cats[i];
      CategoryAbortStaysAborted(cats[..|cats| - 1], i, c, version, names, rawString);
    }
  }

  lemma {:induction false} AllHitsStep(cats: seq<SelCategory>, i: nat, c: Chosen, version: int, names: map<int, string>, rawString: bool)
    requires i < |cats|
    ensures AllHits(cats[..i + 1], c, version, names, rawString) ==
      match AllHits(cats[..i], c, version, names, rawString)
      case None => None
      case Some(hs) =>
        match CategoryHits(cats[i], c, version, names, rawString)
        case None => None
        case Some(more) => Some(hs + more)
  {
    assert cats[..i + 1][..i] == cats[..i];
  }

  /** The category and element loops of `get_parameter_values`, up to the sort. */
  method CollectValues(cats: seq<SelCategory>, c: Chosen, version: int, names: map<int, string>, rawString: bool)
    returns (ok: bool, values: seq<ValueItem>)
    ensures ok <==> AllHits(cats, c, version, names, rawString).Some?
    ensures ok ==> values == Group(AllHits(cats, c, version, names, rawString).value)
  {
    values := [];
    ghost var hs: seq<Hit> := [];
    for i := 0 to |cats|
      invariant AllHits(cats[..i], c, version, names, rawString) == Some(hs)
      invariant values == Group(hs)
    {
      AllHitsStep(cats, i, c, version, names, rawString);
      if cats[i].hasBic {
        var okCat, next := CollectElements(values, cats[i].elements, c, version, names, rawString);
        if !okCat {
          CategoryAbortStaysAborted(cats, i, c, version, names, rawString);
          return false, values;
        }
        ghost var more := ElementsHits(cats[i].elements, c, version, names, rawString).value;
        GroupIntoAppend([], hs, more);
        values := next;
        hs := hs + more;
      } else {
        assert hs + [] == hs;
      }
    }
    assert cats[..|cats|] == cats;
    ok := true;
  }

  // ---------------------------------------------------------------- arranging

  /** The grey every "None" row gets. */
  const Grey: Rgb := Rgb(192, 192, 192)

  predicate IsNone(x: ValueItem) { x.value == "None" }
  predicate NotNone(x: ValueItem) { x.value != "None" }

  /**
   * The rows in legend order: the rows other than "None" sorted by `le`,
   * then the "None" rows when one of them has elements.
   */
  function Ordered(items: seq<ValueItem>, le: (ValueItem, ValueItem) -> bool): seq<ValueItem>
  {
    var nones := Filter(items, IsNone);
    Sorting.Sort(Filter(items, NotNone), le) + (if HasIds(nones) then nones else [])
  }

  /** `any(len(x.ele_id) > 0 for x in none_values)` */
  predicate HasIds(items: seq<ValueItem>)
  {
    exists k :: 0 <= k < |items| && |items[k].ids| > 0
  }

  /** Palette colour by position; "None" rows grey. */
  function Paint(o: seq<ValueItem>, pal: seq<Rgb>): (r: seq<ValueItem>)
    requires |pal| >= |o|
    ensures |r| == |o|
  {
    seq(|o|, i requires 0 <= i < |o| => o[i].(color := if o[i].value == "None" then Grey else pal[i]))
  }

  /** The colour loop, and the loop that greys the "None" rows. */
  method PaintValues(o: seq<ValueItem>, pal: seq<Rgb>) returns (r: seq<ValueItem>)
    requires |pal| >= |o|
    ensures r == Paint(o, pal)
  {
    r := o;
    for i := 0 to |o|
      invariant |r| == |o|
      invariant forall k :: 0 <= k < i ==> r[k] == o[k].(color := pal[k])
      invariant forall k :: i <= k < |o| ==> r[k] == o[k]
    {
      r := r[i := o[i].(color := pal[i])];
    }
    for i := 0 to |o|
      invariant |r| == |o|
      invariant forall k :: 0 <= k < i ==> r[k] == Paint(o, pal)[k]
      invariant forall k :: i <= k < |o| ==> r[k] == o[k].(color := pal[k])
    {
      if r[i].value == "None" {
        r := r[i := r[i].(color := Grey)];
      }
    }
  }

  lemma {:induction false} FilterDistinct(s: seq<ValueItem>, p: ValueItem -> bool)
    requires DistinctValues(s)
    ensures DistinctValues(Filter(s, p))
  {
    if s != [] {
      FilterDistinct(s[1..], p);
      var t := Filter(s[1..], p);
      forall k | 0 <= k < |t| ensures t[k].value != s[0].value {
        assert t[k] in s[1..];
      }
    }
  }

  function Val(x: ValueItem): string { x.value }

  lemma DistinctValuesBy(s: seq<ValueItem>)
    ensures DistinctValues(s) <==> Sorting.DistinctBy(s, Val)
  {
  }

  lemma {:induction false} CountIfZero(t: seq<ValueItem>, p: ValueItem -> bool)
    requires forall k :: 0 <= k < |t| ==> !p(t[k])
    ensures CountIf(t, p) == 0
  {
    if t != [] {
      CountIfZero(t[1..], p);
    }
  }

  lemma {:induction false} AtMostOneNone(s: seq<ValueItem>)
    requires DistinctValues(s)
    ensures CountIf(s, IsNone) <= 1
  {
    if s != [] {
      AtMostOneNone(s[1..]);
      if IsNone(s[0]) {
        forall k | 0 <= k < |s[1..]| ensures !IsNone(s[1..][k]) {
          assert s[1..][k] == s[k + 1];
        }
        CountIfZero(s[1..], IsNone);
      }
    }
  }

  /** At most one row reads "None" among distinct rows, and it is kept. */
  lemma {:induction false} NonesProps(g: seq<ValueItem>, le: (ValueItem, ValueItem) -> bool)
    requires DistinctValues(g)
    requires forall i :: 0 <= i < |g| ==> |g[i].ids| > 0
    ensures |Filter(g, IsNone)| <= 1
    ensures Ordered(g, le) == Sorting.Sort(Filter(g, NotNone), le) + Filter(g, IsNone)
  {
    var nones := Filter(g, IsNone);
    FilterDistinct(g, IsNone);
    forall k | 0 <= k < |nones| ensures nones[k].value == "None" {
      assert nones[k] in nones;
    }
    FilterCount(g, IsNone);
    AtMostOneNone(g);
    if |nones| > 0 {
      assert nones[0] in nones;
      assert HasIds(nones);
    }
  }

  lemma {:induction false} OrderedMembers(g: seq<ValueItem>, le: (ValueItem, ValueItem) -> bool)
    requires DistinctValues(g)
    requires forall i :: 0 <= i < |g| ==> |g[i].ids| > 0
    ensures forall x :: x in Ordered(g, le) <==> x in g
  {
    NonesProps(g, le);
    var rest := Filter(g, NotNone);
    Sorting.SortElems(rest, le);
    forall x | x in g ensures x in Ordered(g, le) {
      if x.value == "None" {
        assert x in Filter(g, IsNone);
      } else {
        assert x in rest;
      }
    }
  }

  lemma {:induction false} OrderedDistinct(g: seq<ValueItem>, le: (ValueItem, ValueItem) -> bool)
    requires DistinctValues(g)
    requires forall i :: 0 <= i < |g| ==> |g[i].ids| > 0
    ensures DistinctValues(Ordered(g, le))
  {
    NonesProps(g, le);
    var rest := Filter(g, NotNone);
    var nones := Filter(g, IsNone);
    var sorted := Sorting.Sort(rest, le);
    Sorting.SortElems(rest, le);
    FilterDistinct(g, NotNone);
    DistinctValuesBy(rest);
    Sorting.SortDistinctBy(rest, le, Val);
    DistinctValuesBy(sorted);
    var o := sorted + nones;
    forall i, j | 0 <= i < j < |o| ensures o[i].value != o[j].value {
      if j >= |sorted| && i < |sorted| {
        assert sorted[i] in rest;
        assert o[j] in nones;
      }
    }
  }

  /** In legend order of distinct rows, "None" can only be last. */
  lemma {:induction false} OrderedNoneLast(g: seq<ValueItem>, le: (ValueItem, ValueItem) -> bool)
    requires DistinctValues(g)
    requires forall i :: 0 <= i < |g| ==> |g[i].ids| > 0
    ensures var o := Ordered(g, le);
      forall i :: 0 <= i < |o| && o[i].value == "None" ==> i == |o| - 1
  {
    NonesProps(g, le);
    var rest := Filter(g, NotNone);
    var sorted := Sorting.Sort(rest, le);
    Sorting.SortElems(rest, le);
    forall k | 0 <= k < |sorted| ensures sorted[k].value != "None" {
      assert sorted[k] in rest;
    }
  }

  /** In legend order, every row before a row other than "None" is `le` to it. */
  lemma {:induction false} OrderedSorted(g: seq<ValueItem>, le: (ValueItem, ValueItem) -> bool, vle: (string, string) -> bool)
    requires forall a, b :: le(a, b) == vle(a.value, b.value)
    requires Sorting.TotalPreorder(le)
    requires DistinctValues(g)
    requires forall i :: 0 <= i < |g| ==> |g[i].ids| > 0
    ensures var o := Ordered(g, le);
      forall i, j :: 0 <= i < j < |o| && o[j].value != "None" ==> vle(o[i].value, o[j].value)
  {
    NonesProps(g, le);
    var rest := Filter(g, NotNone);
    var nones := Filter(g, IsNone);
    var sorted := Sorting.Sort(rest, le);
    Sorting.SortSorted(rest, le);
    var o := sorted + nones;
    forall k | 0 <= k < |nones| ensures nones[k].value == "None" {
      assert nones[k] in nones;
    }
    forall i, j | 0 <= i < j < |o| && o[j].value != "None" ensures vle(o[i].value, o[j].value) {
      assert j < |sorted|;
      assert le(sorted[i], sorted[j]);
    }
  }

  /** Painting keeps every row's value and ids; it sets the colours only. */
  lemma {:induction false} PaintProps(o: seq<ValueItem>, pal: seq<Rgb>)
    requires |pal| >= |o|
    ensures var r := Paint(o, pal);
      Values(r) == Values(o) &&
      (DistinctValues(r) <==> DistinctValues(o)) &&
      forall i :: 0 <= i < |r| ==>
        r[i].value == o[i].value && r[i].ids == o[i].ids &&
        r[i].color == if o[i].value == "None" then Grey else pal[i]
  {
  }

  /**
   * The rows of the legend `get_parameter_values` returns are exactly the
   * distinct values read, each with the ids of the elements reading it.
   */
  lemma {:induction false} ArrangedRows(hs: seq<Hit>, le: (ValueItem, ValueItem) -> bool,
                                        vle: (string, string) -> bool, pal: seq<Rgb>)
    requires forall a, b :: le(a, b) == vle(a.value, b.value)
    requires Sorting.TotalPreorder(le)
    requires |pal| >= |Ordered(Group(hs), le)|
    ensures var r := Paint(Ordered(Group(hs), le), pal);
      (forall v :: v in Values(r) <==> v in HitValues(hs)) &&
      DistinctValues(r) &&
      (forall i :: 0 <= i < |r| ==> r[i].ids == IdsOf(hs, r[i].value))
  {
    var g := Group(hs);
    GroupValues(hs);
    GroupIds(hs);
    OrderedMembers(g, le);
    OrderedDistinct(g, le);
    var o := Ordered(g, le);
    PaintProps(o, pal);
    forall v ensures v in Values(o) <==> v in Values(g) {
      if v in Values(g) {
        var k :| 0 <= k < |g| && Values(g)[k] == v;
        assert g[k] in o;
      }
      if v in Values(o) {
        var k :| 0 <= k < |o| && Values(o)[k] == v;
        assert o[k] in g;
      }
    }
    forall i | 0 <= i < |o| ensures o[i].ids == IdsOf(hs, o[i].value) {
      assert o[i] in g;
    }
  }

  /**
   * The order and colours of that legend: rows other than "None" in `le`
   * order with the palette colour of their position; "None" last and grey.
   */
  lemma {:induction false} ArrangedOrder(hs: seq<Hit>, le: (ValueItem, ValueItem) -> bool,
                                         vle: (string, string) -> bool, pal: seq<Rgb>)
    requires forall a, b :: le(a, b) == vle(a.value, b.value)
    requires Sorting.TotalPreorder(le)
    requires |pal| >= |Ordered(Group(hs), le)|
    ensures var r := Paint(Ordered(Group(hs), le), pal);
      (forall i :: 0 <= i < |r| ==> r[i].color == if r[i].value == "None" then Grey else pal[i]) &&
      (forall i :: 0 <= i < |r| && r[i].value == "None" ==> i == |r| - 1) &&
      (forall i, j :: 0 <= i < j < |r| && r[j].value != "None" ==> vle(r[i].value, r[j].value))
  {
    GroupValues(hs);
    GroupIds(hs);
    OrderedNoneLast(Group(hs), le);
    OrderedSorted(Group(hs), le, vle);
    PaintProps(Ordered(Group(hs), le), pal);
  }

  // ---------------------------------------------------------------- the numeric sort key

  /** A sort key of `extract_number`: a number, or infinity. */
  datatype NumKey = Finite(x: real) | Infinite

  predicate KeyLe(a: NumKey, b: NumKey)
  {
    match (a, b)
    case (Finite(x), Finite(y)) => x <= y
    case (_, Infinite) => true
    case (Infinite, Finite(_)) => false
  }

  predicate NumChar(c: char) { IsDigit(c) || c == '.' || c == '-' }

  function Pow10(n: nat): (r: nat)
    ensures r >= 1
  {
    if n == 0 then 1 else 10 * Pow10(n - 1)
  }

  /**
   * `float()` of a string made of digits, '.' and '-': an optional leading
   * '-', then digits with at most one '.', and at least one digit.
   */
  function ParseDecimal(s: string): (r: Option<real>)
  {
    if |s| > 0 && s[0] == '-' then
      match ParseUnsigned(s[1..])
      case None => None
      case Some(x) => Some(-x)
    else ParseUnsigned(s)
  }

  /** Python's `float()` of a text: white space around, an optional sign, digits with at most one '.'. */
  function ParseFloat(s: string): (r: Option<real>)
  {
    var t := Strip(s);
    if |t| > 0 && (t[0] == '-' || t[0] == '+') then
      match ParseUnsigned(t[1..])
      case None => None
      case Some(x) => Some(if t[0] == '-' then -x else x)
    else ParseUnsigned(t)
  }

  function ParseUnsigned(s: string): (r: Option<real>)
    ensures r.Some? ==> r.value >= 0.0
  {
    var parts := Split(s, '.');
    if |parts| > 2 then None
    else
      var ip := parts[0];
      var fp := if |parts| == 2 then parts[1] else "";
      if AllDigits(ip) && AllDigits(fp) && |ip| + |fp| > 0 then
        Some(ParseDigits(ip) as real + ParseDigits(fp) as real / Pow10(|fp|) as real)
      else None
  }

  /**
   * `extract_number`: the characters of the value that are digits, '.' or
   * '-', read as a number; infinity when none are left or they do not make one.
   */
  function ExtractNumber(value: string): NumKey
  {
    var num := Filter(value, NumChar);
    if num == [] then Infinite
    else match ParseDecimal(num)
      case None => Infinite
      case Some(x) => Finite(x)
  }

  /** The sort of `get_parameter_values`: by `extract_number` of the value. */
  const NumberLe: (string, string) -> bool := (a: string, b: string) => KeyLe(ExtractNumber(a), ExtractNumber(b))

  const ItemLe: (ValueItem, ValueItem) -> bool :=
    (a: ValueItem, b: ValueItem) => KeyLe(ExtractNumber(a.value), ExtractNumber(b.value))

  lemma ItemLeProps()
    ensures Sorting.TotalPreorder(ItemLe)
    ensures forall a, b :: ItemLe(a, b) == NumberLe(a.value, b.value)
  {
  }

  /** A measure such as "136 m" with a unit free of digits, '.' and '-' sorts by its number. */
  lemma {:induction false} ExtractMeasure(n: nat, unit: string)
    requires forall i :: 0 <= i < |unit| ==> !NumChar(unit[i])
    ensures ExtractNumber(NatToString(n) + " " + unit) == Finite(n as real)
  {
    var d := NatToString(n);
    MeasureDigits(d, unit);
    ParseNatural(n);
  }

  lemma {:induction false} MeasureDigits(d: string, unit: string)
    requires AllDigits(d)
    requires forall i :: 0 <= i < |unit| ==> !NumChar(unit[i])
    ensures Filter(d + " " + unit, NumChar) == d
  {
    var tail := " " + unit;
    forall i | 0 <= i < |tail| ensures !NumChar(tail[i]) {
      if i > 0 {
        assert tail[i] == unit[i - 1];
      }
    }
    FilterNone(tail, NumChar);
    forall i | 0 <= i < |d| ensures NumChar(d[i]) {
      assert IsDigit(d[i]);
    }
    FilterAll(d, NumChar);
    FilterAppend(d, tail, NumChar);
    assert d + " " + unit == d + tail;
  }

  lemma {:induction false} ParseNatural(n: nat)
    ensures ParseDecimal(NatToString(n)) == Some(n as real)
  {
    ParseUnsignedNatural(n);
    assert IsDigit(NatToString(n)[0]);
  }

  /** `float(str(i))` is `i`: a printed integer reads back as that number. */
  lemma ParseFloatInt(i: int)
    ensures ParseFloat(IntToString(i)) == Some(i as real)
  {
    var t := IntToString(i);
    if i < 0 {
      var n: nat := -i;
      assert t == "-" + NatToString(n);
      ParseFloatNegative(n);
      assert ParseFloat(t) == Some(-(n as real));
    } else {
      assert t == NatToString(i);
      ParseFloatNatural(i);
    }
  }

  lemma ParseFloatNatural(n: nat)
    ensures ParseFloat(NatToString(n)) == Some(n as real)
  {
    var t := NatToString(n);
    StripUnchanged(t, IsSpace);
    assert IsDigit(t[0]);
    ParseUnsignedNatural(n);
  }

  lemma ParseFloatNegative(n: nat)
    ensures ParseFloat("-" + NatToString(n)) == Some(-(n as real))
  {
    var t := "-" + NatToString(n);
    StripUnchanged(t, IsSpace);
    assert t[1..] == NatToString(n);
    ParseUnsignedNatural(n);
  }

  /** Digits alone, without sign or point, read as the natural number they print. */
  lemma {:induction false} ParseUnsignedNatural(n: nat)
    ensures ParseUnsigned(NatToString(n)) == Some(n as real)
  {
    var d := NatToString(n);
    assert '.' !in d by {
      forall i | 0 <= i < |d| ensures d[i] != '.' {
        assert IsDigit(d[i]);
      }
    }
    assert Split(d, '.') == [d];
    assert AllDigits("");
    ParseNatToString(n);
  }

  lemma {:induction false} FilterNone(s: string, p: char -> bool)
    requires forall i :: 0 <= i < |s| ==> !p(s[i])
    ensures Filter(s, p) == []
  {
    if s != [] {
      FilterNone(s[1..], p);
    }
  }

  lemma {:induction false} FilterAll(s: string, p: char -> bool)
    requires forall i :: 0 <= i < |s| ==> p(s[i])
    ensures Filter(s, p) == s
  {
    if s != [] {
      FilterAll(s[1..], p);
      assert s == [s[0]] + s[1..];
    }
  }
}
