/**
 * The MMI colorizer: the official colour per MMI level, the lookup of the
 * closest lower level, and the colorizer state kept in the user
 * configuration (active flag, coloured view id, coloured element ids).
 */
module MmiColorizer {
  import opened Common
  import opened Strs

  /** One MMI level: its value, colour and display name. */
  datatype ColorRange = ColorRange(value: int, color: Rgb, name: string)

  /** The official MMI colour codes, ascending by level. */
  const MmiColorRanges: seq<ColorRange> := [
    ColorRange(0, Rgb(215, 50, 150), "000 - Tidligfase"),
    ColorRange(100, Rgb(190, 40, 35), "100 - Grunnlagsinformasjon"),
    ColorRange(125, Rgb(210, 75, 70), "125 - Etablert konsept"),
    ColorRange(150, Rgb(225, 120, 115), "150 - Tverrfaglig kontrollert konsept"),
    ColorRange(175, Rgb(240, 170, 170), "175 - Valgt konsept"),
    ColorRange(200, Rgb(230, 150, 55), "200 - Ferdig konsept"),
    ColorRange(225, Rgb(235, 175, 100), "225 - Etablert prinsipielle l\U{F8}sninger"),
    ColorRange(250, Rgb(240, 200, 140), "250 - Tverrfaglig kontrollert prinsipielle l\U{F8}sninger"),
    ColorRange(275, Rgb(245, 230, 215), "275 - Valgt prinsipielle l\U{F8}sninger"),
    ColorRange(300, Rgb(250, 240, 80), "300 - Underlag for detaljering"),
    ColorRange(325, Rgb(215, 205, 65), "325 - Etablert detaljerte l\U{F8}sninger"),
    ColorRange(350, Rgb(185, 175, 60), "350 - Tverrfaglig kontrollert detaljerte l\U{F8}sninger"),
    ColorRange(375, Rgb(150, 150, 50), "375 - Detaljerte l\U{F8}sninger (anbud/bestilling)"),
    ColorRange(400, Rgb(55, 130, 70), "400 - Arbeidsgrunnlag"),
    ColorRange(425, Rgb(75, 170, 90), "425 - Etablert/utf\U{F8}rt"),
    ColorRange(450, Rgb(100, 195, 125), "450 - Kontrollert utf\U{F8}relse"),
    ColorRange(475, Rgb(155, 215, 165), "475 - Godkjent utf\U{F6}relse"),
    ColorRange(500, Rgb(30, 70, 175), "500 - Som bygget"),
    ColorRange(600, Rgb(175, 50, 205), "600 - I drift")
  ]

  const Gray := Rgb(128, 128, 128)

  predicate StrictlyAscending(rs: seq<ColorRange>)
  {
    forall i, j :: 0 <= i < j < |rs| ==> rs[i].value < rs[j].value
  }

  lemma TableAscending()
    ensures |MmiColorRanges| == 19 && MmiColorRanges[0].value == 0
    ensures StrictlyAscending(MmiColorRanges)
  {
    var rs := MmiColorRanges;
    forall i, j | 0 <= i < j < |rs| ensures rs[i].value < rs[j].value {
      AdjacentAscending(rs, i, j);
    }
  }

  /** Strict ascent of neighbours carries over to any pair. */
  lemma {:induction false} AdjacentAscending(rs: seq<ColorRange>, i: nat, j: nat)
    requires rs == MmiColorRanges && i < j < |rs|
    ensures rs[i].value < rs[j].value
    decreases j - i
  {
    if j > i + 1 {
      AdjacentAscending(rs, i + 1, j);
    }
  }

  /**
   * The scan of `get_color_for_mmi`: the last range seen so far whose value
   * is at most `v`, stopping at the first one above `v`.
   */
  function Scan(rs: seq<ColorRange>, v: int, closest: Option<ColorRange>): (r: Option<ColorRange>)
  {
    if rs == [] || rs[0].value > v then closest else Scan(rs[1..], v, Some(rs[0]))
  }

  /** On an ascending table, the scan finds the greatest level not above `v`. */
  lemma {:induction false} ScanFloor(rs: seq<ColorRange>, v: int, closest: Option<ColorRange>)
    requires StrictlyAscending(rs)
    ensures Scan(rs, v, closest).None? <==> closest.None? && (rs == [] || rs[0].value > v)
    ensures Scan(rs, v, closest).Some? && (rs != [] && rs[0].value <= v) ==>
      Scan(rs, v, closest).value in rs && Scan(rs, v, closest).value.value <= v &&
      forall k :: 0 <= k < |rs| && rs[k].value <= v ==> rs[k].value <= Scan(rs, v, closest).value.value
    ensures rs == [] || rs[0].value > v ==> Scan(rs, v, closest) == closest
  {
    if rs != [] && rs[0].value <= v {
      var t := rs[1..];
      ScanFloor(t, v, Some(rs[0]));
      var r := Scan(t, v, Some(rs[0]));
      if t == [] || t[0].value > v {
        assert forall k :: 0 <= k < |rs| && rs[k].value <= v ==> rs[k].value <= r.value.value;
      } else {
        assert r.value in t;
        forall k | 0 <= k < |rs| && rs[k].value <= v ensures rs[k].value <= r.value.value {
          if k > 0 { assert rs[k] == t[k - 1]; } else { assert rs[0].value < t[0].value; }
        }
      }
    }
  }

  /** `get_color_for_mmi` over a colour table `rs`. */
  function ColorFor(rs: seq<ColorRange>, v: int): (r: (Rgb, string))
  {
    match Scan(rs, v, None)
    case Some(c) => (c.color, c.name)
    case None => if rs != [] then (rs[0].color, rs[0].name) else (Gray, "Unknown")
  }

  /**
   * On an ascending table, the colour is that of the greatest level not
   * above `v`; below every level it is the first one; with no table, gray.
   */
  lemma ColorForFloor(rs: seq<ColorRange>, v: int, k: nat)
    requires StrictlyAscending(rs) && k < |rs|
    requires rs[k].value <= v && (k + 1 < |rs| ==> v < rs[k + 1].value)
    ensures ColorFor(rs, v) == (rs[k].color, rs[k].name)
  {
    ScanFloor(rs, v, None);
  }

  lemma ColorForBelow(rs: seq<ColorRange>, v: int)
    requires StrictlyAscending(rs)
    ensures rs == [] ==> ColorFor(rs, v) == (Gray, "Unknown")
    ensures rs != [] && v < rs[0].value ==> ColorFor(rs, v) == (rs[0].color, rs[0].name)
  {
    ScanFloor(rs, v, None);
  }

  /** The scan loop of `get_color_for_mmi`. */
  method ScanRanges(rs: seq<ColorRange>, v: int) returns (closest: Option<ColorRange>)
    ensures closest == Scan(rs, v, None)
  {
    closest := None;
    var i := 0;
    while i < |rs|
      invariant 0 <= i <= |rs|
      invariant Scan(rs[i..], v, closest) == Scan(rs, v, None)
    {
      if rs[i].value <= v {
        assert rs[i..][1..] == rs[i + 1..];
        closest := Some(rs[i]);
      } else {
        break;
      }
      i := i + 1;
    }
  }

  /** `get_color_for_mmi`: the colour and name for an MMI value. */
  method GetColorForMmi(v: int) returns (color: Rgb, name: string)
    ensures (color, name) == ColorFor(MmiColorRanges, v)
  {
    var closest := ScanRanges(MmiColorRanges, v);
    if closest.Some? {
      return closest.value.color, closest.value.name;
    }
    if MmiColorRanges != [] {
      return MmiColorRanges[0].color, MmiColorRanges[0].name;
    }
    return Gray, "Unknown";
  }

  /** The examples given for the lookup: 140 takes 125's colour and 360 takes 350's. */
  lemma ColorExamples()
    ensures ColorFor(MmiColorRanges, 140).1 == MmiColorRanges[2].name && MmiColorRanges[2].value == 125
    ensures ColorFor(MmiColorRanges, 360).1 == MmiColorRanges[11].name && MmiColorRanges[11].value == 350
    ensures ColorFor(MmiColorRanges, -5) == (MmiColorRanges[0].color, MmiColorRanges[0].name)
    ensures ColorFor(MmiColorRanges, 1000).1 == MmiColorRanges[18].name
  {
    TableAscending();
    ColorForFloor(MmiColorRanges, 140, 2);
    ColorForFloor(MmiColorRanges, 360, 11);
    ColorForBelow(MmiColorRanges, -5);
    ColorForFloor(MmiColorRanges, 1000, 18);
  }

  // ---------------------------------------------------------------- id lists

  /**
   * The blank-free parts of a comma-separated list, each parsed as an int;
   * None as soon as one does not parse.
   */
  function ParseParts(parts: seq<string>): (r: Option<seq<int>>)
  {
    if parts == [] then Some([])
    else if IsBlank(parts[0]) then ParseParts(parts[1..])
    else match ParseInt(parts[0])
      case None => None
      case Some(i) =>
        match ParseParts(parts[1..])
        case None => None
        case Some(t) => Some([i] + t)
  }

  /** The id list stored as text: [] for an empty text or any part that does not parse. */
  function IdsFromText(text: string): (r: seq<int>)
    ensures text == [] ==> r == []
  {
    if text == [] then []
    else match ParseParts(Split(text, ','))
      case Some(ids) => ids
      case None => []
  }

  /** The text `set_colored_element_ids` stores: the ids joined by ",". */
  function IdsToText(ids: seq<int>): (r: string)
  {
    Join(IdsStrings(ids), ",")
  }

  function IdsStrings(ids: seq<int>): (r: seq<string>)
    ensures |r| == |ids| && forall k :: 0 <= k < |ids| ==> r[k] == IntToString(ids[k])
  {
    if ids == [] then [] else [IntToString(ids[0])] + IdsStrings(ids[1..])
  }

  lemma NoCommaInInt(i: int)
    ensures ',' !in IntToString(i)
  {
    var s := IntToString(i);
    if i < 0 {
      assert s == "-" + NatToString(-i);
      assert forall k :: 1 <= k < |s| ==> s[k] == NatToString(-i)[k - 1];
    }
  }

  lemma {:induction false} ParsePartsInts(ids: seq<int>)
    ensures ParseParts(IdsStrings(ids)) == Some(ids)
  {
    if ids != [] {
      var ps := IdsStrings(ids);
      assert ps[1..] == IdsStrings(ids[1..]);
      IntRoundTrip(ids[0]);
      assert !IsBlank(ps[0]) by { assert !IsSpace(ps[0][0]); }
      ParsePartsInts(ids[1..]);
      assert [ids[0]] + ids[1..] == ids;
    }
  }

  /** Storing an id list and reading it back gives the same list. */
  lemma IdsRoundTrip(ids: seq<int>)
    ensures IdsFromText(IdsToText(ids)) == ids
  {
    if ids != [] {
      var ps := IdsStrings(ids);
      forall k | 0 <= k < |ps| ensures ',' !in ps[k] {
        NoCommaInInt(ids[k]);
      }
      SplitJoin(ps, ',');
      assert IdsToText(ids) != [] by {
        JoinNonEmpty(ps, ",");
      }
      ParsePartsInts(ids);
    }
  }

  lemma {:induction false} JoinNonEmpty(ps: seq<string>, sep: string)
    requires ps != [] && ps[0] != []
    ensures Join(ps, sep) != []
  {
  }

  /** Blank parts are skipped; a part that does not parse voids the whole list. */
  lemma ParsePartsRules(parts: seq<string>)
    ensures ParseParts(parts).Some? <==> forall k :: 0 <= k < |parts| && !IsBlank(parts[k]) ==> ParseInt(parts[k]).Some?
  {
    if parts != [] {
      ParsePartsRules(parts[1..]);
      assert forall k :: 1 <= k < |parts| ==> parts[k] == parts[1..][k - 1];
    }
  }

  // ---------------------------------------------------------------- state

  /**
   * The `MMIColorizer` section of the user configuration. A key that was
   * never written is None; the whole section may be absent.
   */
  class ColorizerConfig {
    var hasSection: bool
    var active: Option<bool>
    var viewId: Option<string>
    var elementIds: Option<string>

    constructor()
      ensures !hasSection && active.None? && viewId.None? && elementIds.None?
    {
      hasSection := false;
      active := None;
      viewId := None;
      elementIds := None;
    }

    /** `is_colorer_active`: False without a section or a stored flag. */
    function IsActive(): (r: bool)
      reads this
      ensures r <==> hasSection && active == Some(true)
    {
      hasSection && OrElse(active, false)
    }

    method SetActive(a: bool)
      modifies this
      ensures hasSection && active == Some(a)
      ensures viewId == old(viewId) && elementIds == old(elementIds)
      ensures IsActive() == a
    {
      hasSection := true;
      active := Some(a);
    }

    /** `get_colored_view_id`: None for no section, an empty text or a text that is not an int. */
    function GetColoredViewId(): (r: Option<int>)
      reads this
      ensures !hasSection || OrElse(viewId, "") == [] ==> r.None?
      ensures hasSection && OrElse(viewId, "") != [] ==> r == ParseInt(viewId.value)
    {
      if !hasSection then None
      else
        var text := OrElse(viewId, "");
        if text == [] then None else ParseInt(text)
    }

    method SetColoredViewId(id: int)
      modifies this
      ensures hasSection && viewId == Some(IntToString(id))
      ensures active == old(active) && elementIds == old(elementIds)
      ensures GetColoredViewId() == Some(id)
    {
      hasSection := true;
      viewId := Some(IntToString(id));
      IntRoundTrip(id);
    }

    /** `get_colored_element_ids`: [] without a section or stored text. */
    function GetColoredElementIds(): (r: seq<int>)
      reads this
      ensures !hasSection ==> r == []
      ensures hasSection ==> r == IdsFromText(OrElse(elementIds, ""))
    {
      if !hasSection then [] else IdsFromText(OrElse(elementIds, ""))
    }

    method SetColoredElementIds(ids: seq<int>)
      modifies this
      ensures hasSection && elementIds == Some(IdsToText(ids))
      ensures active == old(active) && viewId == old(viewId)
      ensures GetColoredElementIds() == ids
    {
      hasSection := true;
      elementIds := Some(IdsToText(ids));
      IdsRoundTrip(ids);
    }

    /** `clear_colorizer_state`: the invalid view id and an empty id list. */
    method ClearColorizerState()
      modifies this
      ensures hasSection && viewId == Some("-1") && elementIds == Some("")
      ensures active == old(active)
      ensures GetColoredViewId() == Some(InvalidId) && GetColoredElementIds() == []
    {
      SetColoredViewId(InvalidId);
      SetColoredElementIds([]);
      assert IntToString(-1) == "-1";
    }
  }
}
