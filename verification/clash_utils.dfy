/**
 * Clash utilities: the IFC GUID index over the host model and its linked
 * models, lookup of requested GUIDs, enrichment of clash records with Revit
 * data, and the highlighting rules (colours, section box, underlay).
 */
module ClashUtils {
  import opened Common

  /**
   * An element of the host or of a linked document; `levelId` is the element
   * id held by its SCHEDULE_LEVEL_PARAM when that parameter has a value.
   */
  datatype GElement = GElement(id: int, category: Option<string>, params: map<string, Param>, levelId: Option<int>)

  /** A RevitLinkInstance; `loaded` is false when it has no link document. */
  datatype Link = Link(id: int, loaded: bool, elements: seq<GElement>)

  /** `(element, is_linked, link_instance)`. */
  datatype Entry = Entry(element: GElement, isLinked: bool, link: Option<int>)

  /** The GUID parameter: IFCGuid, else IfcGUID, else IFC GUID (the first that exists). */
  function GuidParam(e: GElement): Option<Param>
  {
    if "IFCGuid" in e.params then Some(e.params["IFCGuid"])
    else if "IfcGUID" in e.params then Some(e.params["IfcGUID"])
    else Get(e.params, "IFC GUID")
  }

  /** The element's IFC GUID: a non-empty String value of its GUID parameter. */
  function GuidOf(e: GElement): (r: Option<string>)
    ensures r.Some? ==> r.value != []
  {
    match GuidParam(e)
    case None => None
    case Some(p) =>
      if p.hasValue && p.storage == StrStorage && p.value.StrVal? && p.value.s != [] then Some(p.value.s) else None
  }

  /**
   * The fallback names are consulted only when the earlier parameter does
   * not exist at all: an empty IFCGuid hides a filled IfcGUID.
   */
  lemma GuidNoFallback(e: GElement)
    requires "IFCGuid" in e.params && !e.params["IFCGuid"].hasValue
    ensures GuidOf(e) == None
  {
  }

  // ---------------------------------------------------------------- index

  /** The host loop: every host element with a GUID is stored, a later one replacing an earlier one. */
  function HostIndex(host: seq<GElement>): map<string, Entry>
  {
    if host == [] then map[]
    else
      var d := HostIndex(host[..|host| - 1]);
      var e := host[|host| - 1];
      match GuidOf(e)
      case None => d
      case Some(g) => d[g := Entry(e, false, None)]
  }

  /** The linked-element loop of one link: a GUID is added only if absent. */
  function AddElems(d: map<string, Entry>, lid: int, es: seq<GElement>): map<string, Entry>
  {
    if es == [] then d
    else
      var d' := AddElems(d, lid, es[..|es| - 1]);
      var e := es[|es| - 1];
      match GuidOf(e)
      case None => d'
      case Some(g) => if g in d' then d' else d'[g := Entry(e, true, Some(lid))]
  }

  function AddLinks(d: map<string, Entry>, links: seq<Link>): map<string, Entry>
  {
    if links == [] then d
    else
      var d' := AddLinks(d, links[..|links| - 1]);
      var l := links[|links| - 1];
      if l.loaded then AddElems(d', l.id, l.elements) else d'
  }

  /** `build_guid_lookup_dict`. */
  function Index(host: seq<GElement>, links: seq<Link>): map<string, Entry>
  {
    AddLinks(HostIndex(host), links)
  }

  predicate HasGuid(es: seq<GElement>, g: string)
  {
    exists e :: e in es && GuidOf(e) == Some(g)
  }

  /** Position of the last element carrying `g`, or -1. */
  function LastWith(es: seq<GElement>, g: string): (r: int)
    ensures -1 <= r < |es|
  {
    if es == [] then -1
    else if GuidOf(es[|es| - 1]) == Some(g) then |es| - 1
    else LastWith(es[..|es| - 1], g)
  }

  /** Position of the first element carrying `g`, or -1. */
  function FirstWith(es: seq<GElement>, g: string): (r: int)
    ensures -1 <= r < |es|
  {
    if es == [] then -1
    else
      var r := FirstWith(es[..|es| - 1], g);
      if r >= 0 then r else if GuidOf(es[|es| - 1]) == Some(g) then |es| - 1 else -1
  }

  lemma {:induction false} LastWithProps(es: seq<GElement>, g: string)
    ensures LastWith(es, g) >= 0 <==> HasGuid(es, g)
    ensures LastWith(es, g) >= 0 ==> GuidOf(es[LastWith(es, g)]) == Some(g)
    ensures forall j :: LastWith(es, g) < j < |es| ==> GuidOf(es[j]) != Some(g)
  {
    if es != [] {
      var init := es[..|es| - 1];
      LastWithProps(init, g);
      assert es == init + [es[|es| - 1]];
      if HasGuid(es, g) && GuidOf(es[|es| - 1]) != Some(g) {
        var x :| x in es && GuidOf(x) == Some(g);
        assert x in init;
      }
    }
  }

  lemma {:induction false} FirstWithProps(es: seq<GElement>, g: string)
    ensures FirstWith(es, g) >= 0 <==> HasGuid(es, g)
    ensures FirstWith(es, g) >= 0 ==> GuidOf(es[FirstWith(es, g)]) == Some(g)
    ensures forall j :: 0 <= j < |es| && (FirstWith(es, g) < 0 || j < FirstWith(es, g)) ==> GuidOf(es[j]) != Some(g)
  {
    if es != [] {
      var init := es[..|es| - 1];
      FirstWithProps(init, g);
      assert es == init + [es[|es| - 1]];
      if HasGuid(es, g) && GuidOf(es[|es| - 1]) != Some(g) {
        var x :| x in es && GuidOf(x) == Some(g);
        assert x in init;
      }
      forall j | 0 <= j < |init| ensures es[j] == init[j] { }
    }
  }

  /** The host elements are indexed with `is_linked` False, and the last one per GUID wins. */
  lemma {:induction false} HostIndexProps(host: seq<GElement>)
    ensures forall g :: g in HostIndex(host) <==> LastWith(host, g) >= 0
    ensures forall g :: g in HostIndex(host) ==> HostIndex(host)[g] == Entry(host[LastWith(host, g)], false, None)
  {
    if host != [] {
      HostIndexProps(host[..|host| - 1]);
    }
  }

  /**
   * Adding one link keeps every existing entry; a new GUID maps to the
   * first element of the link that carries it.
   */
  lemma {:induction false} AddElemsProps(d: map<string, Entry>, lid: int, es: seq<GElement>)
    ensures forall g :: g in AddElems(d, lid, es) <==> g in d || FirstWith(es, g) >= 0
    ensures forall g :: g in d ==> AddElems(d, lid, es)[g] == d[g]
    ensures forall g :: g !in d && FirstWith(es, g) >= 0 ==>
      AddElems(d, lid, es)[g] == Entry(es[FirstWith(es, g)], true, Some(lid))
  {
    if es != [] {
      var init := es[..|es| - 1];
      AddElemsProps(d, lid, init);
      forall g | g !in d && FirstWith(es, g) >= 0
        ensures AddElems(d, lid, es)[g] == Entry(es[FirstWith(es, g)], true, Some(lid))
      {
        if FirstWith(init, g) >= 0 { assert es[FirstWith(init, g)] == init[FirstWith(init, g)]; }
      }
    }
  }

  /** Position of the first loaded link carrying `g`, or -1. */
  function FirstLink(links: seq<Link>, g: string): (r: int)
    ensures -1 <= r < |links|
    ensures r >= 0 ==> links[r].loaded && FirstWith(links[r].elements, g) >= 0
  {
    if links == [] then -1
    else
      var r := FirstLink(links[..|links| - 1], g);
      if r >= 0 then r
      else
        var l := links[|links| - 1];
        if l.loaded && FirstWith(l.elements, g) >= 0 then |links| - 1 else -1
  }

  lemma {:induction false} FirstLinkProps(links: seq<Link>, g: string)
    ensures forall j :: 0 <= j < |links| && (FirstLink(links, g) < 0 || j < FirstLink(links, g)) && links[j].loaded ==>
      FirstWith(links[j].elements, g) < 0
  {
    if links != [] {
      var init := links[..|links| - 1];
      FirstLinkProps(init, g);
      forall j | 0 <= j < |init| ensures links[j] == init[j] { }
    }
  }

  /** The entry the first loaded link carrying `g` contributes. */
  function LinkEntry(links: seq<Link>, g: string): Entry
    requires FirstLink(links, g) >= 0
  {
    var l := links[FirstLink(links, g)];
    Entry(l.elements[FirstWith(l.elements, g)], true, Some(l.id))
  }

  /** The link loop: existing entries stay, and a new GUID comes from the first loaded link carrying it. */
  lemma {:induction false} AddLinksProps(d: map<string, Entry>, links: seq<Link>)
    ensures forall g :: g in AddLinks(d, links) <==> g in d || FirstLink(links, g) >= 0
    ensures forall g :: g in d ==> AddLinks(d, links)[g] == d[g]
    ensures forall g :: g !in d && FirstLink(links, g) >= 0 ==> AddLinks(d, links)[g] == LinkEntry(links, g)
  {
    if links != [] {
      var init := links[..|links| - 1];
      var l := links[|links| - 1];
      AddLinksProps(d, init);
      var d' := AddLinks(d, init);
      if l.loaded {
        AddElemsProps(d', l.id, l.elements);
      }
      forall g | g !in d && FirstLink(links, g) >= 0 ensures AddLinks(d, links)[g] == LinkEntry(links, g) {
        if FirstLink(init, g) >= 0 { assert links[FirstLink(init, g)] == init[FirstLink(init, g)]; }
      }
    }
  }

  /**
   * The index holds exactly the GUIDs found in the host or in a loaded
   * link; a GUID of the host maps to its LAST host element with
   * `is_linked` False, whatever the links hold; any other GUID maps to the
   * FIRST element carrying it in the FIRST loaded link that does, through
   * that link.
   */
  lemma IndexProps(host: seq<GElement>, links: seq<Link>)
    ensures forall g :: g in Index(host, links) <==> LastWith(host, g) >= 0 || FirstLink(links, g) >= 0
    ensures forall g :: LastWith(host, g) >= 0 ==>
      g in Index(host, links) && Index(host, links)[g] == Entry(host[LastWith(host, g)], false, None)
    ensures forall g :: LastWith(host, g) < 0 && FirstLink(links, g) >= 0 ==>
      g in Index(host, links) && Index(host, links)[g] == LinkEntry(links, g)
  {
    HostIndexProps(host);
    AddLinksProps(HostIndex(host), links);
  }

  /** Every entry of the index is keyed by its element's GUID, and is linked exactly when it names a link. */
  lemma IndexEntries(host: seq<GElement>, links: seq<Link>)
    ensures forall g :: g in Index(host, links) ==>
      GuidOf(Index(host, links)[g].element) == Some(g) &&
      (Index(host, links)[g].isLinked <==> Index(host, links)[g].link.Some?)
  {
    IndexProps(host, links);
    forall g | g in Index(host, links)
      ensures GuidOf(Index(host, links)[g].element) == Some(g)
    {
      LastWithProps(host, g);
      if LastWith(host, g) < 0 {
        FirstWithProps(links[FirstLink(links, g)].elements, g);
      }
    }
  }

  lemma HostIndexSnoc(host: seq<GElement>, i: int)
    requires 0 <= i < |host|
    ensures HostIndex(host[..i + 1]) ==
      match GuidOf(host[i]) case None => HostIndex(host[..i]) case Some(g) => HostIndex(host[..i])[g := Entry(host[i], false, None)]
  {
    assert host[..i + 1][..i] == host[..i];
  }

  lemma AddElemsSnoc(d: map<string, Entry>, lid: int, es: seq<GElement>, i: int)
    requires 0 <= i < |es|
    ensures AddElems(d, lid, es[..i + 1]) ==
      match GuidOf(es[i])
      case None => AddElems(d, lid, es[..i])
      case Some(g) => if g in AddElems(d, lid, es[..i]) then AddElems(d, lid, es[..i])
        else AddElems(d, lid, es[..i])[g := Entry(es[i], true, Some(lid))]
  {
    assert es[..i + 1][..i] == es[..i];
  }

  lemma AddLinksSnoc(d: map<string, Entry>, links: seq<Link>, i: int)
    requires 0 <= i < |links|
    ensures AddLinks(d, links[..i + 1]) ==
      if links[i].loaded then AddElems(AddLinks(d, links[..i]), links[i].id, links[i].elements) else AddLinks(d, links[..i])
  {
    assert links[..i + 1][..i] == links[..i];
  }

  /** The inner loop over one linked document. */
  method AddLinkElements(d: map<string, Entry>, lid: int, es: seq<GElement>) returns (r: map<string, Entry>)
    ensures r == AddElems(d, lid, es)
  {
    r := d;
    var i := 0;
    while i < |es|
      invariant 0 <= i <= |es|
      invariant r == AddElems(d, lid, es[..i])
    {
      AddElemsSnoc(d, lid, es, i);
      var g := GuidOf(es[i]);
      if g.Some? && g.value !in r {
        r := r[g.value := Entry(es[i], true, Some(lid))];
      }
      i := i + 1;
    }
    assert es[..i] == es;
  }

  /** `build_guid_lookup_dict`: the host loop, then the loop over the links. */
  method BuildGuidLookupDict(host: seq<GElement>, links: seq<Link>) returns (d: map<string, Entry>)
    ensures d == Index(host, links)
  {
    d := map[];
    var i := 0;
    while i < |host|
      invariant 0 <= i <= |host|
      invariant d == HostIndex(host[..i])
    {
      HostIndexSnoc(host, i);
      var g := GuidOf(host[i]);
      if g.Some? {
        d := d[g.value := Entry(host[i], false, None)];
      }
      i := i + 1;
    }
    assert host[..i] == host;
    var j := 0;
    while j < |links|
      invariant 0 <= j <= |links|
      invariant d == AddLinks(HostIndex(host), links[..j])
    {
      AddLinksSnoc(HostIndex(host), links, j);
      if links[j].loaded {
        d := AddLinkElements(d, links[j].id, links[j].elements);
      }
      j := j + 1;
    }
    assert links[..j] == links;
  }

  /** `find_elements_by_guids`: exactly the requested GUIDs present in the index. */
  method FindElementsByGuids(index: map<string, Entry>, guids: seq<string>) returns (found: map<string, Entry>)
    ensures forall g :: g in found <==> g in guids && g in index
    ensures forall g :: g in found ==> found[g] == index[g]
  {
    found := map[];
    var i := 0;
    while i < |guids|
      invariant 0 <= i <= |guids|
      invariant forall g :: g in found <==> g in guids[..i] && g in index
      invariant forall g :: g in found ==> found[g] == index[g]
    {
      assert guids[..i + 1] == guids[..i] + [guids[i]];
      if guids[i] in index {
        found := found[guids[i] := index[guids[i]]];
      }
      i := i + 1;
    }
    assert guids[..i] == guids;
  }

  // ---------------------------------------------------------------- enrich

  /** What enrichment stores for one side of a clash. */
  datatype SideInfo = SideInfo(category: string, level: string, isLinked: bool)

  /** A clash of the ifcclash format, with the fields this extension reads or writes. */
  datatype Clash = Clash(
    aGuid: Option<string>, bGuid: Option<string>,
    aIfc: Option<string>, bIfc: Option<string>,
    a: Option<SideInfo>, b: Option<SideInfo>)

  /**
   * `doc.GetElement(level_id).Name` in a document whose element names by id
   * are `names`; "Unknown" when the level parameter has no value or no
   * element has that id.
   */
  function LevelName(names: map<int, string>, levelId: Option<int>): (r: string)
    ensures levelId.Some? && levelId.value in names ==> r == names[levelId.value]
    ensures levelId.None? || levelId.value !in names ==> r == "Unknown"
  {
    if levelId.Some? && levelId.value in names then names[levelId.value] else "Unknown"
  }

  /** The category a found element reports: its own, else the IFC class, else "Unknown". */
  function CategoryOf(e: GElement, ifc: Option<string>): string
  {
    if e.category.Some? then e.category.value else OrElse(ifc, "Unknown")
  }

  /**
   * The metadata for one side: from the indexed element, else the IFC class
   * and "Not Found". The level id is looked up in `hostNames`, the active
   * document's elements, also for an element of a linked document.
   */
  function EnrichSide(index: map<string, Entry>, hostNames: map<int, string>, guid: Option<string>, ifc: Option<string>): SideInfo
  {
    if guid.Some? && guid.value in index then
      var en := index[guid.value];
      SideInfo(CategoryOf(en.element, ifc), LevelName(hostNames, en.element.levelId), en.isLinked)
    else SideInfo(OrElse(ifc, "Not Found"), "Not Found", true)
  }

  function Enrich(index: map<string, Entry>, hostNames: map<int, string>, c: Clash): (r: Clash)
    ensures r.aGuid == c.aGuid && r.bGuid == c.bGuid && r.aIfc == c.aIfc && r.bIfc == c.bIfc
    ensures r.a.Some? && r.b.Some?
  {
    c.(a := Some(EnrichSide(index, hostNames, c.aGuid, c.aIfc)), b := Some(EnrichSide(index, hostNames, c.bGuid, c.bIfc)))
  }

  /** Enriching twice is enriching once: only the GUID and IFC fields are read. */
  lemma EnrichIdempotent(index: map<string, Entry>, hostNames: map<int, string>, c: Clash)
    ensures Enrich(index, hostNames, Enrich(index, hostNames, c)) == Enrich(index, hostNames, c)
  {
  }

  /**
   * A side whose GUID belongs to a host element is reported as not linked,
   * with the category and level of the last host element carrying the GUID;
   * otherwise a side found in a loaded link is reported as linked, with the
   * category and level of the element the first such link contributes; a
   * GUID nobody carries is reported "Not Found" and linked.
   */
  lemma EnrichAgainstIndex(host: seq<GElement>, hostNames: map<int, string>, links: seq<Link>, g: string, ifc: Option<string>)
    ensures LastWith(host, g) >= 0 ==>
      var e := host[LastWith(host, g)];
      EnrichSide(Index(host, links), hostNames, Some(g), ifc) == SideInfo(CategoryOf(e, ifc), LevelName(hostNames, e.levelId), false)
    ensures LastWith(host, g) < 0 && FirstLink(links, g) >= 0 ==>
      var e := LinkEntry(links, g).element;
      EnrichSide(Index(host, links), hostNames, Some(g), ifc) == SideInfo(CategoryOf(e, ifc), LevelName(hostNames, e.levelId), true)
    ensures LastWith(host, g) < 0 && FirstLink(links, g) < 0 ==>
      EnrichSide(Index(host, links), hostNames, Some(g), ifc) == SideInfo(OrElse(ifc, "Not Found"), "Not Found", true)
  {
    IndexProps(host, links);
  }

  /**
   * Enrichment as evidently meant: the level id of an element of a linked
   * document is looked up among that document's elements (`linkNames`,
   * keyed by link instance id), not among the host's.
   */
  function EnrichSideIntended(index: map<string, Entry>, hostNames: map<int, string>,
                              linkNames: map<int, map<int, string>>, guid: Option<string>, ifc: Option<string>): SideInfo
  {
    if guid.Some? && guid.value in index then
      var en := index[guid.value];
      var names := if en.link.Some? && en.link.value in linkNames then linkNames[en.link.value] else hostNames;
      SideInfo(CategoryOf(en.element, ifc), LevelName(names, en.element.levelId), en.isLinked)
    else SideInfo(OrElse(ifc, "Not Found"), "Not Found", true)
  }

  /**
   * As written, a linked element's level is the name its level id has in the
   * host document: whenever that differs from the name in the link's own
   * document, the reported level is not the element's level.
   */
  lemma LinkedLevelFromHost(host: seq<GElement>, hostNames: map<int, string>, linkNames: map<int, map<int, string>>,
                            links: seq<Link>, g: string, ifc: Option<string>)
    requires LastWith(host, g) < 0 && FirstLink(links, g) >= 0
    requires links[FirstLink(links, g)].id in linkNames
    requires LevelName(hostNames, LinkEntry(links, g).element.levelId) !=
             LevelName(linkNames[links[FirstLink(links, g)].id], LinkEntry(links, g).element.levelId)
    ensures EnrichSide(Index(host, links), hostNames, Some(g), ifc).level !=
            LevelName(linkNames[links[FirstLink(links, g)].id], LinkEntry(links, g).element.levelId)
    ensures EnrichSide(Index(host, links), hostNames, Some(g), ifc).level !=
            EnrichSideIntended(Index(host, links), hostNames, linkNames, Some(g), ifc).level
  {
    EnrichAgainstIndex(host, hostNames, links, g, ifc);
    IndexProps(host, links);
  }

  /**
   * The intended enrichment differs only in the level of a linked element:
   * a host element's level still comes from the host, and a linked
   * element's from its own link document.
   */
  lemma IntendedLevelFromOwnDocument(host: seq<GElement>, hostNames: map<int, string>, linkNames: map<int, map<int, string>>,
                                     links: seq<Link>, g: string, ifc: Option<string>)
    ensures LastWith(host, g) >= 0 ==>
      EnrichSideIntended(Index(host, links), hostNames, linkNames, Some(g), ifc) == EnrichSide(Index(host, links), hostNames, Some(g), ifc)
    ensures LastWith(host, g) < 0 && FirstLink(links, g) >= 0 && links[FirstLink(links, g)].id in linkNames ==>
      var e := LinkEntry(links, g).element;
      EnrichSideIntended(Index(host, links), hostNames, linkNames, Some(g), ifc) ==
        SideInfo(CategoryOf(e, ifc), LevelName(linkNames[links[FirstLink(links, g)].id], e.levelId), true)
    ensures FirstLink(links, g) < 0 ==>
      EnrichSideIntended(Index(host, links), hostNames, linkNames, Some(g), ifc) == EnrichSide(Index(host, links), hostNames, Some(g), ifc)
  {
    IndexProps(host, links);
  }

  /** A clash dict; `data` is reassigned when the dict is updated in place. */
  class ClashRecord {
    var data: Clash

    constructor(c: Clash)
      ensures data == c
    {
      data := c;
    }
  }

  /** The two input forms: a list of clashes or a dict keyed by clash id. */
  datatype ClashResults = ListForm(items: seq<ClashRecord>) | DictForm(entries: seq<(string, ClashRecord)>)

  function Records(cr: ClashResults): seq<ClashRecord>
  {
    match cr
    case ListForm(items) => items
    case DictForm(entries) => seq(|entries|, k requires 0 <= k < |entries| => entries[k].1)
  }

  /**
   * `enrich_clash_data_with_revit_info`: the same list or dict comes back
   * (same keys, same clash objects), and every clash object has been
   * updated in place with the metadata of both sides; `hostNames` are the
   * active document's element names, in which every level id is resolved.
   */
  method EnrichClashData(index: map<string, Entry>, hostNames: map<int, string>, cr: ClashResults) returns (r: ClashResults)
    modifies set k | 0 <= k < |Records(cr)| :: Records(cr)[k]
    ensures r == cr
    ensures forall k :: 0 <= k < |Records(cr)| ==> Records(cr)[k].data == Enrich(index, hostNames, old(Records(cr)[k].data))
  {
    var rs := Records(cr);
    var i := 0;
    while i < |rs|
      invariant 0 <= i <= |rs|
      invariant forall k :: 0 <= k < |rs| ==>
        rs[k].data == if rs[k] in rs[..i] then Enrich(index, hostNames, old(rs[k].data)) else old(rs[k].data)
    {
      var rec := rs[i];
      EnrichIdempotent(index, hostNames, old(rec.data));
      rec.data := Enrich(index, hostNames, rec.data);
      assert rs[..i + 1] == rs[..i] + [rec];
      i := i + 1;
    }
    assert rs[..i] == rs;
    r := cr;
  }

  // ---------------------------------------------------------------- highlight

  const Green := Rgb(0, 200, 0)
  const Red := Rgb(255, 0, 0)

  /** The override: linked elements through their link instance in red, host elements in green. */
  function Override(e: Entry): (int, Rgb)
  {
    if e.isLinked && e.link.Some? then (e.link.value, Red) else (e.element.id, if e.isLinked then Red else Green)
  }

  /**
   * For entries of the index, a linked element is always overridden
   * through its link instance in red and a host element by its own id in
   * green.
   */
  lemma OverrideRule(host: seq<GElement>, links: seq<Link>, g: string)
    ensures LastWith(host, g) >= 0 ==>
      g in Index(host, links) && Override(Index(host, links)[g]) == (host[LastWith(host, g)].id, Green)
    ensures LastWith(host, g) < 0 && FirstLink(links, g) >= 0 ==>
      g in Index(host, links) && Override(Index(host, links)[g]) == (links[FirstLink(links, g)].id, Red)
  {
    IndexProps(host, links);
  }

  datatype Pt = Pt(x: real, y: real, z: real)
  datatype Box = Box(lo: Pt, hi: Pt)

  function Min(a: real, b: real): real { if a <= b then a else b }
  function Max(a: real, b: real): real { if a >= b then a else b }

  predicate PtLe(p: Pt, q: Pt) { p.x <= q.x && p.y <= q.y && p.z <= q.z }

  /** `b` lies inside `outer`. */
  predicate Within(b: Box, outer: Box) { PtLe(outer.lo, b.lo) && PtLe(b.hi, outer.hi) }

  /** Component-wise minimum of the lows and maximum of the highs. */
  function Union(bs: seq<Box>): Box
    requires bs != []
  {
    if |bs| == 1 then bs[0]
    else
      var u := Union(bs[1..]);
      Box(Pt(Min(bs[0].lo.x, u.lo.x), Min(bs[0].lo.y, u.lo.y), Min(bs[0].lo.z, u.lo.z)),
          Pt(Max(bs[0].hi.x, u.hi.x), Max(bs[0].hi.y, u.hi.y), Max(bs[0].hi.z, u.hi.z)))
  }

  /** The union contains every box. */
  lemma {:induction false} UnionProps(bs: seq<Box>)
    requires bs != []
    ensures forall k :: 0 <= k < |bs| ==> Within(bs[k], Union(bs))
  {
    if |bs| > 1 {
      UnionProps(bs[1..]);
      forall k | 1 <= k < |bs| ensures Within(bs[k], Union(bs)) {
        assert bs[k] == bs[1..][k - 1];
      }
    }
  }

  /** 10% of the extent added on each side of each axis. */
  function Pad(b: Box): Box
  {
    var px := (b.hi.x - b.lo.x) * 0.1;
    var py := (b.hi.y - b.lo.y) * 0.1;
    var pz := (b.hi.z - b.lo.z) * 0.1;
    Box(Pt(b.lo.x - px, b.lo.y - py, b.lo.z - pz), Pt(b.hi.x + px, b.hi.y + py, b.hi.z + pz))
  }

  predicate Proper(b: Box) { PtLe(b.lo, b.hi) }

  /** The padded section box contains every element box, when the boxes are proper. */
  lemma SectionBoxContains(bs: seq<Box>)
    requires bs != []
    requires forall k :: 0 <= k < |bs| ==> Proper(bs[k])
    ensures forall k :: 0 <= k < |bs| ==> Within(bs[k], Pad(Union(bs)))
  {
    UnionProps(bs);
    var u := Union(bs);
    assert Proper(u) by {
      assert Within(bs[0], u);
    }
    forall k | 0 <= k < |bs| ensures Within(bs[k], Pad(u)) {
      assert Within(bs[k], u);
    }
  }

  /** The boxes collected while highlighting, in iteration order. */
  function Boxes(entries: seq<Entry>, boxOf: Entry -> Option<Box>): seq<Box>
  {
    if entries == [] then []
    else
      var last := match boxOf(entries[|entries| - 1]) case None => [] case Some(b) => [b];
      Boxes(entries[..|entries| - 1], boxOf) + last
  }

  lemma BoxesSnoc(entries: seq<Entry>, boxOf: Entry -> Option<Box>, i: int)
    requires 0 <= i < |entries|
    ensures Boxes(entries[..i + 1], boxOf) ==
      Boxes(entries[..i], boxOf) + (match boxOf(entries[i]) case None => [] case Some(b) => [b])
  {
    assert entries[..i + 1][..i] == entries[..i];
  }

  /**
   * `highlight_clash_elements`: one override per entry and, when any
   * bounding box was found, the padded union of the boxes as section box.
   */
  method HighlightClashElements(entries: seq<Entry>, boxOf: Entry -> Option<Box>)
    returns (overrides: seq<(int, Rgb)>, section: Option<Box>)
    ensures |overrides| == |entries|
    ensures forall k :: 0 <= k < |entries| ==> overrides[k] == Override(entries[k])
    ensures section.Some? <==> Boxes(entries, boxOf) != []
    ensures section.Some? ==> section.value == Pad(Union(Boxes(entries, boxOf)))
  {
    overrides := [];
    var all: seq<Box> := [];
    var i := 0;
    while i < |entries|
      invariant 0 <= i <= |entries|
      invariant |overrides| == i && forall k :: 0 <= k < i ==> overrides[k] == Override(entries[k])
      invariant all == Boxes(entries[..i], boxOf)
    {
      BoxesSnoc(entries, boxOf, i);
      overrides := overrides + [Override(entries[i])];
      var b := boxOf(entries[i]);
      if b.Some? {
        all := all + [b.value];
      }
      i := i + 1;
    }
    assert entries[..i] == entries;
    if all != [] {
      section := Some(Pad(Union(all)));
    } else {
      section := None;
    }
  }

  /** The link instances that hold a clash element. */
  function Involved(entries: seq<Entry>): set<int>
  {
    set k | 0 <= k < |entries| && entries[k].isLinked && entries[k].link.Some? :: entries[k].link.value
  }

  /** `set_other_models_as_underlay`: halftones exactly the links no clash element comes from. */
  method SetOtherModelsAsUnderlay(entries: seq<Entry>, allLinks: seq<int>) returns (halftoned: seq<int>)
    ensures forall l :: l in halftoned <==> l in allLinks && l !in Involved(entries)
    ensures |halftoned| <= |allLinks|
  {
    var involved: set<int> := {};
    var i := 0;
    while i < |entries|
      invariant 0 <= i <= |entries|
      invariant involved == Involved(entries[..i])
    {
      assert forall k :: 0 <= k < i ==> entries[..i + 1][k] == entries[..i][k];
      if entries[i].isLinked && entries[i].link.Some? {
        involved := involved + {entries[i].link.value};
      }
      assert entries[..i + 1][i] == entries[i];
      i := i + 1;
    }
    assert entries[..i] == entries;
    halftoned := [];
    var j := 0;
    while j < |allLinks|
      invariant 0 <= j <= |allLinks|
      invariant forall l :: l in halftoned <==> l in allLinks[..j] && l !in involved
      invariant |halftoned| <= j
    {
      assert allLinks[..j + 1] == allLinks[..j] + [allLinks[j]];
      if allLinks[j] !in involved {
        halftoned := halftoned + [allLinks[j]];
      }
      j := j + 1;
    }
    assert allLinks[..j] == allLinks;
  }
}
