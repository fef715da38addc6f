/**
 * The older StreamBIM importer window: log in, list the projects, list a
 * checklist's properties, and write a chosen property of each checklist
 * item into a Revit parameter of every element whose IFC GUID matches.
 */
module StreamBimImporter {
  import opened Common
  import opened Strs
  import opened Checklists
  import RevitUtils

  // ---------------------------------------------------------------- projects

  /** A project id as the service sends it: a number, a text, or missing. */
  datatype RawId = IntId(i: int) | TextId(s: string) | NoId

  /** A project record of the service, with the keys it may lack. */
  datatype RawProject = RawProject(id: RawId, name: Option<string>, description: Option<string>)

  /** The `Project` record the list view shows. */
  datatype Project = Project(id: string, name: string, description: string)

  /** `str(project.get('id'))`. */
  function IdText(id: RawId): string
  {
    match id
    case IntId(i) => IntToString(i)
    case TextId(s) => s
    case NoId => "None"
  }

  /** The record built from a project: its id printed, its name or "Unknown", its description or "". */
  function ProjectOf(r: RawProject): Project
  {
    Project(IdText(r.id), OrElse(r.name, "Unknown"), OrElse(r.description, ""))
  }

  /** A numeric id reads back as the same number; missing names and descriptions take their defaults. */
  lemma ProjectOfProps(r: RawProject)
    ensures r.id.IntId? ==> ParseInt(ProjectOf(r).id) == Some(r.id.i)
    ensures r.id.TextId? ==> ProjectOf(r).id == r.id.s
    ensures r.name.None? ==> ProjectOf(r).name == "Unknown"
    ensures r.name.Some? ==> ProjectOf(r).name == r.name.value
    ensures r.description.None? ==> ProjectOf(r).description == ""
    ensures r.description.Some? ==> ProjectOf(r).description == r.description.value
  {
    if r.id.IntId? {
      IntRoundTrip(r.id.i);
    }
  }

  // ---------------------------------------------------------------- one element

  /** `ifc_guid_param.AsString()`: the text of a string parameter with a value, else nothing (""). */
  function GuidText(p: Param): string
  {
    if p.storage == StrStorage && p.hasValue then RevitUtils.AsString(p.value) else ""
  }

  /**
   * `set_parameter_value`: the element with the parameter set, or None when
   * the parameter is missing, read-only, of a storage that takes no value,
   * or the value does not convert.
   */
  function SetParameterValue(e: Element, param: string, value: string): (r: Option<Element>)
    ensures r.Some? <==>
      (LookupParameter(e, param).Some? && !LookupParameter(e, param).value.readOnly &&
       Convert(LookupParameter(e, param).value.storage, value).Converted?)
    ensures r.Some? ==>
      (r.value.id == e.id && |r.value.params| == |e.params| &&
       LookupParameter(r.value, param) ==
         Some(LookupParameter(e, param).value.(hasValue := true, value := Convert(LookupParameter(e, param).value.storage, value).v)))
  {
    match LookupParameter(e, param)
    case None => None
    case Some(p) =>
      if p.readOnly then None
      else match Convert(p.storage, value)
        case Converted(v) => Some(SetParam(e, param, v))
        case _ => None
  }

  /** The element after the import, when it was updated. */
  function ImportElement(e: Element, index: map<string, Item>, prop: string, param: string): Option<Element>
  {
    match GuidParam(e)
    case None => None
    case Some(gp) =>
      var g := GuidText(gp);
      if g == "" || g !in index then None
      else match Lookup(index[g].fields, prop)
        case None => None
        case Some(v) => SetParameterValue(e, param, v)
  }

  /**
   * An element is updated exactly when it has a GUID parameter whose text
   * names an item carrying the property, and the chosen parameter is there,
   * writable, and takes the value (an empty value too); only that parameter
   * changes.
   */
  lemma ImportElementProps(e: Element, index: map<string, Item>, prop: string, param: string)
    ensures var r := ImportElement(e, index, prop, param);
      r.Some? <==>
      (GuidParam(e).Some? && GuidText(GuidParam(e).value) != "" && GuidText(GuidParam(e).value) in index &&
       Lookup(index[GuidText(GuidParam(e).value)].fields, prop).Some? &&
       LookupParameter(e, param).Some? && !LookupParameter(e, param).value.readOnly &&
       Convert(LookupParameter(e, param).value.storage,
               Lookup(index[GuidText(GuidParam(e).value)].fields, prop).value).Converted?)
    ensures var r := ImportElement(e, index, prop, param);
      r.Some? ==>
      (r.value.id == e.id && LookupParameter(r.value, param).Some? &&
       LookupParameter(r.value, param).value.value ==
         Convert(LookupParameter(e, param).value.storage, Lookup(index[GuidText(GuidParam(e).value)].fields, prop).value).v &&
       forall n :: n != param ==> LookupParameter(r.value, n) == LookupParameter(e, n))
  {
  }

  // ---------------------------------------------------------------- the import loop

  /** The import of one element, as a function of the element. */
  function ImportBy(index: map<string, Item>, prop: string, param: string): Element -> Option<Element>
  {
    (e: Element) => ImportElement(e, index, prop, param)
  }

  /** Each element replaced by its update, when there is one. */
  function Updated<T>(s: seq<T>, f: T -> Option<T>): (r: seq<T>)
    ensures |r| == |s|
  {
    seq(|s|, k requires 0 <= k < |s| => OrElse(f(s[k]), s[k]))
  }

  /** Whether `f` gives an update for `x`. */
  function Updates<T>(f: T -> Option<T>): T -> bool
  {
    (x: T) => f(x).Some?
  }

  /** Every element after the import. */
  function Imported(es: seq<Element>, index: map<string, Item>, prop: string, param: string): (r: seq<Element>)
    ensures |r| == |es|
  {
    Updated(es, ImportBy(index, prop, param))
  }

  /** The number of elements updated. */
  function UpdatedCount(es: seq<Element>, index: map<string, Item>, prop: string, param: string): nat
  {
    CountIf(es, Updates(ImportBy(index, prop, param)))
  }

  /** `updated` never exceeds `processed`, and is zero exactly when no element changed. */
  lemma UpdatedCountProps(es: seq<Element>, index: map<string, Item>, prop: string, param: string)
    ensures UpdatedCount(es, index, prop, param) <= |es|
    ensures UpdatedCount(es, index, prop, param) == 0 <==>
      forall k :: 0 <= k < |es| ==> ImportElement(es[k], index, prop, param).None?
  {
    CountIfZeroIff(es, Updates(ImportBy(index, prop, param)));
  }

  /** The loop over the elements: each one is processed, and counted as updated when it was written. */
  method ImportElements(es: seq<Element>, index: map<string, Item>, prop: string, param: string)
    returns (es': seq<Element>, processed: nat, updated: nat)
    ensures es' == Imported(es, index, prop, param)
    ensures processed == |es| && updated == UpdatedCount(es, index, prop, param)
  {
    es', processed, updated := ProcessAll(es, ImportBy(index, prop, param));
  }

  /** The loop body for each element: process it, and write and count it when it has an update. */
  method ProcessAll<T>(s: seq<T>, f: T -> Option<T>) returns (s': seq<T>, processed: nat, updated: nat)
    ensures s' == Updated(s, f)
    ensures processed == |s| && updated == CountIf(s, Updates(f))
  {
    s', processed, updated := s, 0, 0;
    for k := 0 to |s|
      invariant |s'| == |s| && processed == k
      invariant forall j :: 0 <= j < k ==> s'[j] == OrElse(f(s[j]), s[j])
      invariant forall j :: k <= j < |s| ==> s'[j] == s[j]
      invariant updated == CountIf(s[..k], Updates(f))
    {
      CountIfSnoc(s[..k], s[k], Updates(f));
      assert s[..k + 1] == s[..k] + [s[k]];
      processed := processed + 1;
      var r := f(s[k]);
      if r.Some? {
        s' := s'[k := r.value];
        updated := updated + 1;
      }
    }
    assert s[..|s|] == s;
  }

  // ---------------------------------------------------------------- the window

  class StreamBimWindow {
    var loginEnabled: bool
    var baseUrl: string
    /** The projects list and whether its tab is open. */
    var projects: seq<Project>
    var projectTabEnabled: bool
    /** The selected checklist's items and the property list built from them. */
    var checklistItems: seq<Item>
    var properties: seq<PropertyValue>
    var propertyIndex: int

    constructor ()
      ensures loginEnabled && projects == [] && !projectTabEnabled
      ensures checklistItems == [] && properties == [] && propertyIndex == -1
    {
      loginEnabled, baseUrl, projects, projectTabEnabled := true, "", [], false;
      checklistItems, properties, propertyIndex := [], [], -1;
    }

    /**
     * `login_button_click`: without a user name and a password nothing is
     * attempted; otherwise the client logs in, a successful login with
     * projects refills the list and opens its tab, and the button is enabled
     * again.
     */
    method LoginButtonClick(username: string, password: string, serverUrl: string,
                            loginOk: bool, fetched: seq<RawProject>) returns (attempted: bool)
      modifies this`loginEnabled, this`baseUrl, this`projects, this`projectTabEnabled
      ensures attempted == (username != "" && password != "")
      ensures !attempted ==> (loginEnabled == old(loginEnabled) && baseUrl == old(baseUrl) &&
        projects == old(projects) && projectTabEnabled == old(projectTabEnabled))
      ensures attempted ==> loginEnabled && baseUrl == serverUrl
      ensures attempted && loginOk && fetched != [] ==>
        (projectTabEnabled && |projects| == |fetched| && forall i :: 0 <= i < |fetched| ==> projects[i] == ProjectOf(fetched[i]))
      ensures attempted && !(loginOk && fetched != []) ==>
        (projects == old(projects) && projectTabEnabled == old(projectTabEnabled))
    {
      if username == "" || password == "" {
        return false;
      }
      attempted := true;
      loginEnabled := false;
      baseUrl := serverUrl;
      if loginOk && fetched != [] {
        var ps: seq<Project> := [];
        for i := 0 to |fetched|
          invariant |ps| == i && forall j :: 0 <= j < i ==> ps[j] == ProjectOf(fetched[j])
        {
          ps := ps + [ProjectOf(fetched[i])];
        }
        projects := ps;
        projectTabEnabled := true;
      }
      loginEnabled := true;
    }

    /** `extract_available_properties`: nothing happens without items; otherwise the list is rebuilt and its first entry selected. */
    method ExtractAvailableProperties()
      modifies this`properties, this`propertyIndex
      ensures checklistItems == [] ==> properties == old(properties) && propertyIndex == old(propertyIndex)
      ensures checklistItems != [] ==> properties == Properties(checklistItems)
      ensures checklistItems != [] ==> propertyIndex == if properties != [] then 0 else -1
    {
      if checklistItems == [] {
        return;
      }
      properties := ExtractProperties(checklistItems);
      propertyIndex := if properties != [] then 0 else -1;
    }

    /**
     * `import_button_click`: needs a property and a parameter; builds the
     * GUID-to-item dictionary from the items, then processes every element.
     */
    method ImportButtonClick(prop: Option<string>, param: Option<string>, elements: seq<Element>)
      returns (es': seq<Element>, processed: nat, updated: nat)
      ensures !(prop.Some? && prop.value != "" && param.Some? && param.value != "") ==>
        (es' == elements && processed == 0 && updated == 0)
      ensures prop.Some? && prop.value != "" && param.Some? && param.value != "" ==>
        (es' == Imported(elements, ItemIndex(checklistItems), prop.value, param.value) &&
         processed == |elements| && updated == UpdatedCount(elements, ItemIndex(checklistItems), prop.value, param.value))
    {
      es', processed, updated := elements, 0, 0;
      if prop.None? || prop.value == "" || param.None? || param.value == "" {
        return;
      }
      var index, order := BuildItemIndex(checklistItems);
      es', processed, updated := ImportElements(elements, index, prop.value, param.value);
    }
  }
}
