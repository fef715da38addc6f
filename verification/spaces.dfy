/**
 * Shared MEP space tagging: the tag-type and view list entries, the view
 * search, the plan-view list, the views that already hold space tags, and
 * tagging the untagged spaces of one view.
 */
module Spaces {
  import opened Common
  import opened Strs
  import Sorting
  import StrOrder

  // ---------------------------------------------------------------- tag types

  /**
   * A space tag family symbol: its id, its name, its family's name when it
   * has a family, and the text of its type-name parameter when it has one
   * ("" when that parameter holds nothing).
   */
  datatype Symbol = Symbol(id: int, name: string, family: Option<string>, typeNameParam: Option<string>)

  /** `TagTypeItem`: one entry of the tag type list. */
  datatype TagTypeItem = TagTypeItem(elementId: int, familyName: string, typeName: string, displayName: string)

  /**
   * The entry of a symbol: shown as "<family>: <type>", the family falling
   * back to "Unknown" and the type to the symbol's name when the type-name
   * parameter is missing or empty.
   */
  function TagTypeItemOf(s: Symbol): (t: TagTypeItem)
    ensures t.elementId == s.id
    ensures s.family.Some? ==> t.familyName == s.family.value
    ensures s.family.None? ==> t.familyName == "Unknown"
    ensures s.typeNameParam.Some? && s.typeNameParam.value != "" ==> t.typeName == s.typeNameParam.value
    ensures s.typeNameParam.None? || s.typeNameParam.value == "" ==> t.typeName == s.name
    ensures IsPrefix(t.familyName + ": ", t.displayName)
    ensures t.displayName[|t.familyName| + 2..] == t.typeName
  {
    var family := if s.family.Some? then s.family.value else "Unknown";
    var typeName := if s.typeNameParam.Some? && s.typeNameParam.value != "" then s.typeNameParam.value else s.name;
    var display := family + ": " + typeName;
    assert display[..|family| + 2] == family + ": ";
    TagTypeItem(s.id, family, typeName, display)
  }

  /** Order by display name. */
  const ByDisplay: (TagTypeItem, TagTypeItem) -> bool :=
    (a: TagTypeItem, b: TagTypeItem) => StrLe(a.displayName, b.displayName)

  /** Order by view name. */
  const ByViewName: (ViewItem, ViewItem) -> bool :=
    (a: ViewItem, b: ViewItem) => StrLe(a.viewName, b.viewName)

  lemma OrdersTotal()
    ensures Sorting.TotalPreorder(ByDisplay) && Sorting.TotalPreorder(ByViewName)
  {
    StrOrder.LeTotalPreorder();
    forall a: TagTypeItem, b: TagTypeItem ensures ByDisplay(a, b) || ByDisplay(b, a) {
      assert StrOrder.Le(a.displayName, b.displayName) || StrOrder.Le(b.displayName, a.displayName);
    }
    forall a: TagTypeItem, b: TagTypeItem, c: TagTypeItem | ByDisplay(a, b) && ByDisplay(b, c) ensures ByDisplay(a, c) {
      assert StrOrder.Le(a.displayName, b.displayName) && StrOrder.Le(b.displayName, c.displayName);
    }
    forall a: ViewItem, b: ViewItem ensures ByViewName(a, b) || ByViewName(b, a) {
      assert StrOrder.Le(a.viewName, b.viewName) || StrOrder.Le(b.viewName, a.viewName);
    }
    forall a: ViewItem, b: ViewItem, c: ViewItem | ByViewName(a, b) && ByViewName(b, c) ensures ByViewName(a, c) {
      assert StrOrder.Le(a.viewName, b.viewName) && StrOrder.Le(b.viewName, c.viewName);
    }
  }

  /** The entries of the symbols, in collector order. */
  function TagTypeItems(symbols: seq<Symbol>): (r: seq<TagTypeItem>)
    ensures |r| == |symbols| && forall i :: 0 <= i < |symbols| ==> r[i] == TagTypeItemOf(symbols[i])
  {
    seq(|symbols|, i requires 0 <= i < |symbols| => TagTypeItemOf(symbols[i]))
  }

  /** `get_space_tag_types`: the entries sorted by display name. */
  function SpaceTagTypes(symbols: seq<Symbol>): seq<TagTypeItem>
  {
    Sorting.Sort(TagTypeItems(symbols), ByDisplay)
  }

  /** The list is in display-name order and holds exactly one entry per symbol. */
  lemma SpaceTagTypesProps(symbols: seq<Symbol>)
    ensures Sorting.Sorted(SpaceTagTypes(symbols), ByDisplay)
    ensures multiset(SpaceTagTypes(symbols)) == multiset(TagTypeItems(symbols))
    ensures forall t :: t in SpaceTagTypes(symbols) <==> exists i :: 0 <= i < |symbols| && t == TagTypeItemOf(symbols[i])
  {
    OrdersTotal();
    Sorting.SortSorted(TagTypeItems(symbols), ByDisplay);
    Sorting.SortElems(TagTypeItems(symbols), ByDisplay);
  }

  /** The collector loop, then the sort. */
  method GetSpaceTagTypes(symbols: seq<Symbol>) returns (tagTypes: seq<TagTypeItem>)
    ensures tagTypes == SpaceTagTypes(symbols)
  {
    tagTypes := [];
    for i := 0 to |symbols|
      invariant tagTypes == TagTypeItems(symbols[..i])
    {
      tagTypes := tagTypes + [TagTypeItemOf(symbols[i])];
    }
    assert symbols[..|symbols|] == symbols;
    tagTypes := Sorting.Sort(tagTypes, ByDisplay);
  }

  // ---------------------------------------------------------------- views

  datatype ViewKind = FloorPlan | CeilingPlan | OtherKind(text: string)

  /**
   * A view: its template and primary view ids when they are valid, its phase
   * parameter (missing, or holding a valid phase id or not), and the name of
   * its associated level when it has one.
   */
  datatype View = View(id: int, name: string, kind: ViewKind, isTemplate: bool,
                       templateId: Option<int>, primaryViewId: Option<int>,
                       phaseParam: Option<Option<int>>, genLevel: Option<string>)

  /** `ViewItem`: one row of the view grid. */
  datatype ViewItem = ViewItem(viewId: int, viewName: string, viewType: string,
                               viewTemplate: string, viewPhase: string, levelName: string)

  function KindText(k: ViewKind): string
  {
    match k
    case FloorPlan => "Floor Plan"
    case CeilingPlan => "Ceiling Plan"
    case OtherKind(t) => t
  }

  /** The name of the element `id` names in the document, if there is one. */
  function NameOf(names: map<int, string>, id: Option<int>, fallback: string): string
  {
    if id.Some? && id.value in names then names[id.value] else fallback
  }

  /**
   * The row of a view: the view type's text, the template's name or
   * "None", the phase's name or "?", and the level's name or "?".
   */
  function ViewItemOf(v: View, names: map<int, string>): (r: ViewItem)
    ensures r.viewId == v.id && r.viewName == v.name
    ensures v.kind.FloorPlan? ==> r.viewType == "Floor Plan"
    ensures v.kind.CeilingPlan? ==> r.viewType == "Ceiling Plan"
    ensures v.kind.OtherKind? ==> r.viewType == v.kind.text
    ensures v.templateId.None? ==> r.viewTemplate == "None"
    ensures v.templateId.Some? && v.templateId.value in names ==> r.viewTemplate == names[v.templateId.value]
    ensures v.templateId.Some? && v.templateId.value !in names ==> r.viewTemplate == "None"
    ensures v.phaseParam.None? || v.phaseParam.value.None? ==> r.viewPhase == "?"
    ensures v.phaseParam.Some? && v.phaseParam.value.Some? && v.phaseParam.value.value in names ==>
      r.viewPhase == names[v.phaseParam.value.value]
    ensures v.phaseParam.Some? && v.phaseParam.value.Some? && v.phaseParam.value.value !in names ==> r.viewPhase == "?"
    ensures v.genLevel.None? ==> r.levelName == "?"
    ensures v.genLevel.Some? ==> r.levelName == v.genLevel.value
  {
    ViewItem(v.id, v.name, KindText(v.kind),
             NameOf(names, v.templateId, "None"),
             NameOf(names, if v.phaseParam.Some? then v.phaseParam.value else None, "?"),
             OrElse(v.genLevel, "?"))
  }

  /** `matches_search`: empty text matches; otherwise any of the five texts contains it, ignoring case. */
  predicate MatchesSearch(item: ViewItem, text: string)
  {
    text == "" ||
    ContainsCI(item.viewName, text) || ContainsCI(item.viewType, text) || ContainsCI(item.viewTemplate, text) ||
    ContainsCI(item.viewPhase, text) || ContainsCI(item.levelName, text)
  }

  /**
   * A row matches its own name, and a row that matches some text matches
   * every part of that text: narrowing the search only ever removes rows.
   */
  lemma MatchesSearchProps(item: ViewItem, text: string, part: string)
    ensures MatchesSearch(item, item.viewName)
    ensures MatchesSearch(item, text) && Contains(text, part) ==> MatchesSearch(item, part)
  {
    ContainsSelf(Lower(item.viewName));
    if MatchesSearch(item, text) && Contains(text, part) && part != "" && text != "" {
      if ContainsCI(item.viewName, text) {
        ContainsCINarrow(item.viewName, text, part);
      } else if ContainsCI(item.viewType, text) {
        ContainsCINarrow(item.viewType, text, part);
      } else if ContainsCI(item.viewTemplate, text) {
        ContainsCINarrow(item.viewTemplate, text, part);
      } else if ContainsCI(item.viewPhase, text) {
        ContainsCINarrow(item.viewPhase, text, part);
      } else {
        ContainsCINarrow(item.levelName, text, part);
      }
    }
  }

  /** A view the plan list shows: not a template, a floor or ceiling plan, and not dependent. */
  predicate IsPlanView(v: View)
  {
    !v.isTemplate && (v.kind.FloorPlan? || v.kind.CeilingPlan?) && v.primaryViewId.None?
  }

  /** The rows of the plan views, in collector order. */
  function PlanRows(views: seq<View>, names: map<int, string>): (r: seq<ViewItem>)
    ensures forall x :: x in r <==> exists i :: 0 <= i < |views| && IsPlanView(views[i]) && x == ViewItemOf(views[i], names)
  {
    if views == [] then []
    else
      var init := PlanRows(views[..|views| - 1], names);
      var v := views[|views| - 1];
      assert forall i :: 0 <= i < |views| - 1 ==> views[..|views| - 1][i] == views[i];
      if IsPlanView(v) then init + [ViewItemOf(v, names)] else init
  }

  /** `get_plan_views`: the plan rows sorted by view name. */
  function PlanViews(views: seq<View>, names: map<int, string>): seq<ViewItem>
  {
    Sorting.Sort(PlanRows(views, names), ByViewName)
  }

  /**
   * The plan list is in name order, and a row is in it exactly when it is
   * the row of a plan view: templates, other view types and dependent views
   * never appear, and every row shows "Floor Plan" or "Ceiling Plan".
   */
  lemma PlanViewsProps(views: seq<View>, names: map<int, string>)
    ensures Sorting.Sorted(PlanViews(views, names), ByViewName)
    ensures multiset(PlanViews(views, names)) == multiset(PlanRows(views, names))
    ensures forall x :: x in PlanViews(views, names) <==>
      exists i :: 0 <= i < |views| && IsPlanView(views[i]) && x == ViewItemOf(views[i], names)
    ensures forall x :: x in PlanViews(views, names) ==> x.viewType == "Floor Plan" || x.viewType == "Ceiling Plan"
  {
    OrdersTotal();
    Sorting.SortSorted(PlanRows(views, names), ByViewName);
    Sorting.SortElems(PlanRows(views, names), ByViewName);
  }

  /** The collector loop with its three skips, then the sort. */
  method GetPlanViews(views: seq<View>, names: map<int, string>) returns (items: seq<ViewItem>)
    ensures items == PlanViews(views, names)
  {
    items := [];
    for i := 0 to |views|
      invariant items == PlanRows(views[..i], names)
    {
      assert views[..i + 1][..i] == views[..i];
      var v := views[i];
      if v.isTemplate {
        continue;
      }
      if !(v.kind.FloorPlan? || v.kind.CeilingPlan?) {
        continue;
      }
      if v.primaryViewId.Some? {
        continue;
      }
      items := items + [ViewItemOf(v, names)];
    }
    assert views[..|views|] == views;
    items := Sorting.Sort(items, ByViewName);
  }

  /**
   * `get_views_with_space_tags`: the owner views of the tags (None for an
   * invalid owner) that are plan views.
   */
  method GetViewsWithSpaceTags(owners: seq<Option<int>>, views: seq<View>, names: map<int, string>)
    returns (withTags: set<int>)
    ensures forall id :: id in withTags <==>
      (Some(id) in owners && exists v :: v in views && IsPlanView(v) && v.id == id)
  {
    var plan := GetPlanViews(views, names);
    PlanViewsProps(views, names);
    var valid: set<int> := {};
    for i := 0 to |plan|
      invariant forall id :: id in valid <==> exists j :: 0 <= j < i && plan[j].viewId == id
    {
      valid := valid + {plan[i].viewId};
    }
    forall id ensures id in valid <==> exists v :: v in views && IsPlanView(v) && v.id == id {
      if id in valid {
        var j :| 0 <= j < |plan| && plan[j].viewId == id;
        assert plan[j] in plan;
        var k :| 0 <= k < |views| && IsPlanView(views[k]) && plan[j] == ViewItemOf(views[k], names);
        assert views[k] in views;
      }
      if exists v :: v in views && IsPlanView(v) && v.id == id {
        var v :| v in views && IsPlanView(v) && v.id == id;
        var k :| 0 <= k < |views| && views[k] == v;
        assert ViewItemOf(v, names) in plan;
        var j :| 0 <= j < |plan| && plan[j] == ViewItemOf(v, names);
      }
    }
    withTags := {};
    for i := 0 to |owners|
      invariant forall id :: id in withTags <==> id in valid && Some(id) in owners[..i]
    {
      assert owners[..i + 1] == owners[..i] + [owners[i]];
      if owners[i].Some? && owners[i].value in valid {
        withTags := withTags + {owners[i].value};
      }
    }
    assert owners[..|owners|] == owners;
  }

  // ---------------------------------------------------------------- tagging

  datatype Xy = Xy(x: real, y: real)

  /** A space of the view: its area, its location point when it has one, and its bounding box in the view when it has one. */
  datatype Space = Space(id: int, area: real, point: Option<Xy>, box: Option<(Xy, Xy)>)

  /** An existing tag of the view: the space it tags, or else the element it tags locally (valid ids only). */
  datatype ExistingTag = ExistingTag(space: Option<int>, taggedLocal: Option<int>)

  /** A tag created on a space at a point, switched to the chosen tag type when one is given. */
  datatype NewTag = NewTag(spaceId: int, at: Xy, typeId: Option<int>)

  /** A space waiting to be tagged, with its tag point. */
  datatype Queued = Queued(space: Space, at: Xy)

  /** The result triple: tagged, skipped and failed spaces. */
  datatype Tally = Tally(tagged: nat, skipped: nat, errors: nat)

  /** The spaces the existing tags already tag. */
  function TaggedIds(tags: seq<ExistingTag>): (r: set<int>)
    ensures forall id :: id in r <==> exists i :: 0 <= i < |tags| && TaggedBy(tags[i]) == Some(id)
  {
    if tags == [] then {}
    else
      var init := tags[..|tags| - 1];
      assert forall i :: 0 <= i < |init| ==> init[i] == tags[i];
      TaggedIds(init) + (match TaggedBy(tags[|tags| - 1]) case Some(id) => {id} case None => {})
  }

  function TaggedBy(t: ExistingTag): Option<int>
  {
    if t.space.Some? then t.space else t.taggedLocal
  }

  /** The tag point: the location point, else the centre of the bounding box, else none. */
  function TagPoint(s: Space): (r: Option<Xy>)
    ensures s.point.Some? ==> r == s.point
    ensures s.point.None? && s.box.Some? ==>
      r == Some(Xy((s.box.value.0.x + s.box.value.1.x) / 2.0, (s.box.value.0.y + s.box.value.1.y) / 2.0))
    ensures r.None? <==> s.point.None? && s.box.None?
  {
    if s.point.Some? then s.point
    else if s.box.Some? then
      var (lo, hi) := s.box.value;
      Some(Xy((lo.x + hi.x) / 2.0, (lo.y + hi.y) / 2.0))
    else None
  }

  /** The space is one the caller asked for (all spaces without a filter). */
  predicate InScope(s: Space, filter: Option<set<int>>)
  {
    filter.None? || s.id in filter.value
  }

  /** What the first pass leaves: skipped and failed counts and the spaces to tag. */
  datatype Prep = Prep(skipped: nat, errors: nat, queue: seq<Queued>)

  /** The first pass over the spaces. */
  function Prepare(spaces: seq<Space>, tagged: set<int>, filter: Option<set<int>>): Prep
  {
    if spaces == [] then Prep(0, 0, [])
    else
      var p := Prepare(spaces[..|spaces| - 1], tagged, filter);
      var s := spaces[|spaces| - 1];
      if !InScope(s, filter) then p
      else if s.id in tagged || s.area <= 0.0 then p.(skipped := p.skipped + 1)
      else match TagPoint(s)
        case None => p.(errors := p.errors + 1)
        case Some(at) => p.(queue := p.queue + [Queued(s, at)])
  }

  /** The second pass: a tag per queued space, except those whose creation fails. */
  function CreateTags(queue: seq<Queued>, failing: set<int>, typeId: Option<int>): (seq<NewTag>, nat)
  {
    if queue == [] then ([], 0)
    else
      var (created, errors) := CreateTags(queue[..|queue| - 1], failing, typeId);
      var q := queue[|queue| - 1];
      if q.space.id in failing then (created, errors + 1)
      else (created + [NewTag(q.space.id, q.at, typeId)], errors)
  }

  /** `tag_spaces_in_view`: the counts and the tags created. */
  function TagSpaces(spaces: seq<Space>, existing: seq<ExistingTag>, filter: Option<set<int>>,
                     failing: set<int>, typeId: Option<int>): (Tally, seq<NewTag>)
  {
    if spaces == [] then (Tally(0, 0, 0), [])
    else
      var p := Prepare(spaces, TaggedIds(existing), filter);
      var (created, failed) := CreateTags(p.queue, failing, typeId);
      (Tally(|created|, p.skipped, p.errors + failed), created)
  }

  /** The number of spaces the caller asked for. */
  function InScopeCount(spaces: seq<Space>, filter: Option<set<int>>): nat
  {
    if spaces == [] then 0
    else InScopeCount(spaces[..|spaces| - 1], filter) + (if InScope(spaces[|spaces| - 1], filter) then 1 else 0)
  }

  /** A space that deserves a tag: asked for, not yet tagged, with an area and a point. */
  predicate Taggable(s: Space, tagged: set<int>, filter: Option<set<int>>)
  {
    InScope(s, filter) && s.id !in tagged && s.area > 0.0 && TagPoint(s).Some?
  }

  /** Every space asked for is counted once by the first pass; the queue holds exactly the spaces that deserve a tag, with their points. */
  lemma {:induction false} PrepareProps(spaces: seq<Space>, tagged: set<int>, filter: Option<set<int>>)
    ensures var p := Prepare(spaces, tagged, filter);
      p.skipped + p.errors + |p.queue| == InScopeCount(spaces, filter)
    ensures forall q :: q in Prepare(spaces, tagged, filter).queue ==>
      q.space in spaces && Taggable(q.space, tagged, filter) && TagPoint(q.space) == Some(q.at)
    ensures forall s :: s in spaces && Taggable(s, tagged, filter) ==>
      Queued(s, TagPoint(s).value) in Prepare(spaces, tagged, filter).queue
  {
    if spaces != [] {
      var init := spaces[..|spaces| - 1];
      PrepareProps(init, tagged, filter);
      assert spaces == init + [spaces[|spaces| - 1]];
    }
  }

  /** Every queued space ends tagged or failed; the tags are those of the queued spaces that do not fail. */
  lemma {:induction false} CreateTagsProps(queue: seq<Queued>, failing: set<int>, typeId: Option<int>)
    ensures |CreateTags(queue, failing, typeId).0| + CreateTags(queue, failing, typeId).1 == |queue|
    ensures forall t :: t in CreateTags(queue, failing, typeId).0 <==>
      exists q :: q in queue && q.space.id !in failing && t == NewTag(q.space.id, q.at, typeId)
  {
    if queue != [] {
      var init := queue[..|queue| - 1];
      CreateTagsProps(init, failing, typeId);
      assert queue == init + [queue[|queue| - 1]];
    }
  }

  /**
   * The three counts add up to the number of spaces asked for, so spaces
   * outside the filter are neither tagged nor counted; a tag is created
   * exactly for each space that deserves one and whose creation does not
   * fail, at its tag point and with the chosen type.
   */
  lemma TagSpacesProps(spaces: seq<Space>, existing: seq<ExistingTag>, filter: Option<set<int>>,
                       failing: set<int>, typeId: Option<int>)
    ensures var (t, _) := TagSpaces(spaces, existing, filter, failing, typeId);
      t.tagged + t.skipped + t.errors == InScopeCount(spaces, filter)
    ensures var (t, created) := TagSpaces(spaces, existing, filter, failing, typeId);
      t.tagged == |created|
    ensures forall c :: c in TagSpaces(spaces, existing, filter, failing, typeId).1 <==>
      exists s :: s in spaces && Taggable(s, TaggedIds(existing), filter) && s.id !in failing &&
        c == NewTag(s.id, TagPoint(s).value, typeId)
  {
    if spaces != [] {
      var tagged := TaggedIds(existing);
      var p := Prepare(spaces, tagged, filter);
      PrepareProps(spaces, tagged, filter);
      CreateTagsProps(p.queue, failing, typeId);
      var created := CreateTags(p.queue, failing, typeId).0;
      forall c ensures c in created <==>
        exists s :: s in spaces && Taggable(s, tagged, filter) && s.id !in failing && c == NewTag(s.id, TagPoint(s).value, typeId)
      {
        if c in created {
          var q :| q in p.queue && q.space.id !in failing && c == NewTag(q.space.id, q.at, typeId);
          assert q.space in spaces && Taggable(q.space, tagged, filter);
        }
        if exists s :: s in spaces && Taggable(s, tagged, filter) && s.id !in failing && c == NewTag(s.id, TagPoint(s).value, typeId) {
          var s :| s in spaces && Taggable(s, tagged, filter) && s.id !in failing && c == NewTag(s.id, TagPoint(s).value, typeId);
          assert Queued(s, TagPoint(s).value) in p.queue;
        }
      }
    }
  }

  /** The set of spaces the existing tags tag. */
  method CollectTagged(existing: seq<ExistingTag>) returns (tagged: set<int>)
    ensures tagged == TaggedIds(existing)
  {
    tagged := {};
    for i := 0 to |existing|
      invariant tagged == TaggedIds(existing[..i])
    {
      assert existing[..i + 1][..i] == existing[..i];
      var t := existing[i];
      if t.space.Some? {
        tagged := tagged + {t.space.value};
      } else if t.taggedLocal.Some? {
        tagged := tagged + {t.taggedLocal.value};
      }
    }
    assert existing[..|existing|] == existing;
  }

  /** The first pass: skip, fail or queue each space asked for. */
  method PrepareSpaces(spaces: seq<Space>, tagged: set<int>, filter: Option<set<int>>)
    returns (skipped: nat, errors: nat, queue: seq<Queued>)
    ensures Prep(skipped, errors, queue) == Prepare(spaces, tagged, filter)
  {
    skipped, errors, queue := 0, 0, [];
    for i := 0 to |spaces|
      invariant Prep(skipped, errors, queue) == Prepare(spaces[..i], tagged, filter)
    {
      assert spaces[..i + 1][..i] == spaces[..i];
      var s := spaces[i];
      if filter.Some? && s.id !in filter.value {
        continue;
      }
      if s.id in tagged {
        skipped := skipped + 1;
        continue;
      }
      if s.area <= 0.0 {
        skipped := skipped + 1;
        continue;
      }
      if s.point.Some? {
        queue := queue + [Queued(s, s.point.value)];
      } else if s.box.Some? {
        var (lo, hi) := s.box.value;
        queue := queue + [Queued(s, Xy((lo.x + hi.x) / 2.0, (lo.y + hi.y) / 2.0))];
      } else {
        errors := errors + 1;
      }
    }
    assert spaces[..|spaces|] == spaces;
  }

  /** The second pass: create a tag per queued space, counting the failures. */
  method CreateQueued(queue: seq<Queued>, failing: set<int>, typeId: Option<int>)
    returns (created: seq<NewTag>, failed: nat)
    ensures (created, failed) == CreateTags(queue, failing, typeId)
  {
    created, failed := [], 0;
    for i := 0 to |queue|
      invariant (created, failed) == CreateTags(queue[..i], failing, typeId)
    {
      assert queue[..i + 1][..i] == queue[..i];
      if queue[i].space.id in failing {
        failed := failed + 1;
      } else {
        created := created + [NewTag(queue[i].space.id, queue[i].at, typeId)];
      }
    }
    assert queue[..|queue|] == queue;
  }

  /** `tag_spaces_in_view`: nothing without spaces, else the two passes. */
  method TagSpacesInView(spaces: seq<Space>, existing: seq<ExistingTag>, filter: Option<set<int>>,
                         failing: set<int>, typeId: Option<int>)
    returns (tally: Tally, created: seq<NewTag>)
    ensures (tally, created) == TagSpaces(spaces, existing, filter, failing, typeId)
  {
    if spaces == [] {
      return Tally(0, 0, 0), [];
    }
    var tagged := CollectTagged(existing);
    var skipped, errors, queue := PrepareSpaces(spaces, tagged, filter);
    var failed;
    created, failed := CreateQueued(queue, failing, typeId);
    tally := Tally(|created|, skipped, errors + failed);
  }
}
