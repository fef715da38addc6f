/**
 * The Clash Explorer window's logic: clashes grouped by category pair and
 * sorted by size, the filter dropdowns and filters, the detail rows, and
 * the GUIDs collected for highlighting.
 */
module ClashExplorer {
  import opened Common
  import opened Strs
  import Sorting
  import StrOrder
  import opened ClashUtils

  /** `revit_category_a`, else the IFC class, else 'Unknown'. */
  function CatA(c: Clash): string
  {
    if c.a.Some? then c.a.value.category else OrElse(c.aIfc, "Unknown")
  }

  function CatB(c: Clash): string
  {
    if c.b.Some? then c.b.value.category else OrElse(c.bIfc, "Unknown")
  }

  function LevelA(c: Clash): string { if c.a.Some? then c.a.value.level else "Unknown" }
  function LevelB(c: Clash): string { if c.b.Some? then c.b.value.level else "Unknown" }

  function GroupKey(c: Clash): string
  {
    CatA(c) + " vs " + CatB(c)
  }

  /** A keyed clash of the clash set. */
  type Keyed = (string, Clash)

  /** One category-pair bucket of the defaultdict, in first-seen order. */
  type Bucket = (string, seq<Keyed>)

  /** `category_groups[key].append(item)`. */
  function AddToBucket(bs: seq<Bucket>, key: string, item: Keyed): (r: seq<Bucket>)
    ensures |r| == |bs| || |r| == |bs| + 1
  {
    if bs == [] then [(key, [item])]
    else if bs[0].0 == key then [(key, bs[0].1 + [item])] + bs[1..]
    else [bs[0]] + AddToBucket(bs[1..], key, item)
  }

  function Buckets(cs: seq<Keyed>): seq<Bucket>
  {
    if cs == [] then []
    else AddToBucket(Buckets(cs[..|cs| - 1]), GroupKey(cs[|cs| - 1].1), cs[|cs| - 1])
  }

  function BucketKeys(bs: seq<Bucket>): seq<string>
  {
    if bs == [] then [] else [bs[0].0] + BucketKeys(bs[1..])
  }

  function BucketSizes(bs: seq<Bucket>): seq<nat>
  {
    if bs == [] then [] else [|bs[0].1|] + BucketSizes(bs[1..])
  }

  /** Every bucket is non-empty and holds only clashes of its key. */
  predicate Members(bs: seq<Bucket>)
  {
    forall b :: b in bs ==> GoodBucket(b)
  }

  predicate GoodBucket(b: Bucket)
  {
    b.1 != [] && forall x :: x in b.1 ==> GroupKey(x.1) == b.0
  }

  lemma {:induction false} AddKeys(bs: seq<Bucket>, key: string, item: Keyed)
    ensures BucketKeys(AddToBucket(bs, key, item)) ==
      if key in BucketKeys(bs) then BucketKeys(bs) else BucketKeys(bs) + [key]
  {
    if bs != [] && bs[0].0 != key {
      AddKeys(bs[1..], key, item);
    }
  }

  lemma {:induction false} AddSizes(bs: seq<Bucket>, key: string, item: Keyed)
    ensures Sum(BucketSizes(AddToBucket(bs, key, item))) == Sum(BucketSizes(bs)) + 1
  {
    if bs != [] && bs[0].0 != key {
      AddSizes(bs[1..], key, item);
    }
  }

  lemma {:induction false} AddMembers(bs: seq<Bucket>, key: string, item: Keyed)
    requires Members(bs) && GroupKey(item.1) == key
    ensures Members(AddToBucket(bs, key, item))
  {
    if bs != [] && bs[0].0 != key {
      AddMembers(bs[1..], key, item);
    } else if bs != [] {
      assert GoodBucket(bs[0]);
      assert forall b :: b in bs[1..] ==> b in bs;
      assert GoodBucket((key, bs[0].1 + [item]));
    }
  }

  /** The category pair of every clash, in order. */
  function GroupKeys(cs: seq<Keyed>): (r: seq<string>)
    ensures |r| == |cs| && forall i :: 0 <= i < |cs| ==> r[i] == GroupKey(cs[i].1)
  {
    if cs == [] then [] else GroupKeys(cs[..|cs| - 1]) + [GroupKey(cs[|cs| - 1].1)]
  }

  /**
   * The buckets partition the clashes: their keys are the distinct category
   * pairs in order of first appearance, every bucket holds only clashes of
   * its pair, and the bucket sizes add up to the number of clashes.
   */
  lemma {:induction false} BucketsProps(cs: seq<Keyed>)
    ensures BucketKeys(Buckets(cs)) == StrOrder.Dedup(GroupKeys(cs))
    ensures Members(Buckets(cs))
    ensures Sum(BucketSizes(Buckets(cs))) == |cs|
  {
    if cs != [] {
      var init := cs[..|cs| - 1];
      var x := cs[|cs| - 1];
      BucketsProps(init);
      AddKeys(Buckets(init), GroupKey(x.1), x);
      AddSizes(Buckets(init), GroupKey(x.1), x);
      AddMembers(Buckets(init), GroupKey(x.1), x);
      assert GroupKeys(cs)[..|cs| - 1] == GroupKeys(init);
    }
  }

  lemma {:induction false} KeysLength(bs: seq<Bucket>)
    ensures |BucketKeys(bs)| == |bs| && forall i :: 0 <= i < |bs| ==> BucketKeys(bs)[i] == bs[i].0
  {
    if bs != [] { KeysLength(bs[1..]); }
  }

  /** The group dict built for one bucket. */
  datatype Group = Group(
    name: string, clashCount: nat,
    categoryA: string, categoryB: string, levelA: string, levelB: string,
    clashes: seq<Keyed>)

  function MakeGroup(b: Bucket): (g: Group)
    requires GoodBucket(b)
    ensures g.name == b.0 && g.clashCount == |g.clashes| && g.clashes == b.1
  {
    var first := b.1[0].1;
    Group(b.0, |b.1|, CatA(first), CatB(first), LevelA(first), LevelB(first), b.1)
  }

  /** `sorted(..., key=len, reverse=True)`, stable. */
  const BySizeDesc: (Bucket, Bucket) -> bool := (x: Bucket, y: Bucket) => |x.1| >= |y.1|

  lemma BySizeDescPreorder()
    ensures Sorting.TotalPreorder(BySizeDesc)
  {
  }

  function MakeGroups(bs: seq<Bucket>): (r: seq<Group>)
    requires forall i :: 0 <= i < |bs| ==> GoodBucket(bs[i])
    ensures |r| == |bs| && forall i :: 0 <= i < |bs| ==> r[i] == MakeGroup(bs[i])
  {
    if bs == [] then [] else [MakeGroup(bs[0])] + MakeGroups(bs[1..])
  }

  lemma SortedNonEmpty(bs: seq<Bucket>)
    requires Members(bs)
    ensures forall i :: 0 <= i < |Sorting.Sort(bs, BySizeDesc)| ==> GoodBucket(Sorting.Sort(bs, BySizeDesc)[i])
  {
    Sorting.SortAll(bs, BySizeDesc, GoodBucket);
  }

  /** The groups of `create_groups_from_clashes`. */
  function GroupsOf(cs: seq<Keyed>): seq<Group>
  {
    BucketsProps(cs);
    SortedNonEmpty(Buckets(cs));
    MakeGroups(Sorting.Sort(Buckets(cs), BySizeDesc))
  }

  /** Sorting keeps the buckets non-empty and their clashes of their key. */
  lemma SortedMembers(cs: seq<Keyed>)
    ensures forall i :: 0 <= i < |Sorting.Sort(Buckets(cs), BySizeDesc)| ==> GoodBucket(Sorting.Sort(Buckets(cs), BySizeDesc)[i])
  {
    BucketsProps(cs);
    SortedNonEmpty(Buckets(cs));
  }

  /** Groups come largest first. */
  lemma GroupsOrder(cs: seq<Keyed>)
    ensures forall i, j :: 0 <= i < j < |GroupsOf(cs)| ==> GroupsOf(cs)[i].clashCount >= GroupsOf(cs)[j].clashCount
  {
    BySizeDescPreorder();
    Sorting.SortSorted(Buckets(cs), BySizeDesc);
  }

  /**
   * Each group's count is the size of its clashes, its category and level
   * fields are those of its first clash, and all its clashes share its name.
   */
  lemma GroupsShape(cs: seq<Keyed>)
    ensures forall i :: 0 <= i < |GroupsOf(cs)| ==>
      var g := GroupsOf(cs)[i];
      g.clashes != [] && g.clashCount == |g.clashes| &&
      g.categoryA == CatA(g.clashes[0].1) && g.categoryB == CatB(g.clashes[0].1) &&
      g.levelA == LevelA(g.clashes[0].1) && g.levelB == LevelB(g.clashes[0].1) &&
      forall x :: x in g.clashes ==> GroupKey(x.1) == g.name
  {
    SortedMembers(cs);
  }

  /** The counts add up to the number of clashes. */
  lemma GroupsTotal(cs: seq<Keyed>)
    ensures Sum(GroupCounts(GroupsOf(cs))) == |cs|
  {
    BucketsProps(cs);
    SortSizes(Buckets(cs));
    SortedNonEmpty(Buckets(cs));
    GroupCountsSizes(Sorting.Sort(Buckets(cs), BySizeDesc));
  }

  /** Every clash's category pair names a group. */
  lemma GroupsCover(cs: seq<Keyed>, k: int)
    requires 0 <= k < |cs|
    ensures exists i :: 0 <= i < |GroupsOf(cs)| && GroupsOf(cs)[i].name == GroupKey(cs[k].1)
  {
    BucketsProps(cs);
    assert GroupKeys(cs)[k] == GroupKey(cs[k].1);
    var i := GroupsCoverKey(Buckets(cs), GroupKey(cs[k].1));
    assert GroupsOf(cs) == MakeGroups(Sorting.Sort(Buckets(cs), BySizeDesc));
    assert GroupsOf(cs)[i].name == GroupKey(cs[k].1);
  }

  lemma GroupsCoverKey(bs: seq<Bucket>, key: string) returns (i: int)
    requires Members(bs) && key in BucketKeys(bs)
    ensures forall i :: 0 <= i < |Sorting.Sort(bs, BySizeDesc)| ==> GoodBucket(Sorting.Sort(bs, BySizeDesc)[i])
    ensures 0 <= i < |MakeGroups(Sorting.Sort(bs, BySizeDesc))| && MakeGroups(Sorting.Sort(bs, BySizeDesc))[i].name == key
  {
    KeysMember(bs, key);
    var b :| b in bs && b.0 == key;
    var s := Sorting.Sort(bs, BySizeDesc);
    SortedNonEmpty(bs);
    Sorting.SortElems(bs, BySizeDesc);
    i :| 0 <= i < |s| && s[i] == b;
    assert MakeGroups(s)[i] == MakeGroup(s[i]);
  }

  lemma {:induction false} KeysMember(bs: seq<Bucket>, k: string)
    requires k in BucketKeys(bs)
    ensures exists b :: b in bs && b.0 == k
  {
    if bs[0].0 != k {
      KeysMember(bs[1..], k);
      var b :| b in bs[1..] && b.0 == k;
      assert b in bs;
    }
  }

  function GroupCounts(gs: seq<Group>): seq<nat>
  {
    if gs == [] then [] else [gs[0].clashCount] + GroupCounts(gs[1..])
  }

  lemma {:induction false} GroupCountsSizes(bs: seq<Bucket>)
    requires forall i :: 0 <= i < |bs| ==> GoodBucket(bs[i])
    ensures GroupCounts(MakeGroups(bs)) == BucketSizes(bs)
  {
    if bs != [] {
      GroupCountsSizes(bs[1..]);
      assert MakeGroups(bs)[1..] == MakeGroups(bs[1..]);
    }
  }

  lemma {:induction false} InsertSizes(x: Bucket, s: seq<Bucket>)
    ensures Sum(BucketSizes(Sorting.Insert(x, s, BySizeDesc))) == |x.1| + Sum(BucketSizes(s))
  {
    if s != [] && !BySizeDesc(x, s[0]) {
      InsertSizes(x, s[1..]);
    }
  }

  /** Sorting the buckets keeps the sum of their sizes. */
  lemma {:induction false} SortSizes(bs: seq<Bucket>)
    ensures Sum(BucketSizes(Sorting.Sort(bs, BySizeDesc))) == Sum(BucketSizes(bs))
  {
    if bs != [] {
      SortSizes(bs[1..]);
      InsertSizes(bs[0], Sorting.Sort(bs[1..], BySizeDesc));
    }
  }

  lemma BucketsSnoc(cs: seq<Keyed>, i: int)
    requires 0 <= i < |cs|
    ensures Buckets(cs[..i + 1]) == AddToBucket(Buckets(cs[..i]), GroupKey(cs[i].1), cs[i])
  {
    assert cs[..i + 1][..i] == cs[..i];
  }

  /**
   * `create_groups_from_clashes`: the defaultdict is filled in one pass,
   * then the buckets are turned into groups, largest first.
   */
  method CreateGroupsFromClashes(cs: seq<Keyed>) returns (groups: seq<Group>)
    ensures groups == GroupsOf(cs)
  {
    var buckets: seq<Bucket> := [];
    var i := 0;
    while i < |cs|
      invariant 0 <= i <= |cs|
      invariant buckets == Buckets(cs[..i])
    {
      BucketsSnoc(cs, i);
      buckets := AddToBucket(buckets, GroupKey(cs[i].1), cs[i]);
      i := i + 1;
    }
    assert cs[..i] == cs;
    BucketsProps(cs);
    SortedNonEmpty(buckets);
    groups := MakeGroups(Sorting.Sort(buckets, BySizeDesc));
  }

  // ---------------------------------------------------------------- filters

  /** Both category fields of every group, in order. */
  function CategoryValues(gs: seq<Group>): (r: seq<string>)
    ensures forall x :: x in r <==> exists g :: g in gs && (g.categoryA == x || g.categoryB == x)
  {
    if gs == [] then [] else CategoryValues(gs[..|gs| - 1]) + [gs[|gs| - 1].categoryA, gs[|gs| - 1].categoryB]
  }

  function LevelValues(gs: seq<Group>): (r: seq<string>)
    ensures forall x :: x in r <==> exists g :: g in gs && (g.levelA == x || g.levelB == x)
  {
    if gs == [] then [] else LevelValues(gs[..|gs| - 1]) + [gs[|gs| - 1].levelA, gs[|gs| - 1].levelB]
  }

  /**
   * `populate_filter_dropdowns`: "All Categories" / "All Levels" first,
   * then every value found on either side of a group, once each, sorted.
   */
  method PopulateFilterDropdowns(gs: seq<Group>) returns (cats: seq<string>, levels: seq<string>)
    ensures |cats| >= 1 && cats[0] == "All Categories" && |levels| >= 1 && levels[0] == "All Levels"
    ensures Sorting.Sorted(cats[1..], StrOrder.Le) && Sorting.Sorted(levels[1..], StrOrder.Le)
    ensures forall x :: multiset(cats[1..])[x] == if exists g :: g in gs && (g.categoryA == x || g.categoryB == x) then 1 else 0
    ensures forall x :: multiset(levels[1..])[x] == if exists g :: g in gs && (g.levelA == x || g.levelB == x) then 1 else 0
  {
    var cv: seq<string> := [];
    var lv: seq<string> := [];
    var i := 0;
    while i < |gs|
      invariant 0 <= i <= |gs|
      invariant cv == CategoryValues(gs[..i]) && lv == LevelValues(gs[..i])
    {
      assert gs[..i + 1][..i] == gs[..i];
      cv := cv + [gs[i].categoryA, gs[i].categoryB];
      lv := lv + [gs[i].levelA, gs[i].levelB];
      i := i + 1;
    }
    assert gs[..i] == gs;
    StrOrder.SortedSetProps(cv);
    StrOrder.SortedSetProps(lv);
    cats := ["All Categories"] + StrOrder.SortedSet(cv);
    levels := ["All Levels"] + StrOrder.SortedSet(lv);
    assert cats[1..] == StrOrder.SortedSet(cv);
    assert levels[1..] == StrOrder.SortedSet(lv);
  }

  /** A selected filter restricts only when it is set and is not the "All ..." entry. */
  predicate Restricts(f: Option<string>, all: string)
  {
    f.Some? && f.value != "" && f.value != all
  }

  predicate CatMatch(g: Group, f: Option<string>)
  {
    !Restricts(f, "All Categories") || g.categoryA == f.value || g.categoryB == f.value
  }

  predicate LevelMatch(g: Group, f: Option<string>)
  {
    !Restricts(f, "All Levels") || g.levelA == f.value || g.levelB == f.value
  }

  /** `apply_filters_button_click`: the category filter, then the level filter. */
  function ApplyFilters(gs: seq<Group>, cf: Option<string>, lf: Option<string>): (r: seq<Group>)
    ensures forall g :: g in r <==> g in gs && CatMatch(g, cf) && LevelMatch(g, lf)
  {
    Filter(Filter(gs, g => CatMatch(g, cf)), g => LevelMatch(g, lf))
  }

  /**
   * The two filters compose into one order-preserving filter on both
   * conditions, and "All ..." (or nothing selected) filters nothing.
   */
  lemma ApplyFiltersCompose(gs: seq<Group>, cf: Option<string>, lf: Option<string>)
    ensures ApplyFilters(gs, cf, lf) == Filter(gs, g => CatMatch(g, cf) && LevelMatch(g, lf))
    ensures !Restricts(cf, "All Categories") && !Restricts(lf, "All Levels") ==> ApplyFilters(gs, cf, lf) == gs
  {
    FilterFilter(gs, g => CatMatch(g, cf), g => LevelMatch(g, lf), g => CatMatch(g, cf) && LevelMatch(g, lf));
    if !Restricts(cf, "All Categories") && !Restricts(lf, "All Levels") {
      FilterAll(gs, g => CatMatch(g, cf) && LevelMatch(g, lf));
    }
  }

  lemma {:induction false} FilterAll<T>(s: seq<T>, p: T -> bool)
    requires forall x :: x in s ==> p(x)
    ensures Filter(s, p) == s
  {
    if s != [] {
      FilterAll(s[1..], p);
    }
  }

  // ---------------------------------------------------------------- details

  /** "first 8 characters..." of a GUID, or "Unknown" without one. */
  function ShortGuid(g: Option<string>): (r: string)
    ensures g.None? || g.value == [] ==> r == "Unknown"
    ensures g.Some? && g.value != [] ==>
      var n := if |g.value| < 8 then |g.value| else 8;
      |r| == n + 3 && r[..n] == g.value[..n] && r[n..] == "..."
  {
    if g.Some? && g.value != [] then
      var n := if |g.value| < 8 then |g.value| else 8;
      g.value[..n] + "..."
    else "Unknown"
  }

  datatype Detail = Detail(key: string, elementA: string, elementB: string, categoryA: string, categoryB: string)

  function DetailOf(kc: Keyed): Detail
  {
    Detail(kc.0, ShortGuid(kc.1.aGuid), ShortGuid(kc.1.bGuid), CatA(kc.1), CatB(kc.1))
  }

  /** `load_clash_details`: one row per clash of the group, in the group's order. */
  method LoadClashDetails(g: Group) returns (details: seq<Detail>)
    ensures |details| == |g.clashes|
    ensures forall k :: 0 <= k < |details| ==> details[k] == DetailOf(g.clashes[k])
  {
    details := [];
    var i := 0;
    while i < |g.clashes|
      invariant 0 <= i <= |g.clashes|
      invariant |details| == i && forall k :: 0 <= k < i ==> details[k] == DetailOf(g.clashes[k])
    {
      details := details + [DetailOf(g.clashes[i])];
      i := i + 1;
    }
  }

  // ---------------------------------------------------------------- highlight

  /** The GUIDs of both sides of a clash, when present and non-empty. */
  function ClashGuids(c: Clash): (r: seq<string>)
    ensures forall x :: x in r <==> (c.aGuid == Some(x) || c.bGuid == Some(x)) && x != []
  {
    (if c.aGuid.Some? && c.aGuid.value != [] then [c.aGuid.value] else []) +
    (if c.bGuid.Some? && c.bGuid.value != [] then [c.bGuid.value] else [])
  }

  function GroupGuids(cs: seq<Keyed>): (r: seq<string>)
    ensures forall x :: x in r <==> exists kc :: kc in cs && x in ClashGuids(kc.1)
  {
    if cs == [] then [] else GroupGuids(cs[..|cs| - 1]) + ClashGuids(cs[|cs| - 1].1)
  }

  /**
   * `highlight_button_click`: the GUIDs of every clash of the group that
   * are in the index; no view when none is, else the view "Clash - <group>".
   */
  method HighlightGroup(index: map<string, Entry>, g: Group) returns (found: map<string, Entry>, view: Option<string>)
    ensures forall x :: x in found <==> x in index && exists kc :: kc in g.clashes && x in ClashGuids(kc.1)
    ensures forall x :: x in found ==> found[x] == index[x]
    ensures view.None? <==> found == map[]
    ensures view.Some? ==> view.value == "Clash - " + g.name
  {
    var guids: seq<string> := [];
    var i := 0;
    while i < |g.clashes|
      invariant 0 <= i <= |g.clashes|
      invariant guids == GroupGuids(g.clashes[..i])
    {
      assert g.clashes[..i + 1][..i] == g.clashes[..i];
      guids := guids + ClashGuids(g.clashes[i].1);
      i := i + 1;
    }
    assert g.clashes[..i] == g.clashes;
    found := FindElementsByGuids(index, guids);
    if found == map[] {
      view := None;
    } else {
      view := Some("Clash - " + g.name);
    }
  }

  /** `highlight_clash_button_click`: the same for one clash, the view named after its key's first 16 characters. */
  method HighlightClash(index: map<string, Entry>, kc: Keyed) returns (found: map<string, Entry>, view: Option<string>)
    ensures forall x :: x in found <==> x in index && x in ClashGuids(kc.1)
    ensures forall x :: x in found ==> found[x] == index[x]
    ensures view.None? <==> found == map[]
    ensures view.Some? ==> view.value == "Clash - " + kc.0[..if |kc.0| < 16 then |kc.0| else 16]
  {
    found := FindElementsByGuids(index, ClashGuids(kc.1));
    if found == map[] {
      view := None;
    } else {
      view := Some("Clash - " + kc.0[..if |kc.0| < 16 then |kc.0| else 16]);
    }
  }
}
