/**
 * The post-synchronisation MMI check: before a sync the user's own model
 * elements are recorded; after it each recorded element is classified as
 * missing an MMI value, holding an invalid one, or fine, and a notice is
 * built from the counts.
 */
module MmiSync {
  import opened Common
  import opened Strs
  import opened MmiUtils

  /** The document as the checker sees it: worksharing, the current user and the non-type elements. */
  datatype SyncDoc = SyncDoc(workshared: bool, username: string, elements: seq<MmiElement>)

  predicate IsModel(e: MmiElement)
  {
    e.category.Some? && e.category.value.isModel
  }

  /** `doc.GetElement(id)`: the element with that id, if any. */
  function GetElement(es: seq<MmiElement>, id: int): (r: Option<MmiElement>)
    ensures r.Some? ==> r.value in es && r.value.id == id
    ensures r.None? ==> forall e :: e in es ==> e.id != id
  {
    if es == [] then None
    else if es[0].id == id then Some(es[0])
    else GetElement(es[1..], id)
  }

  /** A model element owned by `user`, compared case-insensitively. */
  predicate OwnedBy(e: MmiElement, user: string)
  {
    IsModel(e) && e.owner.Some? && Lower(e.owner.value) == Lower(user)
  }

  function Owned(es: seq<MmiElement>, user: string): (r: seq<int>)
    ensures |r| <= |es|
  {
    if es == [] then []
    else Owned(es[..|es| - 1], user) + (if OwnedBy(es[|es| - 1], user) then [es[|es| - 1].id] else [])
  }

  lemma {:induction false} OwnedMembers(es: seq<MmiElement>, user: string)
    ensures forall id :: id in Owned(es, user) <==> exists e :: e in es && e.id == id && OwnedBy(e, user)
  {
    if es != [] {
      var init := es[..|es| - 1];
      OwnedMembers(init, user);
      assert es == init + [es[|es| - 1]];
    }
  }

  /** `get_user_owned_elements`: [] unless the document is workshared. */
  method GetUserOwnedElements(doc: SyncDoc) returns (ids: seq<int>)
    ensures !doc.workshared ==> ids == []
    ensures doc.workshared ==> ids == Owned(doc.elements, doc.username)
  {
    if !doc.workshared {
      return [];
    }
    ids := [];
    var es := doc.elements;
    var i := 0;
    while i < |es|
      invariant 0 <= i <= |es|
      invariant ids == Owned(es[..i], doc.username)
    {
      assert es[..i + 1][..i] == es[..i];
      if OwnedBy(es[i], doc.username) {
        ids := ids + [es[i].id];
      }
      i := i + 1;
    }
    assert es[..i] == es;
  }

  // ---------------------------------------------------------------- tracking

  /** What is recorded per element before the sync. */
  datatype Snapshot = Snapshot(id: int, mmiValue: Option<nat>, mmiString: Option<string>, hasParam: bool)

  function SnapshotOf(e: MmiElement, name: string): Snapshot
  {
    var rd := ElementMmiValue(e, name);
    Snapshot(e.id, rd.number, rd.text, rd.hasParam)
  }

  function TrackedIds(t: seq<Snapshot>): set<int>
  {
    set k | 0 <= k < |t| :: t[k].id
  }

  predicate DistinctIds(t: seq<Snapshot>)
  {
    forall i, j :: 0 <= i < j < |t| ==> t[i].id != t[j].id
  }

  /** One id of the tracking loop: found model elements are recorded once. */
  function TrackStep(t: seq<Snapshot>, es: seq<MmiElement>, id: int, name: string): seq<Snapshot>
  {
    match GetElement(es, id)
    case None => t
    case Some(e) => if IsModel(e) && id !in TrackedIds(t) then t + [SnapshotOf(e, name)] else t
  }

  function Track(es: seq<MmiElement>, ids: seq<int>, name: string): seq<Snapshot>
  {
    if ids == [] then []
    else TrackStep(Track(es, ids[..|ids| - 1], name), es, ids[|ids| - 1], name)
  }

  lemma TrackedIdsSnoc(t: seq<Snapshot>, s: Snapshot)
    ensures TrackedIds(t + [s]) == TrackedIds(t) + {s.id}
  {
    var r := t + [s];
    forall x | x in TrackedIds(r) ensures x in TrackedIds(t) + {s.id} {
      var k :| 0 <= k < |r| && r[k].id == x;
      if k < |t| { assert r[k] == t[k]; }
    }
    assert r[|t|] == s;
    forall x | x in TrackedIds(t) ensures x in TrackedIds(r) {
      var k :| 0 <= k < |t| && t[k].id == x;
      assert r[k] == t[k];
    }
  }

  /**
   * The tracked map has one snapshot per id, and an id is tracked exactly
   * when it was listed and names a model element of the document.
   */
  lemma {:induction false} TrackProps(es: seq<MmiElement>, ids: seq<int>, name: string)
    ensures DistinctIds(Track(es, ids, name))
    ensures forall id :: id in TrackedIds(Track(es, ids, name)) <==>
      id in ids && GetElement(es, id).Some? && IsModel(GetElement(es, id).value)
    ensures forall k :: 0 <= k < |Track(es, ids, name)| ==>
      Track(es, ids, name)[k] == SnapshotOf(GetElement(es, Track(es, ids, name)[k].id).value, name)
  {
    if ids != [] {
      var init := ids[..|ids| - 1];
      var id := ids[|ids| - 1];
      assert ids == init + [id];
      TrackProps(es, init, name);
      var t := Track(es, init, name);
      var g := GetElement(es, id);
      if g.Some? && IsModel(g.value) && id !in TrackedIds(t) {
        var s := SnapshotOf(g.value, name);
        TrackedIdsSnoc(t, s);
        var r := t + [s];
        forall i, j | 0 <= i < j < |r| ensures r[i].id != r[j].id {
          assert r[i] == t[i];
          if j == |t| { assert t[i].id in TrackedIds(t); } else { assert r[j] == t[j]; }
        }
        forall k | 0 <= k < |r| ensures r[k] == SnapshotOf(GetElement(es, r[k].id).value, name) {
          if k < |t| { assert r[k] == t[k]; }
        }
      }
    }
  }

  lemma TrackSnoc(es: seq<MmiElement>, ids: seq<int>, name: string, i: int)
    requires 0 <= i < |ids|
    ensures Track(es, ids[..i + 1], name) == TrackStep(Track(es, ids[..i], name), es, ids[i], name)
  {
    assert ids[..i + 1][..i] == ids[..i];
  }

  // ---------------------------------------------------------------- classify

  datatype Missing = Missing(id: int, category: string, preSync: Option<string>)
  datatype Invalid = Invalid(id: int, category: string, current: string, suggested: string)
  datatype SyncResult = SyncResult(missing: seq<Missing>, invalid: seq<Invalid>, totalChecked: nat)

  const EmptyResult := SyncResult([], [], 0)

  function CategoryName(e: MmiElement): string
  {
    if e.category.Some? then e.category.value.name else "Unknown"
  }

  /** No MMI parameter, or only blanks in it. */
  predicate MissingMmi(rd: MmiReading)
  {
    !rd.hasParam || rd.text.None? || IsBlank(rd.text.value)
  }

  /** One tracked element after the sync: (missing, invalid) additions. */
  function Classify(s: Snapshot, es: seq<MmiElement>, name: string): (r: (seq<Missing>, seq<Invalid>))
    ensures |r.0| + |r.1| <= 1
  {
    match GetElement(es, s.id)
    case None => ([], [])
    case Some(e) =>
      if !IsModel(e) then ([], [])
      else
        var rd := ElementMmiValue(e, name);
        if MissingMmi(rd) then ([Missing(s.id, CategoryName(e), s.mmiString)], [])
        else match ValidateMmiValue(rd.text.value)
          case Some(c) =>
            if c.original != [] && c.fixed != [] then ([], [Invalid(s.id, CategoryName(e), rd.text.value, c.fixed)])
            else ([], [])
          case None => ([], [])
  }

  function ClassifyAll(t: seq<Snapshot>, es: seq<MmiElement>, name: string): (r: (seq<Missing>, seq<Invalid>))
  {
    if t == [] then ([], [])
    else
      var acc := ClassifyAll(t[..|t| - 1], es, name);
      var c := Classify(t[|t| - 1], es, name);
      (acc.0 + c.0, acc.1 + c.1)
  }

  function MissingIds(m: seq<Missing>): set<int> { set k | 0 <= k < |m| :: m[k].id }
  function InvalidIds(v: seq<Invalid>): set<int> { set k | 0 <= k < |v| :: v[k].id }

  /** One element contributes its own id, to at most one of the lists. */
  lemma ClassifyIds(s: Snapshot, es: seq<MmiElement>, name: string)
    ensures MissingIds(Classify(s, es, name).0) == (if Classify(s, es, name).0 != [] then {s.id} else {})
    ensures InvalidIds(Classify(s, es, name).1) == (if Classify(s, es, name).1 != [] then {s.id} else {})
  {
    var c := Classify(s, es, name);
    if c.0 != [] { assert c.0[0].id == s.id; }
    if c.1 != [] { assert c.1[0].id == s.id; }
  }

  /** Each tracked element adds at most one entry. */
  lemma {:induction false} ClassifyAllLength(t: seq<Snapshot>, es: seq<MmiElement>, name: string)
    ensures |ClassifyAll(t, es, name).0| + |ClassifyAll(t, es, name).1| <= |t|
  {
    if t != [] {
      ClassifyAllLength(t[..|t| - 1], es, name);
    }
  }

  /**
   * The reported ids are tracked ids, and a tracked element whose own
   * classification reports it is in the corresponding list.
   */
  lemma {:induction false} ClassifyAllIds(t: seq<Snapshot>, es: seq<MmiElement>, name: string)
    ensures MissingIds(ClassifyAll(t, es, name).0) <= TrackedIds(t)
    ensures InvalidIds(ClassifyAll(t, es, name).1) <= TrackedIds(t)
    ensures forall k :: 0 <= k < |t| && Classify(t[k], es, name).0 != [] ==>
      t[k].id in MissingIds(ClassifyAll(t, es, name).0)
    ensures forall k :: 0 <= k < |t| && Classify(t[k], es, name).1 != [] ==>
      t[k].id in InvalidIds(ClassifyAll(t, es, name).1)
  {
    if t != [] {
      var init := t[..|t| - 1];
      var s := t[|t| - 1];
      ClassifyAllIds(init, es, name);
      var acc := ClassifyAll(init, es, name);
      var c := Classify(s, es, name);
      assert t == init + [s];
      TrackedIdsSnoc(init, s);
      MissingIdsAppend(acc.0, c.0);
      InvalidIdsAppend(acc.1, c.1);
      ClassifyIds(s, es, name);
      forall k | 0 <= k < |t| && Classify(t[k], es, name).0 != []
        ensures t[k].id in MissingIds(ClassifyAll(t, es, name).0)
      {
        if k < |init| { assert t[k] == init[k]; }
      }
      forall k | 0 <= k < |t| && Classify(t[k], es, name).1 != []
        ensures t[k].id in InvalidIds(ClassifyAll(t, es, name).1)
      {
        if k < |init| { assert t[k] == init[k]; }
      }
    }
  }

  /** With one snapshot per id, no element is reported both missing and invalid. */
  lemma {:induction false} ClassifyAllDisjoint(t: seq<Snapshot>, es: seq<MmiElement>, name: string)
    requires DistinctIds(t)
    ensures MissingIds(ClassifyAll(t, es, name).0) !! InvalidIds(ClassifyAll(t, es, name).1)
  {
    if t != [] {
      var init := t[..|t| - 1];
      var s := t[|t| - 1];
      assert t == init + [s];
      assert DistinctIds(init) by {
        forall i, j | 0 <= i < j < |init| ensures init[i].id != init[j].id {
          assert init[i] == t[i] && init[j] == t[j];
        }
      }
      ClassifyAllDisjoint(init, es, name);
      ClassifyAllIds(init, es, name);
      var acc := ClassifyAll(init, es, name);
      var c := Classify(s, es, name);
      MissingIdsAppend(acc.0, c.0);
      InvalidIdsAppend(acc.1, c.1);
      ClassifyIds(s, es, name);
      assert s.id !in TrackedIds(init) by {
        forall k | 0 <= k < |init| ensures init[k].id != s.id {
          assert init[k] == t[k];
        }
      }
      assert Classify(s, es, name).0 == [] || Classify(s, es, name).1 == [];
    }
  }

  lemma MissingIdsAppend(a: seq<Missing>, b: seq<Missing>)
    ensures MissingIds(a + b) == MissingIds(a) + MissingIds(b)
  {
    var r := a + b;
    forall x | x in MissingIds(r) ensures x in MissingIds(a) + MissingIds(b) {
      var k :| 0 <= k < |r| && r[k].id == x;
      if k < |a| { assert r[k] == a[k]; } else { assert r[k] == b[k - |a|]; }
    }
    forall x | x in MissingIds(a) ensures x in MissingIds(r) {
      var k :| 0 <= k < |a| && a[k].id == x;
      assert r[k] == a[k];
    }
    forall x | x in MissingIds(b) ensures x in MissingIds(r) {
      var k :| 0 <= k < |b| && b[k].id == x;
      assert r[k + |a|] == b[k];
    }
  }

  lemma InvalidIdsAppend(a: seq<Invalid>, b: seq<Invalid>)
    ensures InvalidIds(a + b) == InvalidIds(a) + InvalidIds(b)
  {
    var r := a + b;
    forall x | x in InvalidIds(r) ensures x in InvalidIds(a) + InvalidIds(b) {
      var k :| 0 <= k < |r| && r[k].id == x;
      if k < |a| { assert r[k] == a[k]; } else { assert r[k] == b[k - |a|]; }
    }
    forall x | x in InvalidIds(a) ensures x in InvalidIds(r) {
      var k :| 0 <= k < |a| && a[k].id == x;
      assert r[k] == a[k];
    }
    forall x | x in InvalidIds(b) ensures x in InvalidIds(r) {
      var k :| 0 <= k < |b| && b[k].id == x;
      assert r[k + |a|] == b[k];
    }
  }

  /**
   * What one element contributes, stated on its reading: a present,
   * non-blank value is reported invalid exactly when the validator as
   * written proposes a correction (so level 000 is reported too).
   */
  lemma ClassifyRules(s: Snapshot, es: seq<MmiElement>, name: string)
    ensures GetElement(es, s.id).None? || !IsModel(GetElement(es, s.id).value) ==> Classify(s, es, name) == ([], [])
    ensures GetElement(es, s.id).Some? && IsModel(GetElement(es, s.id).value) ==>
      var rd := ElementMmiValue(GetElement(es, s.id).value, name);
      (Classify(s, es, name).0 != [] <==> MissingMmi(rd)) &&
      (Classify(s, es, name).1 != [] <==> !MissingMmi(rd) && ValidateMmiValue(rd.text.value).Some?) &&
      (Classify(s, es, name).1 != [] ==> Classify(s, es, name).1[0].suggested == ValidateMmiValue(rd.text.value).value.fixed)
  {
    var g := GetElement(es, s.id);
    if g.Some? && IsModel(g.value) {
      var rd := ElementMmiValue(g.value, name);
      if !MissingMmi(rd) {
        ValidateMmiValueCases(rd.text.value);
        BlankIffStripEmpty(rd.text.value);
      }
    }
  }

  lemma ClassifySnoc(t: seq<Snapshot>, es: seq<MmiElement>, name: string, i: int)
    requires 0 <= i < |t|
    ensures ClassifyAll(t[..i + 1], es, name) ==
      (ClassifyAll(t[..i], es, name).0 + Classify(t[i], es, name).0,
       ClassifyAll(t[..i], es, name).1 + Classify(t[i], es, name).1)
  {
    assert t[..i + 1][..i] == t[..i];
  }

  /** The classification loop of `validate_post_sync_mmi`. */
  method ClassifyLoop(t: seq<Snapshot>, es: seq<MmiElement>, name: string)
    returns (missing: seq<Missing>, invalid: seq<Invalid>)
    ensures (missing, invalid) == ClassifyAll(t, es, name)
  {
    missing, invalid := [], [];
    var i := 0;
    while i < |t|
      invariant 0 <= i <= |t|
      invariant (missing, invalid) == ClassifyAll(t[..i], es, name)
    {
      ClassifySnoc(t, es, name, i);
      var c := Classify(t[i], es, name);
      missing := missing + c.0;
      invalid := invalid + c.1;
      i := i + 1;
    }
    assert t[..i] == t;
  }

  // ---------------------------------------------------------------- messages

  /** The parts of the balloon message: one per nonzero count. */
  function MessageParts(missing: nat, invalid: nat): (r: seq<string>)
    ensures |r| == (if missing > 0 then 1 else 0) + (if invalid > 0 then 1 else 0)
    ensures missing > 0 ==> r[0] == IntToString(missing) + " missing MMI"
    ensures invalid > 0 ==> r[|r| - 1] == IntToString(invalid) + " invalid MMI"
  {
    (if missing > 0 then [IntToString(missing) + " missing MMI"] else []) +
    (if invalid > 0 then [IntToString(invalid) + " invalid MMI"] else [])
  }

  const Bullet := "  \U{2022} "

  function MissingLine(m: Missing): string
  {
    Bullet + m.category + " (ID: " + IntToString(m.id) + ")"
  }

  function InvalidLine(v: Invalid): string
  {
    Bullet + v.category + " '" + v.current + "' \U{2192} '" + v.suggested + "'"
  }

  function MoreLine(n: nat): string
  {
    Bullet + "... and " + IntToString(n) + " more"
  }

  function Min(a: nat, b: nat): nat { if a < b then a else b }

  /** Appends the first (at most) three lines of `items`. */
  method AppendFirstThree(lines: seq<string>, items: seq<string>) returns (r: seq<string>)
    ensures r == lines + items[..Min(3, |items|)]
  {
    r := lines;
    var i := 0;
    var n := Min(3, |items|);
    while i < n
      invariant 0 <= i <= n
      invariant r == lines + items[..i]
    {
      assert items[..i + 1] == items[..i] + [items[i]];
      r := r + [items[i]];
      i := i + 1;
    }
  }

  function MissingLines(m: seq<Missing>): (r: seq<string>)
    ensures |r| == |m| && forall k :: 0 <= k < |m| ==> r[k] == MissingLine(m[k])
  {
    if m == [] then [] else [MissingLine(m[0])] + MissingLines(m[1..])
  }

  function InvalidLines(v: seq<Invalid>): (r: seq<string>)
    ensures |r| == |v| && forall k :: 0 <= k < |v| ==> r[k] == InvalidLine(v[k])
  {
    if v == [] then [] else [InvalidLine(v[0])] + InvalidLines(v[1..])
  }

  /** One group of the tooltip: its header, the first (at most) three items, and a count of the rest. */
  function TooltipGroup(header: string, items: seq<string>): seq<string>
  {
    [header] + items[..Min(3, |items|)] + (if |items| > 3 then [MoreLine(|items| - 3)] else [])
  }

  /** The tooltip lines: the title, then a group for each non-empty list, missing first. */
  function Tooltip(res: SyncResult): seq<string>
  {
    ["Post-sync MMI validation results:"] +
    (if res.missing != [] then TooltipGroup("Missing MMI:", MissingLines(res.missing)) else []) +
    (if res.invalid != [] then TooltipGroup("Invalid MMI:", InvalidLines(res.invalid)) else [])
  }

  /** The lines of one group of the tooltip: header, at most three items, and the remainder. */
  method GroupLines(lines: seq<string>, header: string, items: seq<string>) returns (r: seq<string>)
    requires items != []
    ensures r == lines + TooltipGroup(header, items)
    ensures |r| == |lines| + 1 + Min(3, |items|) + (if |items| > 3 then 1 else 0)
    ensures r[..|lines| + 1] == lines + [header]
    ensures r[|lines| + 1..|lines| + 1 + Min(3, |items|)] == items[..Min(3, |items|)]
    ensures |items| > 3 ==> r[|r| - 1] == MoreLine(|items| - 3)
    ensures lines != [] ==> r[0] == lines[0]
  {
    r := AppendFirstThree(lines + [header], items);
    if |items| > 3 {
      r := r + [MoreLine(|items| - 3)];
    }
  }

  /** The tooltip lines of `process_post_sync_check`. */
  method TooltipLines(res: SyncResult) returns (lines: seq<string>)
    ensures lines == Tooltip(res)
    ensures |lines| == 1 +
      (if res.missing != [] then 1 + Min(3, |res.missing|) + (if |res.missing| > 3 then 1 else 0) else 0) +
      (if res.invalid != [] then 1 + Min(3, |res.invalid|) + (if |res.invalid| > 3 then 1 else 0) else 0)
    ensures lines[0] == "Post-sync MMI validation results:"
  {
    lines := ["Post-sync MMI validation results:"];
    if res.missing != [] {
      lines := GroupLines(lines, "Missing MMI:", MissingLines(res.missing));
    }
    if res.invalid != [] {
      lines := GroupLines(lines, "Invalid MMI:", InvalidLines(res.invalid));
    }
  }

  /** The balloon shown after the check. */
  datatype Notice = NoNotice | AllValid(text: string, tooltip: string) | Issues(text: string, tooltip: string)

  const AllValidTooltip := "No MMI issues found after synchronization"

  const ViewName := "Post-Sync MMI Check"

  /** The checker's module-level state. */
  class SyncChecker {
    var tracked: seq<Snapshot>
    var inProgress: bool

    constructor()
      ensures tracked == [] && !inProgress
    {
      tracked := [];
      inProgress := false;
    }

    /**
     * `track_modified_elements_before_sync`: marks a sync in progress and
     * replaces the tracked elements with the user's model elements.
     */
    method TrackModifiedElementsBeforeSync(doc: SyncDoc, name: string)
      modifies this
      ensures inProgress
      ensures tracked == Track(doc.elements, if doc.workshared then Owned(doc.elements, doc.username) else [], name)
    {
      var owned := GetUserOwnedElements(doc);
      var t: seq<Snapshot> := [];
      var i := 0;
      while i < |owned|
        invariant 0 <= i <= |owned|
        invariant t == Track(doc.elements, owned[..i], name)
      {
        TrackSnoc(doc.elements, owned, name, i);
        var g := GetElement(doc.elements, owned[i]);
        if g.Some? && IsModel(g.value) && owned[i] !in TrackedIds(t) {
          t := t + [SnapshotOf(g.value, name)];
        }
        i := i + 1;
      }
      assert owned[..i] == owned;
      tracked := t;
      inProgress := true;
    }

    /**
     * `validate_post_sync_mmi`: an empty result, changing nothing, unless a
     * sync is in progress with tracked elements; otherwise the flag is
     * reset, the tracked elements classified and then forgotten.
     */
    method ValidatePostSyncMmi(doc: SyncDoc, name: string) returns (res: SyncResult)
      modifies this
      ensures !old(inProgress) || old(tracked) == [] ==>
        res == EmptyResult && tracked == old(tracked) && inProgress == old(inProgress)
      ensures old(inProgress) && old(tracked) != [] ==>
        !inProgress && tracked == [] &&
        (res.missing, res.invalid) == ClassifyAll(old(tracked), doc.elements, name) &&
        res.totalChecked == |old(tracked)|
    {
      if !inProgress || tracked == [] {
        return EmptyResult;
      }
      inProgress := false;
      var missing, invalid := ClassifyLoop(tracked, doc.elements, name);
      res := SyncResult(missing, invalid, |tracked|);
      tracked := [];
    }

    /**
     * `process_post_sync_check`: no balloon when nothing was checked, a
     * success balloon when every checked element is fine, otherwise the
     * counts, the view name and the tooltip.
     */
    method ProcessPostSyncCheck(doc: SyncDoc, name: string, viewCreated: bool) returns (n: Notice)
      modifies this
      ensures !old(inProgress) || old(tracked) == [] ==>
        n == NoNotice && tracked == old(tracked) && inProgress == old(inProgress)
      ensures old(inProgress) && old(tracked) != [] ==> tracked == [] && !inProgress
      ensures old(inProgress) && old(tracked) != [] ==>
        var c := ClassifyAll(old(tracked), doc.elements, name);
        (c.0 == [] && c.1 == [] ==>
          n == AllValid("\U{2705} All " + IntToString(|old(tracked)|) + " checked elements have valid MMI values", AllValidTooltip)) &&
        (c.0 != [] || c.1 != [] ==> (n.Issues? &&
          n.text == "Found: " + Join(MessageParts(|c.0|, |c.1|), ", ") +
            "\nView: '" + (if viewCreated then ViewName else "Creation failed") + "'" &&
          n.tooltip == Join(Tooltip(SyncResult(c.0, c.1, |old(tracked)|)), "\n")))
    {
      var res := ValidatePostSyncMmi(doc, name);
      if |res.missing| + |res.invalid| == 0 {
        if res.totalChecked > 0 {
          n := AllValid("\U{2705} All " + IntToString(res.totalChecked) + " checked elements have valid MMI values", AllValidTooltip);
        } else {
          n := NoNotice;
        }
        return;
      }
      var message := "Found: " + Join(MessageParts(|res.missing|, |res.invalid|), ", ");
      var tooltip := TooltipLines(res);
      n := Issues(message + "\nView: '" + (if viewCreated then ViewName else "Creation failed") + "'", Join(tooltip, "\n"));
    }
  }

  /**
   * The counts after a sync: the total is the number tracked, including
   * elements that are gone, and bounds the number of reported problems.
   */
  lemma ResultBounds(t: seq<Snapshot>, es: seq<MmiElement>, name: string)
    requires DistinctIds(t)
    ensures |ClassifyAll(t, es, name).0| + |ClassifyAll(t, es, name).1| <= |t|
    ensures MissingIds(ClassifyAll(t, es, name).0) !! InvalidIds(ClassifyAll(t, es, name).1)
  {
    ClassifyAllLength(t, es, name);
    ClassifyAllDisjoint(t, es, name);
  }
}
