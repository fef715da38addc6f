/**
 * The StreamBIM checklist importer window: it lists a checklist's
 * properties, writes a chosen property of each checklist item into a Revit
 * parameter of the element with the same IFC GUID (optionally through a
 * value mapping), and keeps one stored mapping configuration per
 * (checklist, property).
 */
module ChecklistImporter {
  import opened Common
  import opened Strs
  import opened Checklists
  import RevitUtils

  /** A row of the value-mapping grid. */
  datatype MappingEntry = MappingEntry(checklistValue: string, revitValue: string)

  /** A checklist of the selected project, as the list view shows it. */
  datatype ChecklistRef = ChecklistRef(id: string, name: string)

  /**
   * A stored mapping configuration. `mappingEnabled` is None when the
   * record lacks the key; `mappingRows` is None when its mapping text is
   * missing or empty.
   */
  datatype Config = Config(checklistId: string, checklistName: string, property: string,
                           revitParameter: string, mappingEnabled: Option<bool>,
                           mappingRows: Option<seq<MappingEntry>>)

  /** A combo-box selection is usable when present and not empty. */
  predicate Chosen(s: Option<string>)
  {
    s.Some? && s.value != ""
  }

  // ---------------------------------------------------------------- value mapping

  /** The rows with both sides filled, as a dictionary; a later row replaces an earlier one. */
  function MappingOf(rows: seq<MappingEntry>): map<string, string>
  {
    if rows == [] then map[]
    else
      var m := MappingOf(rows[..|rows| - 1]);
      var r := rows[|rows| - 1];
      if r.checklistValue != "" && r.revitValue != "" then m[r.checklistValue := r.revitValue] else m
  }

  /** `value_mapping`: built only when mapping is enabled and the grid has rows. */
  function ValueMapping(enabled: bool, rows: seq<MappingEntry>): map<string, string>
  {
    if enabled && rows != [] then MappingOf(rows) else map[]
  }

  /** A row with both sides filled whose checklist value is `v`. */
  predicate CompleteFor(r: MappingEntry, v: string)
  {
    r.checklistValue == v && r.revitValue != "" && v != ""
  }

  /** The mapping holds a checklist value exactly when a complete row names it. */
  lemma {:induction false} MappingOfRows(rows: seq<MappingEntry>, v: string)
    ensures v in MappingOf(rows) <==> exists i :: 0 <= i < |rows| && CompleteFor(rows[i], v)
  {
    if rows != [] {
      var n := |rows| - 1;
      var init := rows[..n];
      MappingOfRows(init, v);
      if v in MappingOf(init) {
        var i :| 0 <= i < n && CompleteFor(init[i], v);
        assert rows[i] == init[i];
      }
      if !CompleteFor(rows[n], v) && v in MappingOf(rows) {
        assert v in MappingOf(init);
      }
    }
  }

  /** A mapped value maps as the last complete row naming it does. */
  lemma {:induction false} MappingOfLastRow(rows: seq<MappingEntry>, v: string)
    requires v in MappingOf(rows)
    ensures exists i :: (0 <= i < |rows| && rows[i] == MappingEntry(v, MappingOf(rows)[v]) &&
      forall j :: i < j < |rows| ==> !CompleteFor(rows[j], v))
  {
    var n := |rows| - 1;
    var init := rows[..n];
    if CompleteFor(rows[n], v) {
      assert rows[n] == MappingEntry(v, MappingOf(rows)[v]);
    } else {
      MappingOfLastRow(init, v);
      var i :| 0 <= i < n && init[i] == MappingEntry(v, MappingOf(init)[v]) &&
        forall j :: i < j < n ==> !CompleteFor(init[j], v);
      assert rows[i] == init[i];
      assert forall j :: i < j < n ==> rows[j] == init[j];
    }
  }

  /** The mapping loop over the grid rows. */
  method BuildValueMapping(enabled: bool, rows: seq<MappingEntry>) returns (m: map<string, string>)
    ensures m == ValueMapping(enabled, rows)
  {
    m := map[];
    if enabled && rows != [] {
      for i := 0 to |rows|
        invariant m == MappingOf(rows[..i])
      {
        assert rows[..i + 1][..i] == rows[..i];
        if rows[i].checklistValue != "" && rows[i].revitValue != "" {
          m := m[rows[i].checklistValue := rows[i].revitValue];
        }
      }
      assert rows[..|rows|] == rows;
    }
  }

  // ---------------------------------------------------------------- element lookup

  /** The GUID an element is indexed by: its GUID parameter, when it has a value, holds text and the text is not empty. */
  function ElementGuid(e: Element): Option<string>
  {
    match GuidParam(e)
    case None => None
    case Some(p) =>
      if p.hasValue && p.storage == StrStorage && RevitUtils.AsString(p.value) != "" then Some(RevitUtils.AsString(p.value)) else None
  }

  /** The GUID each element is indexed by, element after element. */
  function Guids(es: seq<Element>): (r: seq<Option<string>>)
    ensures |r| == |es| && forall k :: 0 <= k < |es| ==> r[k] == ElementGuid(es[k])
  {
    seq(|es|, k requires 0 <= k < |es| => ElementGuid(es[k]))
  }

  /** Each present key mapped to its position; a later position replaces an earlier one. */
  function KeyIndex(keys: seq<Option<string>>): map<string, nat>
  {
    if keys == [] then map[]
    else
      var m := KeyIndex(keys[..|keys| - 1]);
      match keys[|keys| - 1]
      case None => m
      case Some(g) => m[g := |keys| - 1]
  }

  lemma {:induction false} KeyIndexLastWins(keys: seq<Option<string>>, g: string)
    ensures g in KeyIndex(keys) <==> Some(g) in keys
    ensures g in KeyIndex(keys) ==> (KeyIndex(keys)[g] < |keys| && keys[KeyIndex(keys)[g]] == Some(g) &&
      Some(g) !in keys[KeyIndex(keys)[g] + 1..])
  {
    if keys != [] {
      var n := |keys| - 1;
      var init := keys[..n];
      KeyIndexLastWins(init, g);
      assert keys == init + [keys[n]];
      if g in KeyIndex(init) && keys[n] != Some(g) {
        var i := KeyIndex(init)[g];
        assert keys[i + 1..] == init[i + 1..] + [keys[n]];
      }
    }
  }

  /** `ifc_guid_dict`: the position of the element for each GUID; a later element replaces an earlier one. */
  function ElementIndex(es: seq<Element>): map<string, nat>
  {
    KeyIndex(Guids(es))
  }

  /** Every GUID is indexed to the last element carrying it. */
  lemma ElementIndexLastWins(es: seq<Element>, g: string)
    ensures g in ElementIndex(es) <==> exists k :: 0 <= k < |es| && ElementGuid(es[k]) == Some(g)
    ensures g in ElementIndex(es) ==> (ElementIndex(es)[g] < |es| && ElementGuid(es[ElementIndex(es)[g]]) == Some(g) &&
      forall k :: ElementIndex(es)[g] < k < |es| ==> ElementGuid(es[k]) != Some(g))
  {
    var keys := Guids(es);
    KeyIndexLastWins(keys, g);
    if g in ElementIndex(es) {
      var i := ElementIndex(es)[g];
      forall k | i < k < |es| ensures ElementGuid(es[k]) != Some(g) {
        assert keys[k] == keys[i + 1..][k - i - 1];
      }
    }
  }

  /** The loop building `ifc_guid_dict`. */
  method BuildElementIndex(es: seq<Element>) returns (m: map<string, nat>)
    ensures m == ElementIndex(es)
  {
    m := map[];
    ghost var keys := Guids(es);
    for k := 0 to |es|
      invariant m == KeyIndex(keys[..k])
    {
      assert keys[..k + 1][..k] == keys[..k];
      var g := ElementGuid(es[k]);
      if g.Some? {
        m := m[g.value := k];
      }
    }
    assert keys[..|es|] == keys;
  }

  // ---------------------------------------------------------------- one item

  /** What the import does for one GUID of the item dictionary. */
  datatype Outcome =
    | Skipped                      // no element, no value, unmapped value, no writable parameter, or a failed conversion
    | Written(k: nat, v: ParamValue) // element `k` gets `v`
    | Counted(k: nat)              // element `k` is counted as updated though its storage takes no value

  /** The checklist value the item gives the property, after the value mapping. */
  function RevitValue(item: Item, prop: string, vm: map<string, string>): Option<string>
  {
    match Lookup(item.fields, prop)
    case None => None
    case Some(v) =>
      if v == "" then None
      else if vm != map[] then (if v in vm then Some(vm[v]) else None)
      else Some(v)
  }

  /** The mapping rule: with a mapping, only mapped values pass and are replaced; without one, the raw truthy value passes. */
  lemma RevitValueRule(item: Item, prop: string, vm: map<string, string>)
    ensures RevitValue(item, prop, vm).Some? <==>
      (Lookup(item.fields, prop).Some? && Lookup(item.fields, prop).value != "" &&
       (vm == map[] || Lookup(item.fields, prop).value in vm))
    ensures RevitValue(item, prop, vm).Some? && vm == map[] ==> RevitValue(item, prop, vm) == Lookup(item.fields, prop)
    ensures RevitValue(item, prop, vm).Some? && vm != map[] ==> RevitValue(item, prop, vm).value == vm[Lookup(item.fields, prop).value]
  {
  }

  function OutcomeFor(es: seq<Element>, index: map<string, nat>, g: string, item: Item,
                      prop: string, param: string, vm: map<string, string>): Outcome
  {
    if g !in index || index[g] >= |es| then Skipped
    else
      var k := index[g];
      match RevitValue(item, prop, vm)
      case None => Skipped
      case Some(text) =>
        match LookupParameter(es[k], param)
        case None => Skipped
        case Some(p) =>
          if p.readOnly then Skipped
          else match Convert(p.storage, text)
            case Invalid => Skipped
            case NotSettable => Counted(k)
            case Converted(v) => Written(k, v)
  }

  /** An element is updated exactly when it is matched, the value passes the mapping and the parameter is there, writable and takes the value. */
  lemma OutcomeCases(es: seq<Element>, index: map<string, nat>, g: string, item: Item,
                     prop: string, param: string, vm: map<string, string>)
    ensures var o := OutcomeFor(es, index, g, item, prop, param, vm);
      !o.Skipped? <==>
        (g in index && index[g] < |es| && RevitValue(item, prop, vm).Some? &&
         LookupParameter(es[index[g]], param).Some? && !LookupParameter(es[index[g]], param).value.readOnly &&
         !Convert(LookupParameter(es[index[g]], param).value.storage, RevitValue(item, prop, vm).value).Invalid?)
    ensures var o := OutcomeFor(es, index, g, item, prop, param, vm);
      o.Written? ==> (o.k == index[g] &&
        Convert(LookupParameter(es[o.k], param).value.storage, RevitValue(item, prop, vm).value) == Converted(o.v))
    ensures var o := OutcomeFor(es, index, g, item, prop, param, vm);
      o.Counted? ==> (o.k == index[g] &&
        LookupParameter(es[o.k], param).value.storage in {IdStorage, NoStorage})
  {
  }

  // ---------------------------------------------------------------- the import loop

  /** The state after the items in `order` are processed: the elements, and the ids counted as updated. */
  function Import(es: seq<Element>, index: map<string, nat>, items: map<string, Item>, order: seq<string>,
                  prop: string, param: string, vm: map<string, string>): (r: (seq<Element>, seq<int>))
    ensures |r.0| == |es|
  {
    if order == [] then (es, [])
    else
      var prev := Import(es, index, items, order[..|order| - 1], prop, param, vm);
      var g := order[|order| - 1];
      if g !in items then prev
      else
        match OutcomeFor(prev.0, index, g, items[g], prop, param, vm)
        case Skipped => prev
        case Counted(k) => (prev.0, prev.1 + [prev.0[k].id])
        case Written(k, v) => (prev.0[k := SetParam(prev.0[k], param, v)], prev.1 + [prev.0[k].id])
  }

  /** Processing one more GUID. */
  method ImportOne(es: seq<Element>, index: map<string, nat>, g: string, item: Item,
                   prop: string, param: string, vm: map<string, string>) returns (es': seq<Element>, hit: Option<int>)
    ensures match OutcomeFor(es, index, g, item, prop, param, vm)
      case Skipped => es' == es && hit == None
      case Counted(k) => es' == es && hit == Some(es[k].id)
      case Written(k, v) => es' == es[k := SetParam(es[k], param, v)] && hit == Some(es[k].id)
  {
    es', hit := es, None;
    if g !in index || index[g] >= |es| {
      return;
    }
    var k := index[g];
    var text := RevitValue(item, prop, vm);
    if text.None? {
      return;
    }
    var p := LookupParameter(es[k], param);
    if p.None? || p.value.readOnly {
      return;
    }
    var c := Convert(p.value.storage, text.value);
    if c.Invalid? {
      return;
    }
    if c.Converted? {
      es' := es[k := SetParam(es[k], param, c.v)];
    }
    hit := Some(es[k].id);
  }

  /**
   * The import loop over `guid_to_item`: every GUID counts as processed,
   * and the ids of the updated elements are collected in order.
   */
  method ImportItems(es: seq<Element>, index: map<string, nat>, items: map<string, Item>, order: seq<string>,
                     prop: string, param: string, vm: map<string, string>)
    returns (es': seq<Element>, processed: nat, updatedIds: seq<int>)
    ensures (es', updatedIds) == Import(es, index, items, order, prop, param, vm)
    ensures processed == |order|
  {
    es', processed, updatedIds := es, 0, [];
    for i := 0 to |order|
      invariant (es', updatedIds) == Import(es, index, items, order[..i], prop, param, vm)
      invariant processed == i
    {
      assert order[..i + 1][..i] == order[..i];
      processed := processed + 1;
      var g := order[i];
      if g in items {
        var hit;
        es', hit := ImportOne(es', index, g, items[g], prop, param, vm);
        if hit.Some? {
          updatedIds := updatedIds + [hit.value];
        }
      }
    }
    assert order[..|order|] == order;
  }

  /** At most one update per processed GUID; the ids stay the element ids. */
  lemma {:induction false} ImportCounts(es: seq<Element>, index: map<string, nat>, items: map<string, Item>, order: seq<string>,
                                        prop: string, param: string, vm: map<string, string>)
    ensures |Import(es, index, items, order, prop, param, vm).1| <= |order|
    ensures forall k :: 0 <= k < |es| ==> Import(es, index, items, order, prop, param, vm).0[k].id == es[k].id
  {
    if order != [] {
      ImportCounts(es, index, items, order[..|order| - 1], prop, param, vm);
    }
  }

  /**
   * Only the chosen parameter of an element is ever written, and only of an
   * element that carries the GUID of an item in the order.
   */
  lemma {:induction false} ImportFrame(es: seq<Element>, index: map<string, nat>, items: map<string, Item>, order: seq<string>,
                                       prop: string, param: string, vm: map<string, string>, k: nat, n: string)
    requires k < |es|
    ensures var r := Import(es, index, items, order, prop, param, vm).0;
      n != param ==> LookupParameter(r[k], n) == LookupParameter(es[k], n)
    ensures var r := Import(es, index, items, order, prop, param, vm).0;
      r[k] != es[k] ==> exists g :: g in order && g in index && index[g] == k
  {
    if order != [] {
      var init := order[..|order| - 1];
      ImportFrame(es, index, items, init, prop, param, vm, k, n);
      assert forall g :: g in init ==> g in order;
    }
  }

  // ---------------------------------------------------------------- configurations

  /** The configuration stored for (checklist, property), if any: the first one with both. */
  function FindConfig(cs: seq<Config>, checklistId: string, prop: string): (r: Option<nat>)
    ensures r.Some? ==> (r.value < |cs| && cs[r.value].checklistId == checklistId && cs[r.value].property == prop &&
      forall j :: 0 <= j < r.value ==> cs[j].checklistId != checklistId || cs[j].property != prop)
    ensures r.None? ==> forall j :: 0 <= j < |cs| ==> cs[j].checklistId != checklistId || cs[j].property != prop
  {
    if cs == [] then None
    else if cs[0].checklistId == checklistId && cs[0].property == prop then Some(0)
    else match FindConfig(cs[1..], checklistId, prop)
      case None => None
      case Some(i) => Some(i + 1)
  }

  /** Replace the first configuration with the same (checklist, property), or append. */
  function Upsert(cs: seq<Config>, c: Config): seq<Config>
  {
    match FindConfig(cs, c.checklistId, c.property)
    case Some(i) => cs[i := c]
    case None => cs + [c]
  }

  /** After an upsert the key is found at the new configuration, and every other configuration is kept in place. */
  lemma UpsertFinds(cs: seq<Config>, c: Config)
    ensures FindConfig(Upsert(cs, c), c.checklistId, c.property).Some?
    ensures Upsert(cs, c)[FindConfig(Upsert(cs, c), c.checklistId, c.property).value] == c
    ensures |Upsert(cs, c)| == |cs| || |Upsert(cs, c)| == |cs| + 1
    ensures forall j :: 0 <= j < |cs| && (cs[j].checklistId != c.checklistId || cs[j].property != c.property) ==>
      Upsert(cs, c)[j] == cs[j]
  {
    var r := Upsert(cs, c);
    match FindConfig(cs, c.checklistId, c.property)
    case Some(i) =>
      FindConfigAt(r, c.checklistId, c.property, i);
    case None =>
      FindConfigAt(r, c.checklistId, c.property, |cs|);
  }

  lemma {:induction false} FindConfigAt(cs: seq<Config>, checklistId: string, prop: string, i: nat)
    requires i < |cs| && cs[i].checklistId == checklistId && cs[i].property == prop
    requires forall j :: 0 <= j < i ==> cs[j].checklistId != checklistId || cs[j].property != prop
    ensures FindConfig(cs, checklistId, prop) == Some(i)
  {
    if i > 0 {
      FindConfigAt(cs[1..], checklistId, prop, i - 1);
    }
  }

  /** Saving the same configuration twice stores it once. */
  lemma UpsertIdempotent(cs: seq<Config>, c: Config)
    ensures Upsert(Upsert(cs, c), c) == Upsert(cs, c)
  {
    UpsertFinds(cs, c);
  }

  /** The mapping rows a configuration restores: none when its mapping text is missing. */
  function RestoredRows(c: Config): seq<MappingEntry>
  {
    OrElse(c.mappingRows, [])
  }

  /** Position of the first occurrence of `x`. */
  function FirstIndex<T(==)>(s: seq<T>, x: T): (r: Option<nat>)
    ensures r.Some? ==> r.value < |s| && s[r.value] == x && x !in s[..r.value]
    ensures r.None? ==> x !in s
  {
    if s == [] then None
    else if s[0] == x then Some(0)
    else match FirstIndex(s[1..], x)
      case None => None
      case Some(i) =>
        assert s[..i + 1] == [s[0]] + s[1..][..i];
        Some(i + 1)
  }

  /** The names of the parameter box with surrounding white space removed. */
  function Stripped(items: seq<string>): (r: seq<string>)
    ensures |r| == |items|
  {
    seq(|items|, i requires 0 <= i < |items| => Strip(items[i]))
  }

  /** The position of the first parameter whose stripped name equals the stored one. */
  function MatchParameter(items: seq<string>, stored: string): Option<nat>
  {
    FirstIndex(Stripped(items), Strip(stored))
  }

  /** The restored selection is the first parameter that equals the stored name up to white space. */
  lemma MatchParameterProps(items: seq<string>, stored: string)
    ensures var r := MatchParameter(items, stored);
      r.Some? ==> (r.value < |items| && Strip(items[r.value]) == Strip(stored) &&
        forall j :: 0 <= j < r.value ==> Strip(items[j]) != Strip(stored))
    ensures MatchParameter(items, stored).None? ==> forall j :: 0 <= j < |items| ==> Strip(items[j]) != Strip(stored)
  {
    var ks := Stripped(items);
    var r := MatchParameter(items, stored);
    if r.Some? {
      forall j | 0 <= j < r.value ensures Strip(items[j]) != Strip(stored) {
        assert ks[j] == ks[..r.value][j];
      }
    } else {
      forall j | 0 <= j < |items| ensures Strip(items[j]) != Strip(stored) {
        assert ks[j] in ks;
      }
    }
  }

  /** What loading leaves in the window once the guard and the document check are passed. */
  datatype Loaded = Loaded(ok: bool, rows: seq<MappingEntry>, enabled: bool, paramIndex: int)

  /**
   * The grid is cleared and the box unticked; the first configuration for
   * (checklist, property) then restores the rows, the box (unticked when
   * the record does not say) and the parameter selection (kept when no
   * parameter matches).
   */
  function LoadFrom(cs: seq<Config>, checklistId: Option<string>, prop: Option<string>,
                    items: seq<string>, index: int): Loaded
  {
    if !Chosen(prop) || !Chosen(checklistId) then Loaded(false, [], false, index)
    else match FindConfig(cs, checklistId.value, prop.value)
      case None => Loaded(false, [], false, index)
      case Some(i) =>
        var c := cs[i];
        var m := if c.revitParameter != "" && items != [] then MatchParameter(items, c.revitParameter) else None;
        Loaded(true, RestoredRows(c), OrElse(c.mappingEnabled, false), if m.Some? then m.value else index)
  }

  /** The loop looking for the first stored configuration of (checklist, property). */
  method FindMatchingConfig(cs: seq<Config>, checklistId: string, prop: string) returns (found: Option<nat>)
    ensures found == FindConfig(cs, checklistId, prop)
  {
    for i := 0 to |cs|
      invariant forall j :: 0 <= j < i ==> cs[j].checklistId != checklistId || cs[j].property != prop
    {
      if cs[i].checklistId == checklistId && cs[i].property == prop {
        FindConfigAt(cs, checklistId, prop, i);
        return Some(i);
      }
    }
    return None;
  }

  /** The loop over the parameter box looking for the stored parameter. */
  method FindParameter(items: seq<string>, stored: string) returns (m: Option<nat>)
    ensures m == MatchParameter(items, stored)
  {
    m := FindFirst(Stripped(items), Strip(stored));
  }

  /** The position of the first `x` in `s`, looked for from the front. */
  method FindFirst<T(==)>(s: seq<T>, x: T) returns (m: Option<nat>)
    ensures m == FirstIndex(s, x)
  {
    for i := 0 to |s|
      invariant forall j :: 0 <= j < i ==> s[j] != x
    {
      if s[i] == x {
        FirstIndexAt(s, x, i);
        return Some(i);
      }
    }
    FirstIndexNone(s, x);
    return None;
  }

  lemma {:induction false} FirstIndexAt<T>(s: seq<T>, x: T, i: nat)
    requires i < |s| && s[i] == x && forall j :: 0 <= j < i ==> s[j] != x
    ensures FirstIndex(s, x) == Some(i)
  {
    if i > 0 {
      FirstIndexAt(s[1..], x, i - 1);
    }
  }

  lemma {:induction false} FirstIndexNone<T>(s: seq<T>, x: T)
    requires forall j :: 0 <= j < |s| ==> s[j] != x
    ensures FirstIndex(s, x) == None
  {
    if s != [] {
      FirstIndexNone(s[1..], x);
    }
  }

  /**
   * The body of the load once the guard and the document check are passed:
   * clear the grid, untick the box, then restore from the first matching
   * configuration.
   */
  method RestoreConfiguration(cs: seq<Config>, checklistId: Option<string>, prop: Option<string>,
                              items: seq<string>, index: int) returns (l: Loaded)
    ensures l == LoadFrom(cs, checklistId, prop, items, index)
  {
    l := Loaded(false, [], false, index);
    if !Chosen(prop) || !Chosen(checklistId) {
      return;
    }
    var found := FindMatchingConfig(cs, checklistId.value, prop.value);
    if found.None? {
      return;
    }
    var c := cs[found.value];
    if c.revitParameter != "" && items != [] {
      var m := FindParameter(items, c.revitParameter);
      if m.Some? {
        l := l.(paramIndex := m.value);
      }
    }
    l := l.(ok := true, rows := RestoredRows(c), enabled := OrElse(c.mappingEnabled, false));
  }

  /** The configuration `save_current_mapping` builds: the rows are kept only when mapping is enabled. */
  function MakeConfig(checklistId: string, checklistName: string, prop: string, param: string,
                      enabled: bool, rows: seq<MappingEntry>): Config
  {
    Config(checklistId, checklistName, prop, param, Some(enabled), Some(if enabled then rows else []))
  }

  /** Loading succeeds exactly for a chosen (checklist, property) with a stored configuration, and reads the first one. */
  lemma LoadFromProps(cs: seq<Config>, checklistId: Option<string>, prop: Option<string>, items: seq<string>, index: int)
    ensures var l := LoadFrom(cs, checklistId, prop, items, index);
      l.ok <==> (Chosen(prop) && Chosen(checklistId) &&
        exists i :: 0 <= i < |cs| && cs[i].checklistId == checklistId.value && cs[i].property == prop.value)
    ensures var l := LoadFrom(cs, checklistId, prop, items, index);
      !l.ok ==> l.rows == [] && !l.enabled && l.paramIndex == index
    ensures var l := LoadFrom(cs, checklistId, prop, items, index);
      l.ok ==> exists i :: (0 <= i < |cs| && cs[i].checklistId == checklistId.value && cs[i].property == prop.value &&
        (forall j :: 0 <= j < i ==> cs[j].checklistId != checklistId.value || cs[j].property != prop.value) &&
        l.rows == RestoredRows(cs[i]) && l.enabled == (cs[i].mappingEnabled == Some(true)))
  {
  }

  /**
   * Saving the window's mapping and loading it back restores the rows (when
   * mapping was enabled), the check box, and the parameter, when the box
   * lists it.
   */
  lemma SaveThenLoad(cs: seq<Config>, checklistId: string, checklistName: string, prop: string, param: string,
                     enabled: bool, rows: seq<MappingEntry>, items: seq<string>, index: int)
    requires checklistId != "" && prop != "" && param != ""
    requires param in items
    ensures var c := MakeConfig(checklistId, checklistName, prop, param, enabled, rows);
      var l := LoadFrom(Upsert(cs, c), Some(checklistId), Some(prop), items, index);
      l.ok && l.rows == (if enabled then rows else []) && l.enabled == enabled &&
      0 <= l.paramIndex < |items| && Strip(items[l.paramIndex]) == Strip(param)
  {
    var c := MakeConfig(checklistId, checklistName, prop, param, enabled, rows);
    UpsertFinds(cs, c);
    var j :| 0 <= j < |items| && items[j] == param;
    assert Stripped(items)[j] == Strip(param);
    MatchParameterProps(items, param);
  }

  // ---------------------------------------------------------------- search

  /** The checklist's name contains `needle`, compared in lower case. */
  function NameHas(needle: string): ChecklistRef -> bool
  {
    (c: ChecklistRef) => Contains(Lower(c.name), needle)
  }

  /** `checklist_search_changed`: the checklists whose name contains the text, ignoring case, in order. */
  function SearchFilter(all: seq<ChecklistRef>, text: string): seq<ChecklistRef>
  {
    if Lower(text) == "" then all else Filter(all, NameHas(Lower(text)))
  }

  /** Empty text shows every checklist; otherwise a checklist is shown exactly when its name contains the text. */
  lemma SearchFilterProps(all: seq<ChecklistRef>, text: string)
    ensures text == "" ==> SearchFilter(all, text) == all
    ensures forall c :: c in SearchFilter(all, text) <==> c in all && ContainsCI(c.name, text)
    ensures |SearchFilter(all, text)| <= |all|
  {
    if Lower(text) == "" {
      forall c: ChecklistRef ensures ContainsCI(c.name, text) {
        ContainsEmpty(Lower(c.name));
      }
    }
  }

  /** The search loop: clear the shown list and add back every checklist that passes. */
  method SearchChecklists(all: seq<ChecklistRef>, text: string) returns (shown: seq<ChecklistRef>)
    ensures shown == SearchFilter(all, text)
  {
    var needle := Lower(text);
    var keep := NameHas(needle);
    shown := [];
    for i := 0 to |all|
      invariant shown == if needle == "" then all[..i] else Filter(all[..i], keep)
    {
      assert all[..i + 1] == all[..i] + [all[i]];
      FilterAppend(all[..i], [all[i]], keep);
      if needle == "" || keep(all[i]) {
        shown := shown + [all[i]];
      }
    }
    assert all[..|all|] == all;
  }

  // ---------------------------------------------------------------- the window

  class ImporterWindow {
    /** Every checklist of the project, and the ones the search shows. */
    var allChecklists: seq<ChecklistRef>
    var checklists: seq<ChecklistRef>
    /** The selected checklist, its items, and the property list built from them. */
    var checklistId: Option<string>
    var checklistName: string
    var checklistItems: seq<Item>
    var properties: seq<PropertyValue>
    var propertyIndex: int
    /** The Revit parameter box. */
    var parameterItems: seq<string>
    var parameterIndex: int
    /** The value-mapping grid and its check box. */
    var mappings: seq<MappingEntry>
    var mappingEnabled: bool
    /** Set while a configuration is being loaded. */
    var isLoading: bool
    /** The configurations and the project id stored in the document, and how often the id was written. */
    var configs: seq<Config>
    var storedProjectId: Option<string>
    var projectIdWrites: nat
    /** The elements of the last import, and whether they can be isolated. */
    var updatedElements: seq<int>
    var isolateEnabled: bool

    constructor (projectId: Option<string>, stored: seq<Config>)
      ensures allChecklists == [] && checklists == [] && checklistItems == [] && properties == []
      ensures mappings == [] && !mappingEnabled && !isLoading && updatedElements == [] && !isolateEnabled
      ensures configs == stored && storedProjectId == projectId && projectIdWrites == 0
      ensures checklistId == None && propertyIndex == -1 && parameterIndex == -1
    {
      allChecklists, checklists, checklistItems, properties := [], [], [], [];
      mappings, mappingEnabled, isLoading, updatedElements, isolateEnabled := [], false, false, [], false;
      configs, storedProjectId, projectIdWrites := stored, projectId, 0;
      checklistId, checklistName, propertyIndex := None, "", -1;
      parameterItems, parameterIndex := [], -1;
    }

    /** The property selected in the property box. */
    function SelectedProperty(): Option<string>
      reads this`properties, this`propertyIndex
    {
      if 0 <= propertyIndex < |properties| then Some(properties[propertyIndex].name) else None
    }

    /** The parameter selected in the parameter box. */
    function SelectedParameter(): Option<string>
      reads this`parameterItems, this`parameterIndex
    {
      if 0 <= parameterIndex < |parameterItems| then Some(parameterItems[parameterIndex]) else None
    }

    /** `extract_available_properties`: nothing happens without items; otherwise the list is rebuilt and its first entry selected. */
    method ExtractAvailableProperties()
      modifies this`properties, this`propertyIndex
      ensures checklistItems == [] ==> properties == old(properties) && propertyIndex == old(propertyIndex)
      ensures checklistItems != [] ==> properties == Properties(checklistItems)
      ensures checklistItems != [] ==> propertyIndex == if properties != [] then 0 else -1
    {
      if checklistItems == [] {
        return;
      }
      properties := ExtractProperties(checklistItems);
      propertyIndex := if properties != [] then 0 else -1;
    }

    /** `checklist_search_changed`: the shown list is cleared and refilled from all checklists. */
    method ChecklistSearchChanged(text: string)
      modifies this`checklists
      ensures checklists == SearchFilter(allChecklists, text)
    {
      checklists := SearchChecklists(allChecklists, text);
    }

    /** `save_project_id`: the id is stored, and written only when it differs from the stored one. */
    method SaveProjectId(projectId: string) returns (ok: bool)
      modifies this`storedProjectId, this`projectIdWrites
      ensures ok && storedProjectId == Some(projectId)
      ensures projectIdWrites == old(projectIdWrites) + if old(storedProjectId) == Some(projectId) then 0 else 1
    {
      if storedProjectId != Some(projectId) {
        storedProjectId := Some(projectId);
        projectIdWrites := projectIdWrites + 1;
      }
      ok := true;
    }

    /** The configuration `save_current_mapping` builds from the window. */
    function NewConfig(): Config
      reads this
      requires SelectedProperty().Some? && SelectedParameter().Some? && checklistId.Some?
    {
      MakeConfig(checklistId.value, checklistName, SelectedProperty().value, SelectedParameter().value,
                 mappingEnabled, mappings)
    }

    /**
     * `save_current_mapping`: nothing is saved without a property, a
     * parameter and a checklist; otherwise the configuration for (checklist,
     * property) is replaced or appended, and kept when the storage write
     * succeeds.
     */
    method SaveCurrentMapping(writeOk: bool) returns (ok: bool)
      modifies this`configs
      ensures !(Chosen(SelectedProperty()) && Chosen(SelectedParameter()) && Chosen(checklistId)) ==>
        !ok && configs == old(configs)
      ensures Chosen(SelectedProperty()) && Chosen(SelectedParameter()) && Chosen(checklistId) ==>
        ok == writeOk && configs == if writeOk then Upsert(old(configs), NewConfig()) else old(configs)
    {
      var prop, param := SelectedProperty(), SelectedParameter();
      if !Chosen(prop) || !Chosen(param) || !Chosen(checklistId) {
        return false;
      }
      var c := NewConfig();
      var cs := configs;
      var replaced := false;
      for i := 0 to |cs|
        invariant !replaced ==> cs == configs && forall j :: 0 <= j < i ==> cs[j].checklistId != c.checklistId || cs[j].property != c.property
        invariant replaced ==> cs == Upsert(configs, c)
      {
        if cs[i].checklistId == c.checklistId && cs[i].property == c.property {
          FindConfigAt(cs, c.checklistId, c.property, i);
          cs := cs[i := c];
          replaced := true;
          break;
        }
      }
      if !replaced {
        cs := cs + [c];
      }
      if writeOk {
        configs := cs;
      }
      ok := writeOk;
    }

    /**
     * `load_mapping_configuration`: refused while a load is running; without
     * a document nothing changes; otherwise the grid is cleared and the
     * check box unticked, and the first configuration for (checklist,
     * property) restores the parameter selection, the rows and the check box.
     * The running flag is back to its old value on every exit.
     */
    method LoadMappingConfiguration(hasDocument: bool) returns (ok: bool)
      modifies this`isLoading, this`mappings, this`mappingEnabled, this`parameterIndex
      ensures isLoading == old(isLoading)
      ensures old(isLoading) || !hasDocument ==>
        !ok && mappings == old(mappings) && mappingEnabled == old(mappingEnabled) && parameterIndex == old(parameterIndex)
      ensures !old(isLoading) && hasDocument ==>
        Loaded(ok, mappings, mappingEnabled, parameterIndex) ==
        LoadFrom(configs, checklistId, SelectedProperty(), parameterItems, old(parameterIndex))
    {
      if isLoading {
        return false;
      }
      isLoading := true;
      if !hasDocument {
        isLoading := false;
        return false;
      }
      var l := RestoreConfiguration(configs, checklistId, SelectedProperty(), parameterItems, parameterIndex);
      mappings, mappingEnabled, parameterIndex := l.rows, l.enabled, l.paramIndex;
      ok := l.ok;
      isLoading := false;
    }

    /** `add_new_row_button_click`: an empty row at the end of the grid. */
    method AddNewRow()
      modifies this`mappings
      ensures mappings == old(mappings) + [MappingEntry("", "")]
    {
      mappings := mappings + [MappingEntry("", "")];
    }

    /** `remove_row_button_click`: the selected row leaves the grid; nothing happens without a selection. */
    method RemoveRow(selected: int)
      modifies this`mappings
      ensures 0 <= selected < |old(mappings)| ==> mappings == old(mappings)[..selected] + old(mappings)[selected + 1..]
      ensures !(0 <= selected < |old(mappings)|) ==> mappings == old(mappings)
    {
      if 0 <= selected < |mappings| {
        mappings := mappings[..selected] + mappings[selected + 1..];
      }
    }

    /**
     * `import_button_click`: needs a property and a parameter; saves the
     * mapping first when it is enabled; stops when the service returns no
     * items; otherwise writes every matched item's value and enables
     * isolation exactly when something was updated.
     */
    method ImportButtonClick(fetched: seq<Item>, elements: seq<Element>, writeOk: bool)
      returns (es': seq<Element>, processed: nat, updated: nat)
      modifies this`configs, this`updatedElements, this`isolateEnabled
      ensures !(Chosen(SelectedProperty()) && Chosen(SelectedParameter())) ==>
        es' == elements && processed == 0 && updated == 0 &&
        configs == old(configs) && updatedElements == old(updatedElements) && isolateEnabled == old(isolateEnabled)
      ensures Chosen(SelectedProperty()) && Chosen(SelectedParameter()) && fetched == [] ==>
        es' == elements && processed == 0 && updated == 0 && !isolateEnabled && updatedElements == old(updatedElements)
      ensures Chosen(SelectedProperty()) && Chosen(SelectedParameter()) && fetched != [] ==>
        var r := Import(elements, ElementIndex(elements), ItemIndex(fetched), ItemOrder(fetched),
                        SelectedProperty().value, SelectedParameter().value, ValueMapping(mappingEnabled, mappings));
        es' == r.0 && updatedElements == r.1 && processed == |ItemOrder(fetched)| &&
        updated == |updatedElements| && isolateEnabled == (updated > 0)
      ensures !mappingEnabled ==> configs == old(configs)
      ensures mappingEnabled && Chosen(SelectedProperty()) && Chosen(SelectedParameter()) ==>
        configs == if Chosen(checklistId) && writeOk then Upsert(old(configs), NewConfig()) else old(configs)
    {
      var prop, param := SelectedProperty(), SelectedParameter();
      es', processed, updated := elements, 0, 0;
      if !Chosen(prop) || !Chosen(param) {
        return;
      }
      if mappingEnabled {
        var saved := SaveCurrentMapping(writeOk);
      }
      isolateEnabled := false;
      if fetched == [] {
        return;
      }
      var index := BuildElementIndex(elements);
      var items, order := BuildItemIndex(fetched);
      var vm := BuildValueMapping(mappingEnabled, mappings);
      var ids;
      es', processed, ids := ImportItems(elements, index, items, order, prop.value, param.value, vm);
      updatedElements := ids;
      updated := |ids|;
      isolateEnabled := updated > 0;
    }
  }
}
