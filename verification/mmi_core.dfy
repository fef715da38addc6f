/**
 * MMI core operations: the stored parameter name, writing an MMI value to
 * elements, and the monitor configuration kept in the document's
 * extensible storage.
 */
module MmiCore {
  import opened Common
  import opened MmiUtils

  /**
   * The settings entity of the MMI schema. A flag that was never written is
   * absent from `flags` (read back as None).
   */
  datatype MmiEntity = MmiEntity(paramName: string, lastUsed: string, validated: bool, flags: map<string, bool>)

  /** A new entity as the schema creates it. */
  const FreshEntity := MmiEntity("", "", false, map[])

  /** Display names of the monitor options. */
  const ValidateName := "\U{2705} Validate MMI"
  const PinName := "\U{1F512} Pin elements >=400"
  const WarnName := "\U{26A0}\U{FE0F} Warn when moving elements >400"
  const CheckName := "\U{1F504} Check MMI after sync"

  /** Display name to schema field of the monitor options. */
  const ConfigKeys: map<string, string> := map[
    ValidateName := "validate_mmi",
    PinName := "pin_elements",
    WarnName := "warn_on_move",
    CheckName := "check_mmi_after_sync"
  ]

  const SchemaKeys: set<string> := {"validate_mmi", "pin_elements", "warn_on_move", "check_mmi_after_sync"}

  /** Four options, each with its own schema field. */
  lemma ConfigKeysShape()
    ensures ConfigKeys.Keys == {ValidateName, PinName, WarnName, CheckName}
    ensures ConfigKeys.Values == SchemaKeys
    ensures forall a, b :: a in ConfigKeys && b in ConfigKeys && ConfigKeys[a] == ConfigKeys[b] ==> a == b
  {
    assert ConfigKeys[ValidateName] == "validate_mmi";
    assert ConfigKeys[PinName] == "pin_elements";
    assert ConfigKeys[WarnName] == "warn_on_move";
    assert ConfigKeys[CheckName] == "check_mmi_after_sync";
  }

  // ---------------------------------------------------------------- name

  /**
   * `get_mmi_parameter_name` over the data-storage elements in collector
   * order (None: an entity of another schema or an invalid one).
   */
  function StoredName(st: seq<Option<MmiEntity>>): (r: string)
  {
    if st == [] then "MMI"
    else if st[0].Some? && st[0].value.paramName != "" then st[0].value.paramName
    else StoredName(st[1..])
  }

  predicate NamedAt(st: seq<Option<MmiEntity>>, k: int)
  {
    0 <= k < |st| && st[k].Some? && st[k].value.paramName != ""
  }

  /** The name is the first non-empty stored one, else "MMI". */
  lemma {:induction false} StoredNameFirst(st: seq<Option<MmiEntity>>)
    ensures (forall k :: !NamedAt(st, k)) ==> StoredName(st) == "MMI"
    ensures forall k :: NamedAt(st, k) && (forall j :: 0 <= j < k ==> !NamedAt(st, j)) ==>
      StoredName(st) == st[k].value.paramName
  {
    if st != [] {
      StoredNameFirst(st[1..]);
      assert forall k :: 1 <= k < |st| ==> (NamedAt(st, k) <==> NamedAt(st[1..], k - 1));
      if !NamedAt(st, 0) {
        forall k | NamedAt(st, k) && (forall j :: 0 <= j < k ==> !NamedAt(st, j))
          ensures StoredName(st) == st[k].value.paramName
        {
          assert k > 0;
          assert forall j :: 0 <= j < k - 1 ==> !NamedAt(st[1..], j) by {
            forall j | 0 <= j < k - 1 ensures !NamedAt(st[1..], j) {
              assert !NamedAt(st, j + 1);
            }
          }
        }
        if forall k :: !NamedAt(st, k) {
          assert forall k :: !NamedAt(st[1..], k) by {
            forall k ensures !NamedAt(st[1..], k) {
              assert !NamedAt(st, k + 1);
            }
          }
        }
      }
    }
  }

  /** Index of the first valid entity: what `get_or_create_mmi_storage` finds. */
  function FirstValid(st: seq<Option<MmiEntity>>): (r: Option<nat>)
    ensures r.Some? ==> r.value < |st| && st[r.value].Some? && forall j :: 0 <= j < r.value ==> st[j].None?
    ensures r.None? ==> forall j :: 0 <= j < |st| ==> st[j].None?
  {
    if st == [] then None
    else if st[0].Some? then Some(0)
    else match FirstValid(st[1..])
      case None => None
      case Some(k) => Some(k + 1)
  }

  lemma FirstValidAt(st: seq<Option<MmiEntity>>, k: nat)
    requires k < |st| && st[k].Some? && forall j :: 0 <= j < k ==> st[j].None?
    ensures FirstValid(st) == Some(k)
  {
  }

  // ---------------------------------------------------------------- set value

  /** The MMI parameter can be written: present, not read-only, a String. */
  predicate Writable(e: MmiElement, name: string)
  {
    name in e.params && !e.params[name].readOnly && e.params[name].storage == StrStorage
  }

  function WriteMmi(e: MmiElement, name: string, value: string): (r: MmiElement)
  {
    e.(params := e.params[name := Param(StrStorage, true, false, StrVal(value))])
  }

  lemma WriteMmiStable(e: MmiElement, name: string, value: string)
    requires Writable(e, name)
    ensures Writable(WriteMmi(e, name, value), name)
    ensures WriteMmi(WriteMmi(e, name, value), name, value) == WriteMmi(e, name, value)
  {
  }

  /** The ids that resolve to an element, in order. */
  function Resolved(ids: seq<int>, els: map<int, MmiElement>): (r: seq<int>)
    ensures |r| <= |ids|
    ensures forall id :: id in r <==> id in ids && id in els
  {
    if ids == [] then []
    else Resolved(ids[..|ids| - 1], els) + (if ids[|ids| - 1] in els then [ids[|ids| - 1]] else [])
  }

  /** Outcome of `set_mmi_value`'s write loop. */
  datatype SetOutcome = SetOutcome(success: nat, failed: seq<int>, els: map<int, MmiElement>)

  function SetLoop(els: map<int, MmiElement>, ids: seq<int>, name: string, value: string): (r: SetOutcome)
    requires forall id :: id in ids ==> id in els
    ensures r.els.Keys == els.Keys
  {
    if ids == [] then SetOutcome(0, [], els)
    else
      var o := SetLoop(els, ids[..|ids| - 1], name, value);
      var id := ids[|ids| - 1];
      if Writable(o.els[id], name) then SetOutcome(o.success + 1, o.failed, o.els[id := WriteMmi(o.els[id], name, value)])
      else SetOutcome(o.success, o.failed + [id], o.els)
  }

  /**
   * Every resolved element either succeeds or lands in `failed`; it
   * succeeds exactly when its parameter is writable, and then (and only
   * then) holds the new value.
   */
  lemma {:induction false} SetLoopOutcome(els: map<int, MmiElement>, ids: seq<int>, name: string, value: string)
    requires forall id :: id in ids ==> id in els
    ensures SetLoop(els, ids, name, value).success + |SetLoop(els, ids, name, value).failed| == |ids|
    ensures forall id :: id in SetLoop(els, ids, name, value).failed <==> id in ids && !Writable(els[id], name)
    ensures forall id :: id in els ==>
      SetLoop(els, ids, name, value).els[id] ==
        if id in ids && Writable(els[id], name) then WriteMmi(els[id], name, value) else els[id]
  {
    if ids != [] {
      var init := ids[..|ids| - 1];
      var id := ids[|ids| - 1];
      assert ids == init + [id];
      SetLoopOutcome(els, init, name, value);
      var o := SetLoop(els, init, name, value);
      if id in init && Writable(els[id], name) {
        WriteMmiStable(els[id], name, value);
      }
    }
  }

  lemma SetLoopSnoc(els: map<int, MmiElement>, ids: seq<int>, name: string, value: string, i: int)
    requires 0 <= i < |ids| && forall id :: id in ids ==> id in els
    ensures SetLoop(els, ids[..i + 1], name, value) ==
      var o := SetLoop(els, ids[..i], name, value);
      if Writable(o.els[ids[i]], name) then SetOutcome(o.success + 1, o.failed, o.els[ids[i] := WriteMmi(o.els[ids[i]], name, value)])
      else SetOutcome(o.success, o.failed + [ids[i]], o.els)
  {
    assert ids[..i + 1][..i] == ids[..i];
  }

  method ResolveIds(ids: seq<int>, els: map<int, MmiElement>) returns (r: seq<int>)
    ensures r == Resolved(ids, els)
  {
    r := [];
    var i := 0;
    while i < |ids|
      invariant 0 <= i <= |ids|
      invariant r == Resolved(ids[..i], els)
    {
      assert ids[..i + 1][..i] == ids[..i];
      if ids[i] in els {
        r := r + [ids[i]];
      }
      i := i + 1;
    }
    assert ids[..i] == ids;
  }

  /** The write loop of `set_mmi_value` over resolved ids. */
  method WriteLoop(els: map<int, MmiElement>, ids: seq<int>, name: string, value: string)
    returns (o: SetOutcome)
    requires forall id :: id in ids ==> id in els
    ensures o == SetLoop(els, ids, name, value)
  {
    o := SetOutcome(0, [], els);
    var i := 0;
    while i < |ids|
      invariant 0 <= i <= |ids|
      invariant o == SetLoop(els, ids[..i], name, value)
    {
      SetLoopSnoc(els, ids, name, value, i);
      var id := ids[i];
      if Writable(o.els[id], name) {
        o := SetOutcome(o.success + 1, o.failed, o.els[id := WriteMmi(o.els[id], name, value)]);
      } else {
        o := SetOutcome(o.success, o.failed + [id], o.els);
      }
      i := i + 1;
    }
    assert ids[..i] == ids;
  }

  /** The document state the MMI tools read and write. */
  class MmiDocument {
    /** The data-storage elements, in collector order. */
    var storages: seq<Option<MmiEntity>>
    var elements: map<int, MmiElement>
    /** Transactions committed. */
    var commits: nat

    constructor(st: seq<Option<MmiEntity>>, els: map<int, MmiElement>)
      ensures storages == st && elements == els && commits == 0
    {
      storages := st;
      elements := els;
      commits := 0;
    }

    function ParameterName(): (r: string)
      reads this
    {
      StoredName(storages)
    }

    /**
     * `set_mmi_value` on element ids: (0, []) for no ids or none that
     * resolve; otherwise the writable ones are written and counted, the
     * others' ids returned.
     */
    method SetMmiValue(ids: seq<int>, value: string, paramName: Option<string>) returns (success: nat, failed: seq<int>)
      modifies `elements
      ensures var name := if paramName.Some? && paramName.value != "" then paramName.value else StoredName(storages);
        var o := SetLoop(old(elements), Resolved(ids, old(elements)), name, value);
        success == o.success && failed == o.failed && elements == o.els
    {
      var name := if paramName.Some? && paramName.value != "" then paramName.value else StoredName(storages);
      if ids == [] {
        return 0, [];
      }
      var resolved := ResolveIds(ids, elements);
      if resolved == [] {
        return 0, [];
      }
      var o := WriteLoop(elements, resolved, name, value);
      elements := o.els;
      success, failed := o.success, o.failed;
    }

    /**
     * `set_selection_mmi_value`: False with no selection; otherwise the
     * value is written inside one committed transaction and the result is
     * whether any element succeeded.
     */
    method SetSelectionMmiValue(selection: seq<int>, value: string) returns (ok: bool)
      modifies `elements, `commits
      ensures selection == [] ==> !ok && elements == old(elements) && commits == old(commits)
      ensures selection != [] ==> (commits == old(commits) + 1 &&
        var o := SetLoop(old(elements), Resolved(selection, old(elements)), StoredName(storages), value);
        elements == o.els && (ok <==> o.success > 0))
    {
      if selection == [] {
        return false;
      }
      var success, failed := SetMmiValue(selection, value, None);
      commits := commits + 1;
      ok := success > 0;
    }

    /**
     * `get_or_create_mmi_storage`: the first valid entity, else a new one
     * appended when creation succeeds.
     */
    method GetOrCreate(createOk: bool) returns (idx: Option<nat>)
      modifies `storages
      ensures FirstValid(old(storages)).Some? ==> idx == FirstValid(old(storages)) && storages == old(storages)
      ensures FirstValid(old(storages)).None? && createOk ==>
        storages == old(storages) + [Some(FreshEntity)] && idx == Some(|old(storages)|)
      ensures FirstValid(old(storages)).None? && !createOk ==> idx.None? && storages == old(storages)
      ensures idx.Some? ==> idx.value < |storages| && storages[idx.value] == Some(StoredEntity(old(storages)))
      ensures idx.Some? ==> forall j :: 0 <= j < idx.value ==> storages[j].None?
    {
      idx := FirstValid(storages);
      if idx.None? && createOk {
        storages := storages + [Some(FreshEntity)];
        idx := Some(|storages| - 1);
      }
    }

    /** `save_mmi_parameter`: writes the name, date and validated flag only when the name differs. */
    method SaveMmiParameter(name: string, now: string, createOk: bool) returns (ok: bool)
      modifies `storages
      ensures ok <==> FirstValid(old(storages)).Some? || createOk
      ensures ok ==> StoredEntity(storages) == SavedName(StoredEntity(old(storages)), name, now)
      ensures !ok ==> storages == old(storages)
    {
      var idx := GetOrCreate(createOk);
      if idx.None? {
        return false;
      }
      var e := storages[idx.value].value;
      if e.paramName != name {
        storages := storages[idx.value := Some(e.(paramName := name, lastUsed := now, validated := true))];
      }
      FirstValidAt(storages, idx.value);
      ok := true;
    }

    /**
     * `save_monitor_config`: every option whose display name is known is
     * compared with the stored flag (absent counts as False) and written,
     * with the date, only when it differs.
     */
    method SaveMonitorConfig(selected: seq<(string, bool)>, now: string, createOk: bool) returns (ok: bool)
      modifies `storages
      ensures ok <==> FirstValid(old(storages)).Some? || createOk
      ensures ok ==> StoredEntity(storages) == ApplyConfig(StoredEntity(old(storages)), selected, now)
      ensures !ok ==> storages == old(storages)
    {
      var idx := GetOrCreate(createOk);
      if idx.None? {
        return false;
      }
      var e := ApplyConfigLoop(storages[idx.value].value, selected, now);
      storages := storages[idx.value := Some(e)];
      FirstValidAt(storages, idx.value);
      ok := true;
    }

    /**
     * `load_monitor_config`: the four flags keyed by display or schema
     * name; all False when there is no storage.
     */
    method LoadMonitorConfig(useDisplayNames: bool, createOk: bool) returns (config: map<string, bool>)
      modifies `storages
      ensures FirstValid(old(storages)).Some? || createOk ==>
        config == ConfigView(StoredEntity(storages).flags, useDisplayNames)
      ensures FirstValid(old(storages)).None? && !createOk ==> config == ConfigView(map[], useDisplayNames)
      ensures FirstValid(old(storages)).Some? || !createOk ==> storages == old(storages)
      ensures FirstValid(old(storages)).None? && createOk ==> storages == old(storages) + [Some(FreshEntity)]
    {
      var idx := GetOrCreate(createOk);
      if idx.None? {
        config := ConfigView(map[], useDisplayNames);
        return;
      }
      config := ConfigView(storages[idx.value].value.flags, useDisplayNames);
    }
  }

  /** The entity `get_or_create_mmi_storage` finds in `st` (a fresh one when there is none). */
  function StoredEntity(st: seq<Option<MmiEntity>>): (e: MmiEntity)
  {
    match FirstValid(st)
    case Some(k) => st[k].value
    case None => FreshEntity
  }

  function SavedName(e: MmiEntity, name: string, now: string): (r: MmiEntity)
  {
    if e.paramName != name then e.(paramName := name, lastUsed := now, validated := true) else e
  }

  /** A stored flag, False when absent. */
  function Flag(flags: map<string, bool>, key: string): bool
  {
    key in flags && flags[key]
  }

  /** One option of `save_monitor_config`. */
  function ApplyOne(e: MmiEntity, display: string, value: bool, now: string): (r: MmiEntity)
  {
    if display in ConfigKeys && Flag(e.flags, ConfigKeys[display]) != value then
      e.(flags := e.flags[ConfigKeys[display] := value], lastUsed := now)
    else e
  }

  function ApplyConfig(e: MmiEntity, selected: seq<(string, bool)>, now: string): (r: MmiEntity)
  {
    if selected == [] then e
    else
      var last := selected[|selected| - 1];
      ApplyOne(ApplyConfig(e, selected[..|selected| - 1], now), last.0, last.1, now)
  }

  method ApplyConfigLoop(e0: MmiEntity, selected: seq<(string, bool)>, now: string) returns (e: MmiEntity)
    ensures e == ApplyConfig(e0, selected, now)
  {
    e := e0;
    var i := 0;
    while i < |selected|
      invariant 0 <= i <= |selected|
      invariant e == ApplyConfig(e0, selected[..i], now)
    {
      assert selected[..i + 1][..i] == selected[..i];
      var display := selected[i].0;
      if display in ConfigKeys {
        var key := ConfigKeys[display];
        if Flag(e.flags, key) != selected[i].1 {
          e := e.(flags := e.flags[key := selected[i].1], lastUsed := now);
        }
      }
      i := i + 1;
    }
    assert selected[..i] == selected;
  }

  /** The last value selected for schema field `key`, if any option maps to it. */
  function LastFor(selected: seq<(string, bool)>, key: string): (r: Option<bool>)
  {
    if selected == [] then None
    else
      var last := selected[|selected| - 1];
      if last.0 in ConfigKeys && ConfigKeys[last.0] == key then Some(last.1)
      else LastFor(selected[..|selected| - 1], key)
  }

  /**
   * After saving, each field reads as the last value selected for it, or
   * as before; unknown display names change nothing.
   */
  lemma {:induction false} ApplyConfigFlags(e: MmiEntity, selected: seq<(string, bool)>, now: string)
    ensures forall key :: Flag(ApplyConfig(e, selected, now).flags, key) == OrElse(LastFor(selected, key), Flag(e.flags, key))
  {
    if selected != [] {
      ApplyConfigFlags(e, selected[..|selected| - 1], now);
    }
  }

  /**
   * Saving touches only the four schema fields and the date: no other
   * field is created or changed, the stored name keeps its value, and the
   * date is either kept or `now`.
   */
  lemma {:induction false} ApplyConfigFrame(e: MmiEntity, selected: seq<(string, bool)>, now: string)
    ensures var r := ApplyConfig(e, selected, now);
      r.paramName == e.paramName && r.validated == e.validated &&
      (forall key :: key in r.flags && key !in e.flags ==> key in SchemaKeys) &&
      (forall key :: key in e.flags ==> key in r.flags) &&
      (forall key :: key !in SchemaKeys && key in e.flags ==> r.flags[key] == e.flags[key]) &&
      (r.lastUsed == e.lastUsed || r.lastUsed == now)
  {
    if selected != [] {
      ApplyConfigFrame(e, selected[..|selected| - 1], now);
      ConfigKeysShape();
    }
  }

  /** When every known option already matches its stored flag, nothing is written, not even the date. */
  lemma {:induction false} ApplyConfigNoChange(e: MmiEntity, selected: seq<(string, bool)>, now: string)
    requires forall i :: 0 <= i < |selected| && selected[i].0 in ConfigKeys ==>
      selected[i].1 == Flag(e.flags, ConfigKeys[selected[i].0])
    ensures ApplyConfig(e, selected, now) == e
  {
    if selected != [] {
      ApplyConfigNoChange(e, selected[..|selected| - 1], now);
    }
  }

  /** The dictionary `load_monitor_config` returns. */
  function ConfigView(flags: map<string, bool>, useDisplayNames: bool): (r: map<string, bool>)
  {
    if useDisplayNames then map d | d in ConfigKeys :: Flag(flags, ConfigKeys[d])
    else map k | k in SchemaKeys :: Flag(flags, k)
  }

  /** The loaded configuration has exactly the four options, all False without stored flags. */
  lemma ConfigViewShape(flags: map<string, bool>, useDisplayNames: bool)
    ensures useDisplayNames ==> ConfigView(flags, useDisplayNames).Keys == ConfigKeys.Keys
    ensures !useDisplayNames ==> ConfigView(flags, useDisplayNames).Keys == SchemaKeys
    ensures flags == map[] ==> forall k :: k in ConfigView(flags, useDisplayNames) ==> !ConfigView(flags, useDisplayNames)[k]
    ensures forall d :: useDisplayNames && d in ConfigKeys ==> ConfigView(flags, useDisplayNames)[d] == Flag(flags, ConfigKeys[d])
  {
  }

  /** Saving a configuration and loading it back gives the saved flags. */
  lemma SaveLoad(e: MmiEntity, selected: seq<(string, bool)>, now: string, d: string)
    requires d in ConfigKeys && LastFor(selected, ConfigKeys[d]).Some?
    ensures ConfigView(ApplyConfig(e, selected, now).flags, true)[d] == LastFor(selected, ConfigKeys[d]).value
  {
    ApplyConfigFlags(e, selected, now);
  }

  /** Saving the stored name again changes nothing. */
  lemma SavedNameIdempotent(e: MmiEntity, name: string, now: string, later: string)
    ensures SavedName(SavedName(e, name, now), name, later) == SavedName(e, name, now)
    ensures SavedName(e, name, now).paramName == name
    ensures e.paramName == name ==> SavedName(e, name, now) == e
  {
  }
}
