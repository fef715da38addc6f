/**
 * The shared selector dialog of the 3D zone tools: one list entry per area
 * or room, a search box that filters the entries, and Create/Cancel buttons
 * that hand the chosen elements (or nothing) back to the caller.
 */
module SelectorDialog {
  import opened Common
  import opened Strs

  /**
   * What the spatial adapter reports for an element: its number, its name,
   * its level id, and its phase id (outer None when the adapter cannot report
   * phases, inner None when the element has none).
   */
  datatype AdapterView = AdapterView(number: string, name: string, levelId: Option<int>, phaseId: Option<Option<int>>)

  /**
   * `SpatialElementItem`: the element, whether it already has a zone, the
   * extra attributes naming the element, and the texts the list shows.
   */
  datatype SpatialElementItem = SpatialElementItem(
    element: int, hasZone: bool, attrs: map<string, int>,
    elementNumber: string, elementName: string, levelName: string, phaseName: string,
    existsDisplay: string, displayText: string)

  /**
   * The mark the source file holds: the three characters a UTF-8 check mark
   * turns into when its bytes are read as Windows-1252 ("\u00e2\u0153\u201c").
   */
  const CheckMark: string := "\U{00E2}\U{0153}\U{201C}"

  /** The name of the element `id` names in the document, or "?". */
  function NameOr(names: map<int, string>, id: Option<int>): string
  {
    if id.Some? && id.value in names then names[id.value] else "?"
  }

  /** Every extra attribute holds the item's own element. */
  predicate AttrsHoldElement(item: SpatialElementItem)
  {
    forall a :: a in item.attrs ==> item.attrs[a] == item.element
  }

  /**
   * "<icon> <number> - <name> (<level>)": it starts with "(*)" exactly when a
   * zone exists (three spaces otherwise), then shows the number and name,
   * and ends with the level in brackets.
   */
  function DisplayText(hasZone: bool, number: string, name: string, level: string): (d: string)
    ensures IsPrefix("(*)", d) <==> hasZone
    ensures |d| >= 3 && IsPrefix(" " + number + " - " + name + " (", d[3..])
    ensures |d| >= |level| + 1 && d[|d| - |level| - 1..] == level + ")"
  {
    var icon := if hasZone then "(*)" else "   ";
    var middle := " " + number + " - " + name + " (";
    var tail := middle + (level + ")");
    var display := icon + tail;
    assert display[..3] == icon;
    assert display[3..] == tail;
    assert tail[..|middle|] == middle;
    assert display[|display| - |level| - 1..] == level + ")";
    display
  }

  /**
   * The entry of an element: without an adapter the number is "?" and the
   * name "Unnamed"; an unresolved level or phase shows "?"; the check mark
   * column shows a mark exactly when a zone exists.
   */
  function ItemOf(element: int, names: map<int, string>, hasZone: bool, adapter: Option<AdapterView>,
                  attrName: Option<string>): (r: SpatialElementItem)
    ensures r.element == element && r.hasZone == hasZone && AttrsHoldElement(r)
    ensures attrName.Some? && attrName.value != "" ==> attrName.value in r.attrs
    ensures adapter.None? ==> r.elementNumber == "?" && r.elementName == "Unnamed"
    ensures adapter.Some? ==> r.elementNumber == adapter.value.number && r.elementName == adapter.value.name
    ensures adapter.None? ==> r.levelName == "?" && r.phaseName == "?"
    ensures adapter.Some? && adapter.value.levelId.Some? && adapter.value.levelId.value in names ==>
      r.levelName == names[adapter.value.levelId.value]
    ensures adapter.Some? && adapter.value.phaseId.Some? && adapter.value.phaseId.value.Some? ==>
      (adapter.value.phaseId.value.value in names ==> r.phaseName == names[adapter.value.phaseId.value.value])
    ensures (r.existsDisplay != "") <==> hasZone
    ensures hasZone ==> r.existsDisplay == CheckMark
    ensures r.displayText == DisplayText(hasZone, r.elementNumber, r.elementName, r.levelName)
  {
    var number := if adapter.Some? then adapter.value.number else "?";
    var name := if adapter.Some? then adapter.value.name else "Unnamed";
    var level := NameOr(names, if adapter.Some? then adapter.value.levelId else None);
    var phase := if adapter.Some? && adapter.value.phaseId.Some? then NameOr(names, adapter.value.phaseId.value) else "?";
    var attrs := if attrName.Some? && attrName.value != "" then map[attrName.value := element] else map[];
    SpatialElementItem(element, hasZone, attrs, number, name, level, phase,
                       if hasZone then CheckMark else "", DisplayText(hasZone, number, name, level))
  }

  // ---------------------------------------------------------------- search

  /** The entry's display text contains `needle`, compared in lower case. */
  function DisplayHas(needle: string): SpatialElementItem -> bool
  {
    (item: SpatialElementItem) => Contains(Lower(item.displayText), needle)
  }

  /** `searchTextBox_TextChanged`: the entries whose display text contains the lower-cased text, in order; all of them for empty text. */
  function Search(all: seq<SpatialElementItem>, text: string): seq<SpatialElementItem>
  {
    if Lower(text) == "" then all else Filter(all, DisplayHas(Lower(text)))
  }

  /**
   * Empty text restores every entry; otherwise an entry is shown exactly when
   * its display text contains the text, ignoring case; and typing more only
   * ever hides entries.
   */
  lemma SearchProps(all: seq<SpatialElementItem>, text: string, part: string)
    ensures text == "" ==> Search(all, text) == all
    ensures forall x :: x in Search(all, text) <==> x in all && ContainsCI(x.displayText, text)
    ensures Contains(text, part) ==> forall x :: x in Search(all, text) ==> x in Search(all, part)
  {
    forall x: SpatialElementItem | Lower(text) == "" ensures ContainsCI(x.displayText, text) {
      ContainsEmpty(Lower(x.displayText));
    }
    forall x: SpatialElementItem | Lower(part) == "" ensures ContainsCI(x.displayText, part) {
      ContainsEmpty(Lower(x.displayText));
    }
    if Contains(text, part) {
      forall x | x in Search(all, text) ensures x in Search(all, part) {
        ContainsCINarrow(x.displayText, text, part);
      }
    }
  }

  // ---------------------------------------------------------------- the window

  /** The element an entry hands back: the named attribute when the entry has it, else its element. */
  function ChosenElement(item: SpatialElementItem, attr: string): int
  {
    if attr in item.attrs then item.attrs[attr] else item.element
  }

  /**
   * The elements of the chosen entries, in order; for entries built by
   * `ItemOf` the attribute and the element agree, so these are exactly the
   * entries' elements.
   */
  function ChosenElements(selected: seq<SpatialElementItem>, attr: string): (r: seq<int>)
    ensures |r| == |selected| && forall i :: 0 <= i < |selected| ==> r[i] == ChosenElement(selected[i], attr)
    ensures forall i :: 0 <= i < |selected| && AttrsHoldElement(selected[i]) ==> r[i] == selected[i].element
  {
    seq(|selected|, i requires 0 <= i < |selected| => ChosenElement(selected[i], attr))
  }

  class SelectorWindow {
    var allItems: seq<SpatialElementItem>
    var filteredItems: seq<SpatialElementItem>
    /** None until Create is clicked, and after Cancel. */
    var selectedElements: Option<seq<int>>
    var closed: bool

    constructor (items: seq<SpatialElementItem>)
      ensures allItems == items && filteredItems == items
      ensures selectedElements.None? && !closed
    {
      allItems, filteredItems := items, items;
      selectedElements, closed := None, false;
    }

    /** The search box changed: the shown entries are recomputed from all entries. */
    method SearchTextChanged(text: string)
      modifies this`filteredItems
      ensures filteredItems == Search(allItems, text)
    {
      var needle := Lower(text);
      if needle == "" {
        filteredItems := allItems;
      } else {
        filteredItems := Filter(allItems, DisplayHas(needle));
      }
    }

    /** Create: hand back the elements of the selected entries, in order ([] when none), and close. */
    method CreateButtonClick(selected: seq<SpatialElementItem>, attr: string)
      modifies this`selectedElements, this`closed
      ensures selectedElements == Some(ChosenElements(selected, attr)) && closed
    {
      var chosen: seq<int> := [];
      for i := 0 to |selected|
        invariant chosen == ChosenElements(selected[..i], attr)
      {
        if attr in selected[i].attrs {
          chosen := chosen + [selected[i].attrs[attr]];
        } else {
          chosen := chosen + [selected[i].element];
        }
      }
      assert selected[..|selected|] == selected;
      selectedElements := Some(chosen);
      closed := true;
    }

    /** Cancel: hand back nothing and close. */
    method CancelButtonClick()
      modifies this`selectedElements, this`closed
      ensures selectedElements.None? && closed
    {
      selectedElements := None;
      closed := true;
    }
  }
}
