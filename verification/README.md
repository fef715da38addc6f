# pyByggstyrning, modelled in Dafny

pyByggstyrning is a pyRevit extension for building-project coordination in
Autodesk Revit. This project models the logic inside its Revit glue and
proves properties of that model. Revit elements become plain records: an id,
a level, a category and a parameter map from name to (storage type, has
value, read-only, value). Geometry tests, collectors and the Revit
transaction machinery become parameters or record fields.

One Dafny module stands for each source file of the core:

- **3D zones** (`lib/zone3d/`):
  - `Containment` picks a strategy from the source categories and generates test points per target. It searches the zones in the code's fixed order and keeps the geometry cache with its "failed" markers and bounding-box pre-reject.
  - `ZoneCore` copies zone parameters onto the contained elements, keeping the per-configuration counters and de-duplicating ids.
  - `ZoneConfig` covers the configuration list kept in the document: serialise/deserialise, next order number, lookup, delete, and the enabled configurations in order.
  - `ZoneAdapter` holds the Area/Room adapters: the family-name sanitiser, the extrusion height rules, the existing-zone checks and the number/name lookups.
  - `ZoneMonitor` is the move monitor: its element-location cache and the deferred update queue.
  - `SelectorDialog` is the area/room picker with its search box.
- **Nested IFC export** (`NestedIfcExport`): writing each nested family instance's parent id into `NestedParentId`, with a write cache that is replayed after export.
- **MMI (modell-modenhetsindeks, the model maturity index)**:
  - `MmiUtils` validates and corrects the value text and gathers statistics.
  - `MmiColorizer` holds the official colour table and the colorizer state.
  - `MmiCore` writes values and keeps the monitor configuration.
  - `MmiSync` is the post-synchronisation check.
- **Clashes**:
  - `ClashUtils` builds the GUID index over the host and linked models, enriches the clash records and holds the highlighting rules.
  - `ClashExplorer` groups the clashes by category pair and holds the explorer's filters and detail rows.
- **Colouring**:
  - `RevitUtils` holds the shared colour ranges, the parameter display strings and the categories found in a view.
  - `ColorValues` holds what both Color Elements windows share.
  - `ViewColorElements` is the View panel window, with its palette and `.cschn` colour schemas.
  - `BsColorElements` is the BS tab window.
  - `PyRevitColorizer` is the Colorizer window, with its random colours and unit-aware ordering.
- **StreamBIM**:
  - `Checklists` holds what the two importers share.
  - `ChecklistImporter` is the checklist importer, with value mappings and stored configurations.
  - `StreamBimImporter` is the older importer window.
- **Spaces** (`Spaces`): tag types, views, the plan-view list and tagging the untagged spaces of a view.

Four shared modules model the Python built-ins the code relies on:
- `Common`: optional values and the element/parameter records;
- `Strs`: `strip`, `lower`, `in`, `split`/`join`, `int()`/`str()` on decimal integers, and code-point order;
- `Sorting`: the stable `sorted(key=...)`;
- `StrOrder`: `sorted(set(...))`.

The form follows the code:
- Code that mutates objects or module globals is written as classes whose methods name the fields they change. Examples are the geometry cache, the config store, the monitor, the export state, the colorizer configuration, the sync checker and the windows.
- Loops are methods with loop invariants. Each is proved equal to a specification function, and the properties the code promises are proved about those functions as lemmas.
- Pure branching and comprehensions are functions.

The model follows the code as written, defects included. The defects under "## Findings" are modelled as written on the path the rest of the model uses; each corrected version is defined and proved beside it and used nowhere else.

`lib/zone3d/containment.py` has no spatial grid index for the containment search, no phase-validity handling and no lowest-id tie-break among containing zones. It returns the first zone that contains a test point, in list order: same-level zones first, then all zones. The model does the same. Room and Space targets are not removed from the target set either (`lib/zone3d/core.py:297-312`).

## Model

| member | source | states |
|---|---|---|
| Containment.DetectStrategy | lib/zone3d/containment.py:37-66 | None for no categories; otherwise "room" iff Rooms is listed, else "space" iff MEP Spaces, else "area" iff Areas, else "element" iff Mass or Generic Models |
| Containment.StrategyNeedsCategory | lib/zone3d/containment.py:46-66 | no strategy exactly when every listed category is an unsupported one |
| Containment.CurvePoint | lib/zone3d/containment.py:166-179 | a curve point is the normalized evaluation, else the interpolation between the end points, else nothing |
| Containment.Offsets | lib/zone3d/containment.py:181-193 | the perpendicular midpoint offsets are added both or neither |
| Containment.CurvePoints | lib/zone3d/containment.py:166-179 | at most one point per curve parameter |
| Containment.CurveTestPoints | lib/zone3d/containment.py:161-193 | the curve points are those at 0.25, 0.5 and 0.75 that could be computed, followed by the two offset points |
| Containment.CurvePointsAt | lib/zone3d/containment.py:166-179 | the loop over the curve parameters yields the computable points in order |
| Containment.GetElementTestPoints | lib/zone3d/containment.py:127-204 | the method's points equal the test-point function of the target |
| Containment.TestPointsByKind | lib/zone3d/containment.py:145-199 | an Area yields only its box centre, a location point exactly that point, never more than five points, and no points only without a bounding box |
| Containment.FullCurveYieldsFive | lib/zone3d/containment.py:161-191 | a curve that evaluates everywhere and has end points and a direction yields five points, the second being the curve midpoint |
| Containment.RepresentativePoint | lib/zone3d/containment.py:68-125 | an Area has a point iff it has a box; a location point is used as is; no point only without a box |
| Containment.LevelZones | lib/zone3d/containment.py:616-618 | the zones of one level are among all zones |
| Containment.FirstHit | lib/zone3d/containment.py:616-627 | a hit is a listed zone holding some test point; no hit iff no listed zone holds any test point |
| Containment.FirstZone | lib/zone3d/containment.py:618-621 | the zone found for a point holds it; none iff no zone holds it |
| Containment.FirstZoneIsFirst | lib/zone3d/containment.py:618-621 | the zone found is the first in list order that holds the point |
| Containment.FirstHitIsFirst | lib/zone3d/containment.py:616-627 | points are tried in order: the hit comes from the first point that any zone holds |
| Containment.ZoneSearchSound | lib/zone3d/containment.py:591-627 | the room/space search returns a supplied zone holding a test point, prefers a same-level hit, and returns None exactly when no zone holds any test point |
| Containment.GetContainingZone | lib/zone3d/containment.py:575-632 | get_containing_room/space compute the specified zone search over the target's test points |
| Containment.ScanPointsZones | lib/zone3d/containment.py:616-627 | the nested point/zone loop with early return finds the point-major first hit |
| Containment.ScanZones | lib/zone3d/containment.py:618-621 | the inner zone loop finds the first zone holding the point |
| Containment.FirstAbove | lib/zone3d/containment.py:313-318 | the level found is above the base; none iff no level is above it |
| Containment.FirstAboveSortedIsLowest | lib/zone3d/containment.py:311-318 | over levels sorted by elevation, the first level above the base is the lowest one above it |
| Containment.ExtrusionHeightIsNextLevel | lib/zone3d/containment.py:313-323 | the height is the distance to the lowest level above the base, or 10.0 when there is none, and always positive |
| Containment.AppendLoop | lib/zone3d/containment.py:330-360 | the number of appended curves never exceeds the loop's segments |
| Containment.CreateSolidFromArea | lib/zone3d/containment.py:242-413 | a solid needs boundary segments, a non-empty first loop, a level and a closed loop, and is the extrusion by the computed height |
| Containment.SolidUsesFirstLoopOnly | lib/zone3d/containment.py:274-278 | only the first boundary loop matters; a loop with no appended curves gives no solid |
| Containment.AreaTest | lib/zone3d/containment.py:415-472 | is_point_in_area only adds to the cache, and only an entry for the area it checks |
| Containment.AreaCacheRules | lib/zone3d/containment.py:440-462 | a cached failure answers False; a cached box missing the point answers False without a solid test; a failed creation is cached and never retried |
| Containment.ScanAreas | lib/zone3d/containment.py:764-779 | the failed-skipping scan only adds to the cache and returns a scanned area not cached as failed |
| Containment.Pairs | lib/zone3d/containment.py:764-766 | the point-major pairing has one pair per point and area |
| Containment.AreaSearchRules | lib/zone3d/containment.py:743-783 | the area search returns a supplied area not cached as failed, keeps the cache, returns None without test points, and prefers a same-level area |
| Containment.FirstPositive | lib/zone3d/containment.py:549-556 | an instance yields a solid iff one of its objects has positive volume |
| Containment.ExtractSolid | lib/zone3d/containment.py:549-560 | the solid extraction loop as written (inner break only) |
| Containment.ExtractKeepsLastInstance | lib/zone3d/containment.py:549-560 | with two solid-bearing instances the loop as written keeps the second, while the first-solid reading keeps the first |
| Containment.FirstSolidIsFirst | lib/zone3d/containment.py:549-560 | the corrected extraction returns the solid of the first object having one, and None only when none has one |
| Containment.ExtractFirstSolid | lib/zone3d/containment.py:549-560 | the corrected loop (outer loop also stopped) computes the first solid |
| Containment.FirstPositiveScan | lib/zone3d/containment.py:551-556 | the inner instance loop stops at the first positive-volume solid |
| Containment.ElementTest | lib/zone3d/containment.py:504-573 | is_point_in_element only adds to the cache, and the only entry it adds is for the element itself, holding the solid the extraction loop as written found |
| Containment.ElementCacheRules | lib/zone3d/containment.py:520-567 | a cached box missing the point answers False; an element from which the extraction loop as written gets no solid is never cached; a True answer leaves the element cached |
| Containment.ChainedCategoriesExcludeAll | lib/zone3d/containment.py:820-828 | the chained category filters as written let no element through when Mass and Generic Models are both configured |
| Containment.Candidates | lib/zone3d/containment.py:817-828 | the candidates are exactly the elements whose category equals every configured category (the chained filters as written) and whose box contains the point |
| Containment.IntendedCandidates | lib/zone3d/containment.py:817-828 | the corrected filter keeps exactly the elements in some configured category whose box contains the point |
| Containment.ScanElements | lib/zone3d/containment.py:831-835 | the scan returns one of the candidates and only adds to the cache |
| Containment.ElementSearch | lib/zone3d/containment.py:795-838 | the element search returns a supplied element that passes every chained category filter, only adds to the cache, and returns nothing without a representative point |
| Containment.GeometryCache.constructor | lib/zone3d/containment.py:20-24 | the cache starts empty |
| Containment.GeometryCache.Clear | lib/zone3d/containment.py:867-871 | clear_geometry_cache empties the cache |
| Containment.GeometryCache.IsPointInArea | lib/zone3d/containment.py:415-472 | answer and new cache equal the area test on the old cache |
| Containment.GeometryCache.IsPointInElement | lib/zone3d/containment.py:504-573 | answer and new cache equal the element test on the old cache |
| Containment.GeometryCache.ScanAreaPairs | lib/zone3d/containment.py:764-779 | the pair scan equals the specified failed-skipping scan |
| Containment.GeometryCache.GetContainingArea | lib/zone3d/containment.py:693-793 | get_containing_area equals the specified area search over the test points |
| Containment.GeometryCache.ScanCandidates | lib/zone3d/containment.py:831-835 | the candidate loop equals the specified element scan |
| Containment.GeometryCache.ContainerByStrategy | lib/zone3d/containment.py:840-865 | each known strategy runs its search; an unknown strategy finds nothing and leaves the cache |
| Containment.GeometryCache.Precompute | lib/zone3d/containment.py:873-949 | precompute_geometries leaves the specified cache |
| Containment.ScanSplit | lib/zone3d/containment.py:764-779 | scanning A then B continues with B exactly when A found nothing |
| Containment.PrecomputeOne | lib/zone3d/containment.py:899-942 | precomputing one element only adds to the cache |
| Containment.PrecomputeRules | lib/zone3d/containment.py:899-942 | ids already cached keep their entry, every Area gets an entry, and a Mass/Generic element from which the extraction loop as written gets no solid gets none |
| ZoneCore.Lookup | lib/zone3d/core.py:139-147 | an instance parameter wins; otherwise the type's parameter of that name; None exactly when neither the instance nor its type has it |
| ZoneCore.CopyParameterValue | lib/zone3d/core.py:23-65 | fails on a missing or empty source, a missing or read-only target, or different storage types; succeeds exactly otherwise (storage other than none); an empty string or invalid id is accepted without writing; what is written is the source value |
| ZoneCore.SetParam | lib/zone3d/core.py:181 | writing a parameter keeps the element's id and category and changes that parameter's value only |
| ZoneCore.SetParamSameShape | lib/zone3d/core.py:181 | writing a value keeps the element's set of parameters and their storage types |
| ZoneCore.HasSourceParameterScan | lib/zone3d/core.py:67-116 | the scan over the names returns the specification predicate; no names means no source parameter |
| ZoneCore.HasSourceParameterRules | lib/zone3d/core.py:86-112 | a blank string instance value does not count when the type has no usable value; a usable type value counts when the instance has none |
| ZoneCore.CopyStep | lib/zone3d/core.py:136-189 | a counted pair had a target parameter; an uncounted pair leaves the target unchanged; the target keeps its id and shape |
| ZoneCore.CopyAll | lib/zone3d/core.py:134-195 | the number copied is at most the number of pairs, and the target keeps its id and shape |
| ZoneCore.Zip | lib/zone3d/core.py:136 | the i-th pair is the i-th source name with the i-th target name |
| ZoneCore.CopyAllCounts | lib/zone3d/core.py:134-195 | the count equals the number of pairs that copy on the original target: writing one pair never changes whether another copies |
| ZoneCore.CopyParameters | lib/zone3d/core.py:118-195 | lists of different lengths copy nothing and change nothing; otherwise the loop computes `CopyAll` over the zipped pairs, and the count is at most the number of names |
| ZoneCore.CopyPair | lib/zone3d/core.py:137-189 | one loop iteration equals `CopyStep` |
| ZoneCore.AddNew | lib/zone3d/core.py:243-246 | appending with de-duplication by id keeps every earlier element, adds only given elements, the ids become the union, and distinct ids stay distinct |
| ZoneCore.OfCategory | lib/zone3d/core.py:239-242 | exactly the document's elements of that category |
| ZoneCore.CollectFold | lib/zone3d/core.py:235-246 | the collected elements come from the document and the listed categories, have distinct ids, and cover the id of every element of those categories |
| ZoneCore.CollectByCategories | lib/zone3d/core.py:235-246 | the nested loop computes `CollectFold` |
| ZoneCore.AddNewLoop | lib/zone3d/core.py:243-246 | the inner loop with its id set computes `AddNew` and keeps the set equal to the ids collected |
| ZoneCore.CategoriesOf | lib/zone3d/core.py:217-218 | one strategy category per configured category code |
| ZoneCore.CounterBounds | lib/zone3d/core.py:419-421 | updated never exceeds processed, and the parameters copied lie between updated and updated times the number of pairs |
| ZoneCore.UpdateInterval | lib/zone3d/core.py:371 | the interval is at least 1, at most the total, and one twentieth of the total (rounded down) from 40 targets on |
| ZoneCore.ProgressStep | lib/zone3d/core.py:386-390 | one loop step keeps the progress invariant: reports are increasing, at least an interval apart, and the last target is reported |
| ZoneCore.Report | lib/zone3d/core.py:386-390 | the progress report of one step keeps that invariant and the last-update value |
| ZoneCore.ProcessTargets | lib/zone3d/core.py:369-446 | every target is processed; updated and copied are the specification counts; the targets become `MapTargets`; with a progress bar the reports satisfy the progress invariant |
| ZoneCore.ProcessTarget | lib/zone3d/core.py:393-429 | one target: the parameters copied from its container (0 without one) and the written target, keeping its id |
| ZoneCore.WithSource | lib/zone3d/core.py:260-266 | exactly the sources having a source parameter with a value |
| ZoneCore.FilterSources | lib/zone3d/core.py:260-272 | the filter loop computes `WithSource` |
| ZoneCore.WriteParametersToElements | lib/zone3d/core.py:197-454 | no strategy gives the strategy error; no source parameters, sources or targets give zero counts; otherwise lists of unequal length give exactly the mismatch error and no writes, and lists of equal length process every collected target with the specification counts and writes |
| ZoneCore.MapTargets | lib/zone3d/core.py:381-429 | one written target per collected target |
| ZoneCore.ExecuteAllConfigurations | lib/zone3d/core.py:472-531 | one result per enabled configuration, in order, and the totals are the sums of the per-configuration counters; no configurations give the empty summary |
| ZoneConfig.MapItems | lib/zone3d/config.py:27-30 | each category entry is converted in place, in order |
| ZoneConfig.MapCategoryLists | lib/zone3d/config.py:23-39 | only the two category lists are rewritten; every other key keeps its value |
| ZoneConfig.SerializeConfig | lib/zone3d/config.py:14-39 | the copy has the same keys and values except that no category entry is a built-in category any more |
| ZoneConfig.DeserializeCats | lib/zone3d/config.py:54-66 | the conversion loop converts each entry of a list, in order |
| ZoneConfig.DeserializeConfig | lib/zone3d/config.py:41-84 | the copy keeps its keys and every non-category value |
| ZoneConfig.SerializeRoundTrip | lib/zone3d/config.py:14-84 | deserialising a serialised configuration gives it back, when its categories are defined ones |
| ZoneConfig.MaxOrder | lib/zone3d/config.py:275-281 | the largest order of a non-empty list, missing orders counting as 0 |
| ZoneConfig.NextOrder | lib/zone3d/config.py:265-281 | 1 for no configurations; otherwise one above the largest order, so above every order |
| ZoneConfig.FindConfig | lib/zone3d/config.py:301-305 | the first configuration with the id, or None exactly when none has it |
| ZoneConfig.WithoutId | lib/zone3d/config.py:318-319 | exactly the configurations without the id |
| ZoneConfig.WithoutIdShrinks | lib/zone3d/config.py:318-322 | the list keeps its length exactly when the id is absent |
| ZoneConfig.EnabledConfigsSorted | lib/zone3d/config.py:327-338 | exactly the enabled configurations, a permutation of them, sorted by order (missing = 999), equal orders in list order |
| ZoneConfig.ConfigStore.constructor | lib/zone3d/config.py:86-119 | the store starts with the given stored list |
| ZoneConfig.ConfigStore.LoadConfigs | lib/zone3d/config.py:121-210 | the stored list, deserialised, or [] when nothing is stored |
| ZoneConfig.ConfigStore.SaveConfigs | lib/zone3d/config.py:212-263 | writes the serialised list exactly when storage exists and every configuration has the required fields; otherwise nothing changes |
| ZoneConfig.ConfigStore.GetNextOrder | lib/zone3d/config.py:265-281 | `NextOrder` of the loaded list |
| ZoneConfig.ConfigStore.GetConfigById | lib/zone3d/config.py:291-305 | a loaded configuration with the id, or None exactly when none has it |
| ZoneConfig.ConfigStore.DeleteConfig | lib/zone3d/config.py:307-325 | False and no change when the id is absent; on success the list without it is stored |
| ZoneConfig.ConfigStore.GetEnabledConfigs | lib/zone3d/config.py:327-338 | the enabled loaded configurations, sorted by order |
| ZoneConfig.SerializeAll | lib/zone3d/config.py:243 | each configuration serialised, in order |
| ZoneConfig.DeserializeAll | lib/zone3d/config.py:172 | each configuration deserialised, in order |
| ZoneConfig.SaveLoadRoundTrip | lib/zone3d/config.py:121-263 | a saved list loads back unchanged |
| ZoneAdapter.Replacement | lib/zone3d/spatial_adapter.py:362-374 | an unlisted character is kept; no replacement contains a listed character |
| ZoneAdapter.Replaced | lib/zone3d/spatial_adapter.py:376-378 | after the replacement pass no listed character (`. / \ * ? " < > \| :` or space) remains |
| ZoneAdapter.CollapseOnce | lib/zone3d/spatial_adapter.py:382 | one `replace('--', '-')` pass never lengthens the text, shortens it when a doubled separator exists, keeps the first character and adds no character |
| ZoneAdapter.CollapseFix | lib/zone3d/spatial_adapter.py:381-384 | repeating the pass while the pair occurs leaves no doubled separator |
| ZoneAdapter.Collapse | lib/zone3d/spatial_adapter.py:381-384 | the `while` loop computes `CollapseFix` |
| ZoneAdapter.SanitizeFamilyName | lib/zone3d/spatial_adapter.py:356-393 | the method computes the sanitised name specified by `SanitizedName` |
| ZoneAdapter.KeptReplaced | lib/zone3d/spatial_adapter.py:376-378 | the replacement pass keeps the ordinary characters, in order |
| ZoneAdapter.KeptCollapseFix | lib/zone3d/spatial_adapter.py:381-384 | collapsing separators keeps the ordinary characters, in order |
| ZoneAdapter.KeptLStrip | lib/zone3d/spatial_adapter.py:387 | stripping leading separators keeps the ordinary characters |
| ZoneAdapter.KeptRStrip | lib/zone3d/spatial_adapter.py:387 | stripping trailing separators keeps the ordinary characters |
| ZoneAdapter.CollapseFixNoNewPair | lib/zone3d/spatial_adapter.py:381-384 | collapsing `__` never creates a `--`, so both loops leave no doubled separator |
| ZoneAdapter.CollapsedNoForbidden | lib/zone3d/spatial_adapter.py:376-384 | the collapse loops bring back no listed character |
| ZoneAdapter.CleanedNoForbidden | lib/zone3d/spatial_adapter.py:376-387 | the cleaned name contains no listed character |
| ZoneAdapter.CleanedNoPairs | lib/zone3d/spatial_adapter.py:381-387 | the cleaned name contains no `--` and no `__` |
| ZoneAdapter.CleanedShape | lib/zone3d/spatial_adapter.py:376-387 | the cleaned name has no listed character, no doubled separator and no leading or trailing `-`/`_` |
| ZoneAdapter.CleanedKeeps | lib/zone3d/spatial_adapter.py:376-387 | cleaning keeps every ordinary character, in order |
| ZoneAdapter.CleanedEmpty | lib/zone3d/spatial_adapter.py:387-391 | the cleaned name is empty exactly when the input has no ordinary character |
| ZoneAdapter.SanitizedNameRules | lib/zone3d/spatial_adapter.py:356-393 | the result has no listed character, no doubled or edge separator, is never empty, is "Unknown" when nothing ordinary remains, and otherwise keeps the ordinary characters |
| ZoneAdapter.UnknownShape | lib/zone3d/spatial_adapter.py:358-359 | the fallback "Unknown" itself satisfies the output rules |
| ZoneAdapter.KeptEmpty | lib/zone3d/spatial_adapter.py:390-391 | a name with no kept characters consists only of listed characters and separators |
| ZoneAdapter.SanitizeNumber | lib/zone3d/spatial_adapter.py:294-296 | Area numbers are returned unchanged; Room numbers go through the family-name sanitiser (lines 482-484) |
| ZoneAdapter.FirstValuedIsFirst | lib/zone3d/spatial_adapter.py:155-171 | the first listed parameter with a value gives the text; none gives the default ("?" or "Unnamed") |
| ZoneAdapter.AreaNumberPrefersNumber | lib/zone3d/spatial_adapter.py:157-161 | an Area with a valued "Number" parameter reports that parameter |
| ZoneAdapter.FirstValuedString | lib/zone3d/spatial_adapter.py:158-162 | the loop over parameter names computes `FirstValued` |
| ZoneAdapter.RoomString | lib/zone3d/spatial_adapter.py:395-407 | a missing or valueless built-in parameter gives the default; otherwise its text |
| ZoneAdapter.NextLevelTop | lib/zone3d/spatial_adapter.py:225-229 | the first level elevation above the base, or base + 10; always above the base |
| ZoneAdapter.AreaCalculateHeight | lib/zone3d/spatial_adapter.py:173-246 | the method computes the Area height specified by `AreaHeight` |
| ZoneAdapter.RoomCalculateHeight | lib/zone3d/spatial_adapter.py:409-443 | the method computes the Room height specified by `RoomHeight` |
| ZoneAdapter.NextLevelHeightRules | lib/zone3d/spatial_adapter.py:216-230 | over sorted levels the height is positive, 10 when no level is above, and otherwise the distance to the lowest level above |
| ZoneAdapter.AreaHeightRules | lib/zone3d/spatial_adapter.py:175-230 | no level gives None; a default "Storey Above" gives None; a Storey Above naming a level gives the elevation difference; otherwise the next level above or 10 |
| ZoneAdapter.RoomHeightRules | lib/zone3d/spatial_adapter.py:413-439 | the height is positive; a positive unbounded height wins; no level gives 10 |
| ZoneAdapter.SpacesToDashes | lib/zone3d/spatial_adapter.py:267 | each space becomes "-" and everything else is kept |
| ZoneAdapter.AreaCheckExistingZone | lib/zone3d/spatial_adapter.py:248-288 | True exactly when the number is known (not empty or "?") and some Generic Model family name starts with "3DZone_Area-<number with dashes>_" and contains the area id |
| ZoneAdapter.RoomCheckExistingZone | lib/zone3d/spatial_adapter.py:445-476 | True exactly when a cached zone instance (or, without a cache, a "3DZone_Room-" Generic Model instance) has a family name containing the room id |
| ZoneAdapter.SetPhaseOnInstance | lib/zone3d/spatial_adapter.py:546-552 | a valid phase becomes the instance's created phase; no instance, no phase or the invalid id changes nothing |
| ZoneMonitor.Fresh | lib/zone3d/monitor.py:49-57 | exactly the cache entries younger than 300 seconds survive, unchanged |
| ZoneMonitor.Sweep | lib/zone3d/monitor.py:213-235 | the moved elements are among the modified ids |
| ZoneMonitor.SweepCache | lib/zone3d/monitor.py:219-235 | every modified element with a point is cached at its new location and time, moved or not; all other entries are untouched |
| ZoneMonitor.SweepMoved | lib/zone3d/monitor.py:224-231 | an element counts as moved exactly when it has a point, a previous location was cached, and the distance exceeds 0.1 |
| ZoneMonitor.Zone3DEventHandler.constructor | lib/zone3d/monitor.py:62-64 | the handler starts with empty queues |
| ZoneMonitor.Zone3DEventHandler.QueueElementsForUpdate | lib/zone3d/monitor.py:157-162 | the queues are replaced, not appended to |
| ZoneMonitor.Zone3DEventHandler.Execute | lib/zone3d/monitor.py:66-152 | inactive: queues cleared, nothing written; empty queue: nothing happens; otherwise every configuration is applied to every queued element and the queues are cleared |
| ZoneMonitor.ApplyOne | lib/zone3d/monitor.py:95-129 | only the queued element can change; no strategy, no container or mismatched parameter lists leave the document unchanged |
| ZoneMonitor.ApplyConfigsOn | lib/zone3d/monitor.py:84-137 | the loop over configurations computes `ApplyConfigs` |
| ZoneMonitor.ApplyIdsOn | lib/zone3d/monitor.py:95-135 | the loop over queued elements computes `ApplyIds` |
| ZoneMonitor.ApplyIdsFrame | lib/zone3d/monitor.py:95-135 | one configuration changes only queued elements and keeps the set of elements |
| ZoneMonitor.ApplyConfigsFrame | lib/zone3d/monitor.py:84-137 | processing all configurations changes only queued elements and keeps the set of elements |
| ZoneMonitor.Monitor.constructor | lib/zone3d/monitor.py:20-22 | the monitor starts inactive with an empty cache and an empty handler queue |
| ZoneMonitor.Monitor.SetMonitorActive | lib/zone3d/monitor.py:28-34 | sets the flag; switching off clears the location cache |
| ZoneMonitor.Monitor.ClearLocationCache | lib/zone3d/monitor.py:44-47 | the cache becomes empty and nothing else changes |
| ZoneMonitor.Monitor.CleanLocationCache | lib/zone3d/monitor.py:49-57 | the cache keeps only its fresh entries |
| ZoneMonitor.Monitor.UpdateElementLocationCache | lib/zone3d/monitor.py:36-42 | the element's entry becomes its location and the current time |
| ZoneMonitor.Monitor.DocumentChanged | lib/zone3d/monitor.py:182-247 | inactive, nothing modified or no enabled configuration: nothing changes; otherwise the cache is cleaned and swept, and when something moved the handler queue is replaced by the moved ids and the enabled configurations and the event is raised |
| NestedIfcExport.ElementIdAccessor | lib/nested_family/ifc_export.py:49-55 | the `.Value` accessor is used exactly for Revit versions after 2023, `IntegerValue` otherwise |
| NestedIfcExport.NestedPairs | lib/nested_family/ifc_export.py:58-80 | at most one pair per instance |
| NestedIfcExport.NestedPairsExact | lib/nested_family/ifc_export.py:72-78 | a pair is produced exactly for an instance whose SuperComponent is a FamilyInstance, pairing it with that parent |
| NestedIfcExport.GetNestedFamilyInstances | lib/nested_family/ifc_export.py:58-80 | the collector loop computes `NestedPairs` |
| NestedIfcExport.KeysOf | lib/nested_family/ifc_export.py:205 | the keys of the cache in insertion order |
| NestedIfcExport.Lookup | lib/nested_family/ifc_export.py:205 | a cache lookup succeeds exactly for a stored key |
| NestedIfcExport.Put | lib/nested_family/ifc_export.py:150-162 | a cache assignment adds at most one entry |
| NestedIfcExport.PutKeys | lib/nested_family/ifc_export.py:150-162 | assigning an existing key keeps the key order; a new key is appended |
| NestedIfcExport.PutLookup | lib/nested_family/ifc_export.py:150-162 | after an assignment the key reads the new value and every other key reads as before |
| NestedIfcExport.PutDistinct | lib/nested_family/ifc_export.py:150-162 | assignment keeps the keys distinct |
| NestedIfcExport.Bump | lib/nested_family/ifc_export.py:134-175 | each outcome raises the sum of the five counters by one |
| NestedIfcExport.Judge | lib/nested_family/ifc_export.py:132-172 | a write happens only to an existing parameter outside a dry run and writes the parent id; param_not_found exactly for a missing parameter, param_readonly exactly for a read-only one, and exactly those two leave no cache entry; already_set exactly for a writable parameter that already holds the parent id or, under only-empty, any non-empty value, caching that value and writing nothing; a dry run writes nothing and never errs; otherwise the parent id is cached and, outside a dry run, successfully_set exactly when `Set` succeeds, with the parent id written |
| NestedIfcExport.Step | lib/nested_family/ifc_export.py:126-175 | each pair increments exactly one counter and keeps the document's elements |
| NestedIfcExport.Run | lib/nested_family/ifc_export.py:126-175 | the counters grow by the number of pairs and the document keeps its elements |
| NestedIfcExport.CountsPartition | lib/nested_family/ifc_export.py:117-175 | successfully_set + already_set + param_not_found + param_readonly + errors == total_nested |
| NestedIfcExport.OnlyEmptyNeverOverwrites | lib/nested_family/ifc_export.py:146-151 | with only_empty a non-empty current value is never overwritten |
| NestedIfcExport.DryRunWritesNothing | lib/nested_family/ifc_export.py:165-172 | a dry run leaves the document unchanged |
| NestedIfcExport.RunFrame | lib/nested_family/ifc_export.py:126-175 | elements not named by a pair are never written |
| NestedIfcExport.StepCache | lib/nested_family/ifc_export.py:147-162 | with use_cache a pair that reaches the value check caches the value the element ends up with; other keys are untouched |
| NestedIfcExport.CacheContents | lib/nested_family/ifc_export.py:123-162 | after the run every pair reaching the value check has its final value cached, and no other key changes |
| NestedIfcExport.JudgeCached | lib/nested_family/ifc_export.py:207-233 | the cached write never reports param_readonly: read-only parameters count as errors |
| NestedIfcExport.CachedStep | lib/nested_family/ifc_export.py:205-236 | each cache entry increments exactly one counter and leaves the cache alone |
| NestedIfcExport.RunCached | lib/nested_family/ifc_export.py:205-236 | the counters grow by the number of cache entries; the cache is not changed |
| NestedIfcExport.CachedOnlyEmpty | lib/nested_family/ifc_export.py:224-226 | with only_empty a non-empty value is never overwritten by a cached write |
| NestedIfcExport.CachedNeverReadOnly | lib/nested_family/ifc_export.py:217-219 | the cached write leaves the read-only counter at its value |
| NestedIfcExport.RunPairs | lib/nested_family/ifc_export.py:126-175 | the loop over pairs computes `Run` |
| NestedIfcExport.RunEntries | lib/nested_family/ifc_export.py:205-236 | the loop over cache entries computes `RunCached` |
| NestedIfcExport.SetNested | lib/nested_family/ifc_export.py:93-177 | total_nested is the number of pairs and the counters sum to it; without use_cache the cache is untouched |
| NestedIfcExport.RunKeepsCache | lib/nested_family/ifc_export.py:123-162 | without use_cache the run never touches the cache |
| NestedIfcExport.WriteCached | lib/nested_family/ifc_export.py:180-238 | one counted outcome per cache entry, and no read-only counter; an empty cache gives all zeros |
| NestedIfcExport.SetNestedOn | lib/nested_family/ifc_export.py:93-177 | the method computes `SetNested` |
| NestedIfcExport.WriteCachedOn | lib/nested_family/ifc_export.py:180-238 | the method computes `WriteCached` |
| NestedIfcExport.PostExportKeepsSetValues | lib/nested_family/ifc_export.py:267-271 | the post-export write (only_empty) never overwrites a non-empty value |
| NestedIfcExport.PostExportWrite | lib/nested_family/ifc_export.py:253-285 | the transaction body writes from the cache when it is non-empty, else runs the full pass |
| NestedIfcExport.ExportState.constructor | lib/nested_family/ifc_export.py:244-246 | no document, should_save on, empty cache |
| NestedIfcExport.ExportState.SetNestedParentIds | lib/nested_family/ifc_export.py:93-177 | the result of `SetNested` on the global cache, which becomes the result's cache |
| NestedIfcExport.ExportState.WriteCachedParameters | lib/nested_family/ifc_export.py:180-238 | `WriteCached` on the global cache |
| NestedIfcExport.ExportState.PostExportExecute | lib/nested_family/ifc_export.py:248-299 | without a document nothing happens; otherwise the writes are applied, the document is saved only when should_save and something was set, and the cache and document are cleared |
| MmiUtils.LookupMmi | lib/mmi/utils.py:289-298 | the instance parameter wins, else the type's; None exactly when neither has the name |
| MmiUtils.Zeros | lib/mmi/utils.py:84 | `"0" * n`: n zero characters |
| MmiUtils.ValidateMmiValue | lib/mmi/utils.py:57-92 | (as written) empty input or input without a digit run needs no correction |
| MmiUtils.ParseDigitsBound | lib/mmi/utils.py:75 | a run of d digits reads as a number below 10^d |
| MmiUtils.ThreeDigits | lib/mmi/utils.py:82-92 | a three-digit number without leading zero lies in 100..999 |
| MmiUtils.FixShape | lib/mmi/utils.py:82-89 | a value below 100 or above 999 is fixed to three digits: "000" exactly for 0, otherwise a value in 100..999 |
| MmiUtils.ValidateMmiValueCases | lib/mmi/utils.py:66-92 | a correction is returned exactly when the input has a first digit run whose value is below 100 or above 999; it carries the stripped input and a three-digit fix |
| MmiUtils.DigitsRun | lib/mmi/utils.py:70 | a text made only of digits is its own first digit run |
| MmiUtils.ValidateDigits | lib/mmi/utils.py:75-92 | on a digit string the result is the padded or truncated fix when out of 100..999, and None otherwise |
| MmiUtils.ValidateFirstRun | lib/mmi/utils.py:70-89 | only the first digit run decides: text before it has no digits and text after it is ignored, except for the stripped original |
| MmiUtils.ValidateFlagsOwnFix | lib/mmi/utils.py:82-85 | (as written) "000" is reported as needing the correction "000", its own value |
| MmiUtils.ValidateMmi | lib/mmi/utils.py:57-92 | (corrected) the same correction as `ValidateMmiValue` except when the fix equals the first digit run already |
| MmiUtils.ValidateMmiAcceptsFix | lib/mmi/utils.py:57-92 | (corrected) a proposed fix is itself accepted: validation is idempotent |
| MmiUtils.ValidateMmiLevelZero | lib/mmi/utils.py:82-85 | (corrected) "000" needs no correction |
| MmiUtils.ElementMmiValue | lib/mmi/utils.py:273-328 | (None, None, None) unless the parameter exists with String storage; then the text ("" without a value) and the first digit run's value exactly when the text has digits |
| MmiUtils.MmiText | lib/mmi/utils.py:124-136 | a text exactly when the parameter (instance, else type) exists, has a value and String storage |
| MmiUtils.Matching | lib/mmi/utils.py:94-174 | at most the given elements |
| MmiUtils.MatchingMembers | lib/mmi/utils.py:122-169 | an element matches exactly when it has an MMI text that satisfies the comparison filter |
| MmiUtils.ElementsByMmiValue | lib/mmi/utils.py:94-174 | the collector loop computes `Matching`, in document order |
| MmiUtils.NumericTrichotomy | lib/mmi/utils.py:141-158 | with an integer target and a digit run exactly one of less, equal and greater holds |
| MmiUtils.FilterMisses | lib/mmi/utils.py:141-166 | an integer target never matches a text without digits or an unknown comparison; a non-integer target matches by string equality |
| MmiUtils.BumpProps | lib/mmi/utils.py:226-229 | the histogram keeps distinct keys, gains the value as a key, and its counts sum one higher |
| MmiUtils.StatsBalance | lib/mmi/utils.py:199-243 | total_elements is the number of elements; the histogram counts plus the invalid entries equal elements_with_mmi, which never exceeds the total |
| MmiUtils.StatsKeys | lib/mmi/utils.py:215-229 | the histogram keys are exactly the first-digit-run values of the elements' MMI texts |
| MmiUtils.MmiStatistics | lib/mmi/utils.py:176-248 | the loop computes `StatsOf` |
| MmiColorizer.TableAscending | lib/mmi/colorizer.py:19-39 | the table has 19 levels, starts at 0 and is strictly ascending by value |
| MmiColorizer.ScanFloor | lib/mmi/colorizer.py:53-61 | the scan with early break finds nothing exactly when every level is above the value; otherwise the greatest level not above it |
| MmiColorizer.ColorForFloor | lib/mmi/colorizer.py:41-64 | a value between two consecutive levels gets the lower level's colour and name |
| MmiColorizer.ColorForBelow | lib/mmi/colorizer.py:63-70 | a value below the first level gets the first entry; an empty table gives grey "Unknown" |
| MmiColorizer.ScanRanges | lib/mmi/colorizer.py:54-61 | the loop with its `break` computes the scan specification |
| MmiColorizer.GetColorForMmi | lib/mmi/colorizer.py:41-70 | the colour and name of the floor level of the value in the table |
| MmiColorizer.IdsFromText | lib/mmi/colorizer.py:139-146 | an empty stored string gives no ids |
| MmiColorizer.IdsStrings | lib/mmi/colorizer.py:158 | each id printed as an integer, in order |
| MmiColorizer.NoCommaInInt | lib/mmi/colorizer.py:158 | a printed integer contains no comma, so the join can be split back |
| MmiColorizer.IdsRoundTrip | lib/mmi/colorizer.py:139-162 | reading back a stored id list gives the same ids |
| MmiColorizer.ParsePartsRules | lib/mmi/colorizer.py:141-145 | parsing succeeds exactly when every non-blank part is an integer; any failure gives [] |
| MmiColorizer.ColorizerConfig.constructor | lib/mmi/colorizer.py:75-76 | no config section and no stored options |
| MmiColorizer.ColorizerConfig.IsActive | lib/mmi/colorizer.py:72-82 | active exactly when the section exists and stores True |
| MmiColorizer.ColorizerConfig.SetActive | lib/mmi/colorizer.py:84-97 | the section is created and the flag stored; the other options are untouched |
| MmiColorizer.ColorizerConfig.GetColoredViewId | lib/mmi/colorizer.py:99-116 | None without a section or for an empty stored string; otherwise the parsed integer or None |
| MmiColorizer.ColorizerConfig.SetColoredViewId | lib/mmi/colorizer.py:118-128 | the id is stored as text and reads back as the same id |
| MmiColorizer.ColorizerConfig.GetColoredElementIds | lib/mmi/colorizer.py:130-149 | [] without a section; otherwise the parsed stored list |
| MmiColorizer.ColorizerConfig.SetColoredElementIds | lib/mmi/colorizer.py:151-162 | the ids are stored joined by "," and read back as the same list |
| MmiColorizer.ColorizerConfig.ClearColorizerState | lib/mmi/colorizer.py:164-171 | the invalid view id and an empty list are stored; they read back as -1 and [] |
| MmiCore.ConfigKeysShape | lib/mmi/config.py:16-21 | four display names map one-to-one onto the four schema keys |
| MmiCore.StoredNameFirst | lib/mmi/core.py:16-45 | the first valid storage entity with a non-empty stored name gives the name; none gives "MMI" |
| MmiCore.FirstValid | lib/mmi/core.py:156-162 | the first storage holding a valid entity, or None exactly when there is none |
| MmiCore.FirstValidAt | lib/mmi/core.py:156-162 | a valid entity preceded only by invalid ones is the one found |
| MmiCore.WriteMmiStable | lib/mmi/core.py:86-87 | writing a value keeps the parameter writable, and writing it again changes nothing |
| MmiCore.Resolved | lib/mmi/core.py:67-74 | exactly the ids that resolve to an element, never more than given |
| MmiCore.SetLoop | lib/mmi/core.py:83-90 | the element set is unchanged in its ids |
| MmiCore.SetLoopOutcome | lib/mmi/core.py:80-92 | success + number failed == number of resolved elements; an id fails exactly when its parameter is missing, read-only or not String; exactly the writable ones get the value |
| MmiCore.ResolveIds | lib/mmi/core.py:67-74 | the loop computes `Resolved` |
| MmiCore.WriteLoop | lib/mmi/core.py:83-90 | the loop computes `SetLoop` |
| MmiCore.MmiDocument.constructor | lib/mmi/core.py:27-29 | the document's storages and elements as given, no commits |
| MmiCore.MmiDocument.SetMmiValue | lib/mmi/core.py:47-92 | uses the given name or the stored one, drops unresolved ids, and writes exactly as `SetLoop` says; empty input gives (0, []) |
| MmiCore.MmiDocument.SetSelectionMmiValue | lib/mmi/core.py:94-141 | an empty selection does nothing and returns False; otherwise the value is set, the transaction is committed once, and the result is success_count > 0 |
| MmiCore.MmiDocument.GetOrCreate | lib/mmi/core.py:143-180 | the first valid storage is reused; otherwise a fresh one is created when creation succeeds, else None |
| MmiCore.MmiDocument.SaveMmiParameter | lib/mmi/core.py:182-211 | fails only without storage; the stored entity gets the name, writing only when it differs |
| MmiCore.MmiDocument.SaveMonitorConfig | lib/mmi/core.py:213-261 | fails only without storage; the stored flags become `ApplyConfig` of the selection |
| MmiCore.MmiDocument.LoadMonitorConfig | lib/mmi/core.py:263-300 | the stored flags viewed by display or schema names; all False without storage; the storages are unchanged, except that a fresh storage is appended when none exists and creation is allowed |
| MmiCore.ApplyConfigLoop | lib/mmi/core.py:228-247 | the loop over the selected entries computes `ApplyConfig` |
| MmiCore.ApplyConfigFlags | lib/mmi/core.py:228-247 | after saving, each flag is the last selected value for its key, or its stored value (missing = False) |
| MmiCore.ApplyConfigFrame | lib/mmi/core.py:228-247 | saving touches only schema flags and the timestamp; names not in CONFIG_KEYS are ignored |
| MmiCore.ApplyConfigNoChange | lib/mmi/core.py:242-247 | when every selected flag equals the stored one nothing is written, not even the timestamp |
| MmiCore.ConfigViewShape | lib/mmi/core.py:271-292 | the loaded keys are the display names or the schema keys; with nothing stored every flag is False |
| MmiCore.SaveLoad | lib/mmi/core.py:213-286 | a flag saved and then loaded by display name reads back as the last value selected for it |
| MmiCore.SavedNameIdempotent | lib/mmi/core.py:193-208 | the saved entity holds the name; saving the same name again, or a name already stored, changes nothing |
| MmiSync.GetElement | lib/mmi/sync_checker.py:87-88 | a found element is in the document with that id; None exactly when no element has it |
| MmiSync.Owned | lib/mmi/sync_checker.py:32-56 | at most one id per element |
| MmiSync.OwnedMembers | lib/mmi/sync_checker.py:37-48 | exactly the Model-category elements whose owner equals the user name, ignoring case |
| MmiSync.GetUserOwnedElements | lib/mmi/sync_checker.py:18-60 | [] for a document that is not workshared; otherwise the loop computes `Owned` |
| MmiSync.TrackProps | lib/mmi/sync_checker.py:77-101 | the tracked map has one entry per owned Model element that resolves, each a snapshot of its MMI reading |
| MmiSync.Classify | lib/mmi/sync_checker.py:139-175 | an element lands in at most one of the two lists (which one: `ClassifyRules`) |
| MmiSync.ClassifyIds | lib/mmi/sync_checker.py:156-175 | a classified entry carries the tracked element's id |
| MmiSync.ClassifyAllLength | lib/mmi/sync_checker.py:139-178 | together the lists hold no more entries than were tracked |
| MmiSync.ClassifyAllIds | lib/mmi/sync_checker.py:139-178 | the lists hold only tracked ids, and every element classified missing or invalid appears |
| MmiSync.ClassifyAllDisjoint | lib/mmi/sync_checker.py:156-175 | no element is both missing and invalid |
| MmiSync.ClassifyRules | lib/mmi/sync_checker.py:144-175 | a vanished or non-Model element is skipped; missing exactly when the parameter is absent or blank; invalid exactly when otherwise the validator as written proposes a correction (so "000" is listed), whose fix becomes suggested_value |
| MmiSync.ClassifyLoop | lib/mmi/sync_checker.py:136-178 | the loop computes `ClassifyAll` |
| MmiSync.MessageParts | lib/mmi/sync_checker.py:348-352 | one part per nonzero count: "<n> missing MMI" first, "<n> invalid MMI" last |
| MmiSync.AppendFirstThree | lib/mmi/sync_checker.py:360-362 | appends the first three items at most |
| MmiSync.MissingLines | lib/mmi/sync_checker.py:360-362 | one tooltip line per missing element |
| MmiSync.InvalidLines | lib/mmi/sync_checker.py:368-370 | one tooltip line per invalid element |
| MmiSync.GroupLines | lib/mmi/sync_checker.py:358-372 | appends `TooltipGroup`: a header, the first three items at most, and "... and N more" exactly when more than three |
| MmiSync.TooltipLines | lib/mmi/sync_checker.py:357-372 | the lines are `Tooltip`: the title, then the missing group if any, then the invalid group if any, each its header, the first three element lines and a "more" line when there are more than three |
| MmiSync.SyncChecker.constructor | lib/mmi/sync_checker.py:14-15 | nothing tracked, no sync in progress |
| MmiSync.SyncChecker.TrackModifiedElementsBeforeSync | lib/mmi/sync_checker.py:62-109 | the in-progress flag is set and the tracked map replaced by the owned elements' snapshots |
| MmiSync.SyncChecker.ValidatePostSyncMmi | lib/mmi/sync_checker.py:111-197 | empty result with nothing changed when not in progress or nothing tracked; otherwise the flag and the map are cleared, the lists are `ClassifyAll`, and total_checked is the number tracked |
| MmiSync.SyncChecker.ProcessPostSyncCheck | lib/mmi/sync_checker.py:315-387 | no notice and no state change without work; with work the tracked list is cleared and the in-progress flag reset; an all-valid notice with the count when no issue; otherwise "Found: " with the message parts, the view name or "Creation failed", and as tooltip the `Tooltip` lines of the two lists joined by newlines; the all-valid notice carries its fixed tooltip |
| MmiSync.ResultBounds | lib/mmi/sync_checker.py:156-185 | the issue lists together never exceed total_checked and share no element |
| ClashUtils.GuidOf | lib/clashes/clash_utils.py:47-55 | a GUID is only ever a non-empty string |
| ClashUtils.GuidNoFallback | lib/clashes/clash_utils.py:47-55 | an existing but valueless "IFCGuid" parameter blocks the fallback names, so the element has no GUID |
| ClashUtils.LastWith | lib/clashes/clash_utils.py:44-57 | the position found is -1 or a valid index |
| ClashUtils.FirstWith | lib/clashes/clash_utils.py:86-102 | the position found is -1 or a valid index |
| ClashUtils.LastWithProps | lib/clashes/clash_utils.py:44-57 | the last host element carrying the GUID, none after it, found exactly when one carries it |
| ClashUtils.FirstWithProps | lib/clashes/clash_utils.py:86-102 | the first link element carrying the GUID, none before it, found exactly when one carries it |
| ClashUtils.HostIndexProps | lib/clashes/clash_utils.py:44-57 | the host pass indexes exactly the host GUIDs, each to its last host element, not linked |
| ClashUtils.AddElemsProps | lib/clashes/clash_utils.py:86-102 | one link's pass keeps every existing entry and adds each new GUID with its first element, linked through that link |
| ClashUtils.FirstLink | lib/clashes/clash_utils.py:71-111 | the link found is loaded and carries the GUID |
| ClashUtils.FirstLinkProps | lib/clashes/clash_utils.py:71-111 | no earlier loaded link carries the GUID |
| ClashUtils.AddLinksProps | lib/clashes/clash_utils.py:71-111 | the links pass keeps existing entries and adds each new GUID from the first loaded link that has it |
| ClashUtils.IndexProps | lib/clashes/clash_utils.py:21-118 | the index holds exactly the host and link GUIDs; the host wins over links (last host element), and the first link wins among links |
| ClashUtils.IndexEntries | lib/clashes/clash_utils.py:57-101 | every entry's element carries its key GUID, and is_linked holds exactly when a link instance is stored |
| ClashUtils.AddLinkElements | lib/clashes/clash_utils.py:86-105 | the inner loop computes `AddElems` |
| ClashUtils.BuildGuidLookupDict | lib/clashes/clash_utils.py:21-118 | the two loops compute the specified `Index` |
| ClashUtils.FindElementsByGuids | lib/clashes/clash_utils.py:120-139 | exactly the requested GUIDs present in the index, with their entries |
| ClashUtils.Enrich | lib/clashes/clash_utils.py:372-432 | the clash keeps its GUIDs and IFC classes and gains metadata for both sides, each side resolved as `EnrichAgainstIndex` states |
| ClashUtils.EnrichIdempotent | lib/clashes/clash_utils.py:372-432 | enriching twice equals enriching once, so shared clash records are harmless |
| ClashUtils.EnrichAgainstIndex | lib/clashes/clash_utils.py:383-426 | a host element gives its category (else the IFC class, else "Unknown"), the host name of its level id or "Unknown", not linked; otherwise an element of the first loaded link carrying the GUID gives its category the same way, the HOST document's name for its level id or "Unknown", linked; a GUID not found gives the IFC class or "Not Found", level "Not Found", linked |
| ClashUtils.LevelName | lib/clashes/clash_utils.py:390-398 | the level is the name of the element the level id names in the document searched, else "Unknown" (no value, or no such element) |
| ClashUtils.LinkedLevelFromHost | lib/clashes/clash_utils.py:390-394 | for a GUID found only in a link, the reported level is the host's name for the level id, so it differs from the link document's name whenever the two documents name that id differently |
| ClashUtils.IntendedLevelFromOwnDocument | lib/clashes/clash_utils.py:383-426 | the intended enrichment agrees with the written one for host elements and GUIDs not in any link, and gives a linked element the level name from its own link document |
| ClashUtils.ClashRecord.constructor | lib/clashes/clash_utils.py:372-375 | a record holds its clash data |
| ClashUtils.EnrichClashData | lib/clashes/clash_utils.py:340-447 | the same list or dict comes back, and each clash record is updated in place to `Enrich` of its old value, levels resolved in the active document |
| ClashUtils.OverrideRule | lib/clashes/clash_utils.py:203-240 | a host element is coloured green (0,200,0) on itself; a linked element red (255,0,0) on its link instance |
| ClashUtils.UnionProps | lib/clashes/clash_utils.py:267-272 | the union box contains every element box |
| ClashUtils.SectionBoxContains | lib/clashes/clash_utils.py:264-282 | the padded section box contains every element box |
| ClashUtils.HighlightClashElements | lib/clashes/clash_utils.py:185-298 | one override per entry by the colour rule; a section box exactly when some box was found, equal to the padded union |
| ClashUtils.SetOtherModelsAsUnderlay | lib/clashes/clash_utils.py:300-338 | exactly the links not involved in the clash set are halftoned |
| ClashExplorer.AddToBucket | pyBS.tab/Clashes.panel/ClashExplorer.pushbutton/script.py:239-247 | appending to a defaultdict adds at most one new bucket |
| ClashExplorer.AddKeys | pyBS.tab/Clashes.panel/ClashExplorer.pushbutton/script.py:247 | the bucket keys keep insertion order; a new key goes at the end |
| ClashExplorer.AddSizes | pyBS.tab/Clashes.panel/ClashExplorer.pushbutton/script.py:247 | each clash lands in exactly one bucket |
| ClashExplorer.AddMembers | pyBS.tab/Clashes.panel/ClashExplorer.pushbutton/script.py:242-247 | every clash sits in the bucket of its own "<category A> vs <category B>" key |
| ClashExplorer.GroupKeys | pyBS.tab/Clashes.panel/ClashExplorer.pushbutton/script.py:242-246 | each clash's key is its category A and category B, by Revit category else IFC class else "Unknown" |
| ClashExplorer.BucketsProps | pyBS.tab/Clashes.panel/ClashExplorer.pushbutton/script.py:239-247 | the buckets are the distinct keys in first-seen order, each holding only its own clashes, and together holding every clash once |
| ClashExplorer.MakeGroup | pyBS.tab/Clashes.panel/ClashExplorer.pushbutton/script.py:253-263 | a group carries its name, its clashes and a count equal to their number |
| ClashExplorer.MakeGroups | pyBS.tab/Clashes.panel/ClashExplorer.pushbutton/script.py:250-264 | one group per sorted bucket, in order |
| ClashExplorer.GroupsOrder | pyBS.tab/Clashes.panel/ClashExplorer.pushbutton/script.py:251 | groups come largest first |
| ClashExplorer.GroupsShape | pyBS.tab/Clashes.panel/ClashExplorer.pushbutton/script.py:253-263 | no group is empty; its count is its size; its categories and levels are those of its first clash; all its clashes share its name |
| ClashExplorer.GroupsTotal | pyBS.tab/Clashes.panel/ClashExplorer.pushbutton/script.py:239-264 | the group counts add up to the number of clashes |
| ClashExplorer.GroupsCover | pyBS.tab/Clashes.panel/ClashExplorer.pushbutton/script.py:241-264 | every clash's key names some group |
| ClashExplorer.GroupsCoverKey | pyBS.tab/Clashes.panel/ClashExplorer.pushbutton/script.py:250-264 | a bucket key survives the sort as a group name |
| ClashExplorer.CreateGroupsFromClashes | pyBS.tab/Clashes.panel/ClashExplorer.pushbutton/script.py:231-266 | the loops compute the specified grouping `GroupsOf` |
| ClashExplorer.CategoryValues | pyBS.tab/Clashes.panel/ClashExplorer.pushbutton/script.py:287-292 | exactly the categories A and B of the groups |
| ClashExplorer.LevelValues | pyBS.tab/Clashes.panel/ClashExplorer.pushbutton/script.py:288-294 | exactly the levels A and B of the groups |
| ClashExplorer.PopulateFilterDropdowns | pyBS.tab/Clashes.panel/ClashExplorer.pushbutton/script.py:285-308 | each list starts with its "All" entry, then holds every distinct value once, sorted |
| ClashExplorer.ApplyFilters | pyBS.tab/Clashes.panel/ClashExplorer.pushbutton/script.py:310-325 | a group is kept exactly when it matches the category filter on either side and the level filter on either side |
| ClashExplorer.ApplyFiltersCompose | pyBS.tab/Clashes.panel/ClashExplorer.pushbutton/script.py:315-325 | the two filters are one combined filter; an empty or "All" selection filters nothing |
| ClashExplorer.ShortGuid | pyBS.tab/Clashes.panel/ClashExplorer.pushbutton/script.py:353-354 | a missing or empty GUID shows "Unknown"; otherwise its first eight characters and "..." |
| ClashExplorer.LoadClashDetails | pyBS.tab/Clashes.panel/ClashExplorer.pushbutton/script.py:337-360 | one detail per clash of the group, in order |
| ClashExplorer.ClashGuids | pyBS.tab/Clashes.panel/ClashExplorer.pushbutton/script.py:383-389 | exactly the clash's non-empty GUIDs |
| ClashExplorer.GroupGuids | pyBS.tab/Clashes.panel/ClashExplorer.pushbutton/script.py:381-389 | exactly the non-empty GUIDs of the group's clashes |
| ClashExplorer.HighlightGroup | pyBS.tab/Clashes.panel/ClashExplorer.pushbutton/script.py:369-418 | the elements found are exactly the group's GUIDs present in the index; no view when none is found, else "Clash - <group name>" |
| ClashExplorer.HighlightClash | pyBS.tab/Clashes.panel/ClashExplorer.pushbutton/script.py:426-472 | the elements found are exactly the clash's GUIDs present in the index; no view when none is found, else "Clash - " and the first 16 characters of the key |
| RevitUtils.SliceTo | lib/revit/revit_utils.py:245-253 | Python's `s[:n]`: a prefix for 0 <= n, the whole list past its end, and counting from the end for a negative n |
| RevitUtils.GenerateColorRange | lib/revit/revit_utils.py:234-305 | the loops compute the specified `ColorRange` |
| RevitUtils.ColorRangeLength | lib/revit/revit_utils.py:244-305 | exactly `count` colours for every count >= 0 |
| RevitUtils.ColorRangeSmall | lib/revit/revit_utils.py:244-253 | up to five colours are a prefix of red, green, blue, gold, purple |
| RevitUtils.RedToGreenBounds | lib/revit/revit_utils.py:258-266 | the red-to-green colours are bytes with no blue |
| RevitUtils.GreenToBlueBounds | lib/revit/revit_utils.py:268-276 | the green-to-blue colours are bytes with no red |
| RevitUtils.ColorRangeGradient | lib/revit/revit_utils.py:255-276 | for 6..20 colours the first count/2 run from red to green with no blue and the rest from green to blue with no red |
| RevitUtils.WheelBounds | lib/revit/revit_utils.py:278-305 | every HSV wheel colour is a byte triple with one component 255 and one 0 |
| RevitUtils.ColorRangeWheel | lib/revit/revit_utils.py:278-305 | above 20 colours every colour is a fully saturated, full-value byte triple |
| RevitUtils.ParameterValueString | lib/revit/revit_utils.py:193-232 | "None" without a value; the element's name for a valid id, else "None"; "True" exactly for a Yes/No value of 1, else "False"; the text, or "None" when it is empty |
| RevitUtils.ParamDictProps | lib/revit/revit_utils.py:351-361 | the dictionary holds exactly the non-category parameter names, each with a parameter of that name |
| RevitUtils.CollectParams | lib/revit/revit_utils.py:352-361 | the inner loop builds that dictionary |
| RevitUtils.FirstSuppliedSnoc | lib/revit/revit_utils.py:351-376 | a side is filled by the first element of the category that supplies parameters and never overwritten |
| RevitUtils.CategoriesProps | lib/revit/revit_utils.py:307-378 | exactly the non-excluded categories carried by some element, each with the parameters of the first element (and type) that supplies them |
| RevitUtils.FirstSuppliedNone | lib/revit/revit_utils.py:343-348 | a category no element carries has no parameters |
| RevitUtils.AddElement | lib/revit/revit_utils.py:331-376 | one loop pass computes the specified step |
| RevitUtils.GetCategoriesInView | lib/revit/revit_utils.py:307-378 | the loop computes exactly that dictionary |
| RevitUtils.WritableNames | lib/revit/revit_utils.py:56-58 | exactly the names of writable text, number and integer parameters |
| RevitUtils.AllWritableNames | lib/revit/revit_utils.py:54-58 | exactly the writable parameter names of any of the elements |
| RevitUtils.CollectWritable | lib/revit/revit_utils.py:56-58 | the inner loop collects those names |
| RevitUtils.GetAvailableParameters | lib/revit/revit_utils.py:47-60 | sorted, and each writable name exactly once |
| ColorValues.AccentBase | pyBS.tab/View.panel/ColorElements.pushbutton/script.py:751-787 | each listed group of accented letters becomes its base letter (a, e, i, o, u, n, c, y, z, s); any other character is kept |
| ColorValues.StripAccents | pyBS.tab/View.panel/ColorElements.pushbutton/script.py:751-789 | same length; each character folded by `AccentBase` in place, so unlisted characters are kept; no accented letter left |
| ColorValues.StripAccentsIdempotent | pyBS.tab/View.panel/ColorElements.pushbutton/script.py:751-789 | folding twice is folding once, and ASCII text is left unchanged |
| ColorValues.SimpleStripAccents | pyBS.tab/View.panel/ColorElements.pushbutton/script.py:751-789 | the character loop computes `StripAccents` |
| ColorValues.ParameterValue | pyBS.tab/View.panel/ColorElements.pushbutton/script.py:1590-1619 | the value string of `get_parameter_value`; None exactly for the exceptions it lets through (an id naming no element) |
| ColorValues.HitValues | pyBS.tab/View.panel/ColorElements.pushbutton/script.py:1512-1514 | the values read, one per hit, in order |
| ColorValues.Values | pyBS.tab/View.panel/ColorElements.pushbutton/script.py:1517 | the values of the rows, in order |
| ColorValues.IdsOfAbsent | pyBS.tab/View.panel/ColorElements.pushbutton/script.py:1517-1527 | a value nobody read has no element ids |
| ColorValues.FindValue | pyBS.tab/View.panel/ColorElements.pushbutton/script.py:1517-1519 | the first row with the value, or -1 when no row has it |
| ColorValues.GroupIntoAppend | pyBS.tab/View.panel/ColorElements.pushbutton/script.py:1486-1528 | grouping two runs of hits one after the other is grouping them together |
| ColorValues.AddHitProps | pyBS.tab/View.panel/ColorElements.pushbutton/script.py:1517-1527 | a hit appends its id to the row of its value, or adds a new row at the end; rows stay distinct |
| ColorValues.GroupValues | pyBS.tab/View.panel/ColorElements.pushbutton/script.py:1504-1528 | the rows are the distinct values read, in first-read order, with no two rows alike |
| ColorValues.GroupIds | pyBS.tab/View.panel/ColorElements.pushbutton/script.py:1517-1527 | each row holds exactly the ids of the elements that read its value, in reading order |
| ColorValues.FindName | pyBS.tab/View.panel/ColorElements.pushbutton/script.py:1512-1513 | the first parameter with the name, or -1 when none has it |
| ColorValues.ElementRead | pyBS.tab/View.panel/ColorElements.pushbutton/script.py:1504-1528 | an element is skipped without a type for a type parameter or without the named parameter, else read by its first parameter of that name |
| ColorValues.AllHitsFromElements | pyBS.tab/View.panel/ColorElements.pushbutton/script.py:1486-1528 | every hit comes from an element of a selected category whose chosen parameter was read |
| ColorValues.ElementsHitsFrom | pyBS.tab/View.panel/ColorElements.pushbutton/script.py:1504-1528 | every hit of one category comes from one of its elements |
| ColorValues.CollectElements | pyBS.tab/View.panel/ColorElements.pushbutton/script.py:1504-1528 | the element loop groups exactly the hits of the category, and stops when a read raises |
| ColorValues.AbortStaysAborted | pyBS.tab/View.panel/ColorElements.pushbutton/script.py:1514 | a read that raises aborts the whole run |
| ColorValues.CategoryAbortStaysAborted | pyBS.tab/View.panel/ColorElements.pushbutton/script.py:1486-1528 | an aborted category aborts every later state |
| ColorValues.AllHitsStep | pyBS.tab/View.panel/ColorElements.pushbutton/script.py:1486-1528 | the hits of a prefix of categories grow by one category's hits at a time |
| ColorValues.CollectValues | pyBS.tab/View.panel/ColorElements.pushbutton/script.py:1478-1528 | the loops group exactly the hits read, unless a read raises |
| ColorValues.Paint | pyBS.tab/View.panel/ColorElements.pushbutton/script.py:1556-1575 | one row per row, in order |
| ColorValues.PaintValues | pyBS.tab/View.panel/ColorElements.pushbutton/script.py:1556-1575 | the colour loops compute `Paint` |
| ColorValues.FilterDistinct | pyBS.tab/View.panel/ColorElements.pushbutton/script.py:1531-1532 | filtering keeps rows distinct |
| ColorValues.DistinctValuesBy | pyBS.tab/View.panel/ColorElements.pushbutton/script.py:1517-1527 | no two rows share a value |
| ColorValues.CountIfZero | pyBS.tab/View.panel/ColorElements.pushbutton/script.py:1531 | no matching row gives a count of zero |
| ColorValues.AtMostOneNone | pyBS.tab/View.panel/ColorElements.pushbutton/script.py:1531 | among distinct rows at most one reads "None" |
| ColorValues.NonesProps | pyBS.tab/View.panel/ColorElements.pushbutton/script.py:1531-1553 | at most one "None" row, and it is appended after the sorted other rows |
| ColorValues.OrderedMembers | pyBS.tab/View.panel/ColorElements.pushbutton/script.py:1531-1553 | ordering neither loses nor invents rows |
| ColorValues.OrderedDistinct | pyBS.tab/View.panel/ColorElements.pushbutton/script.py:1531-1553 | ordered rows stay distinct |
| ColorValues.OrderedNoneLast | pyBS.tab/View.panel/ColorElements.pushbutton/script.py:1552-1553 | "None" can only be the last row |
| ColorValues.OrderedSorted | pyBS.tab/View.panel/ColorElements.pushbutton/script.py:1546 | the rows other than "None" come in sort-key order |
| ColorValues.PaintProps | pyBS.tab/View.panel/ColorElements.pushbutton/script.py:1556-1575 | painting keeps every row's value and ids; the "None" row is grey 192 and every other row takes the palette colour of its position |
| ColorValues.ArrangedRows | pyBS.tab/View.panel/ColorElements.pushbutton/script.py:1478-1577 | the legend's rows are exactly the distinct values read, each with the ids of the elements that read it |
| ColorValues.ArrangedOrder | pyBS.tab/View.panel/ColorElements.pushbutton/script.py:1531-1577 | rows other than "None" come in sort-key order with the palette colour of their position; "None" comes last and grey |
| ColorValues.ItemLeProps | pyBS.tab/View.panel/ColorElements.pushbutton/script.py:1538-1546 | the number key is a total preorder, with empty or unparsable values as infinity |
| ColorValues.ExtractMeasure | pyBS.tab/View.panel/ColorElements.pushbutton/script.py:1538-1544 | a measure such as "136 m" sorts by its number when its unit has no digit, '.' or '-' |
| ColorValues.MeasureDigits | pyBS.tab/View.panel/ColorElements.pushbutton/script.py:1540 | only the digits of such a measure are kept |
| ColorValues.ParseNatural | pyBS.tab/View.panel/ColorElements.pushbutton/script.py:1542 | a printed natural number reads back as itself |
| ColorValues.FilterNone | pyBS.tab/View.panel/ColorElements.pushbutton/script.py:1540 | a text with no kept character leaves nothing |
| ColorValues.FilterAll | pyBS.tab/View.panel/ColorElements.pushbutton/script.py:1540 | a text of kept characters is kept whole |
| ViewColorElements.ViewColorRange | pyBS.tab/View.panel/ColorElements.pushbutton/script.py:1621-1718 | exactly `count` colours for every count >= 0 |
| ViewColorElements.GenerateColorRange | pyBS.tab/View.panel/ColorElements.pushbutton/script.py:1621-1718 | the palette prefix or the HSV loop computes `ViewColorRange` |
| ViewColorElements.DivRange | pyBS.tab/View.panel/ColorElements.pushbutton/script.py:1683-1718 | the integer truncation of the wheel arithmetic stays inside its band |
| ViewColorElements.HsvBounds | pyBS.tab/View.panel/ColorElements.pushbutton/script.py:1683-1718 | every wheel colour has its components between 34 and 229, the highest and the lowest both present |
| ViewColorElements.Jewel5Distinct | pyBS.tab/View.panel/ColorElements.pushbutton/script.py:1631-1640 | the five-colour palette has no repeated colour |
| ViewColorElements.Jewel9Distinct | pyBS.tab/View.panel/ColorElements.pushbutton/script.py:1643-1656 | the nine-colour palette has no repeated colour |
| ViewColorElements.BandsDistinct | pyBS.tab/View.panel/ColorElements.pushbutton/script.py:1658-1681 | three runs of distinct colours in different bands are distinct together |
| ViewColorElements.HueCircleDistinct | pyBS.tab/View.panel/ColorElements.pushbutton/script.py:1658-1681 | the nineteen-colour palette has no repeated colour |
| ViewColorElements.PrefixDistinct | pyBS.tab/View.panel/ColorElements.pushbutton/script.py:1640 | a prefix of a palette without repeats has none |
| ViewColorElements.ViewColorRangeDistinct | pyBS.tab/View.panel/ColorElements.pushbutton/script.py:1631-1681 | up to nineteen colours, no colour repeats |
| ViewColorElements.ViewColorRangeWheel | pyBS.tab/View.panel/ColorElements.pushbutton/script.py:1683-1718 | beyond nineteen, every colour is a wheel colour with components between 34 and 229 |
| ViewColorElements.GetParameterValues | pyBS.tab/View.panel/ColorElements.pushbutton/script.py:1478-1577 | the loops, the sort and the painting compute the specified `Legend` |
| ViewColorElements.LegendProps | pyBS.tab/View.panel/ColorElements.pushbutton/script.py:1478-1577 | one row per distinct value read, with the ids of the elements that read it; other rows ordered by the number in their value and coloured by position; "None" last and grey |
| ViewColorElements.OfKind | pyBS.tab/View.panel/ColorElements.pushbutton/script.py:947-952 | exactly the parameters of the chosen kind |
| ViewColorElements.Names | pyBS.tab/View.panel/ColorElements.pushbutton/script.py:955 | the names of the parameters, in order |
| ViewColorElements.WithNameInMembers | pyBS.tab/View.panel/ColorElements.pushbutton/script.py:956 | exactly the parameters whose name is listed |
| ViewColorElements.KeepCommonSnoc | pyBS.tab/View.panel/ColorElements.pushbutton/script.py:950-956 | one more category narrows the common list by its names |
| ViewColorElements.WithNameInAppend | pyBS.tab/View.panel/ColorElements.pushbutton/script.py:956 | filtering by name distributes over concatenation |
| ViewColorElements.KeepCommonNone | pyBS.tab/View.panel/ColorElements.pushbutton/script.py:946-947 | with one category, its parameters of the kind are the common ones |
| ViewColorElements.NarrowIsCommon | pyBS.tab/View.panel/ColorElements.pushbutton/script.py:946-956 | the narrowing loop keeps the first category's parameters of the kind whose name every other category has, in the first category's order |
| ViewColorElements.KeepCommonMembers | pyBS.tab/View.panel/ColorElements.pushbutton/script.py:946-956 | a parameter is common exactly when the first category has it and every other category has its name |
| ViewColorElements.SelectedIndex | pyBS.tab/View.panel/ColorElements.pushbutton/script.py:959-972 | none exactly when no parameter is common |
| ViewColorElements.LastNamed | pyBS.tab/View.panel/ColorElements.pushbutton/script.py:960-964 | the last parameter with the name, or -1 when none has it |
| ViewColorElements.NarrowParams | pyBS.tab/View.panel/ColorElements.pushbutton/script.py:950-956 | the loop computes the narrowing |
| ViewColorElements.SelectParam | pyBS.tab/View.panel/ColorElements.pushbutton/script.py:959-972 | the loop computes `SelectedIndex` |
| ViewColorElements.LoadParametersForCategories | pyBS.tab/View.panel/ColorElements.pushbutton/script.py:914-987 | the window's parameter list and selection are the specified `LoadSpec` |
| ViewColorElements.LoadProps | pyBS.tab/View.panel/ColorElements.pushbutton/script.py:935-972 | the list holds exactly the common parameters of the chosen kind, and the preserved name is selected whenever it is among them, else the first |
| ViewColorElements.LastNamedFound | pyBS.tab/View.panel/ColorElements.pushbutton/script.py:963-964 | a parameter is found exactly when the name is listed |
| ViewColorElements.ParseSchemaLine | pyBS.tab/View.panel/ColorElements.pushbutton/script.py:1151-1174 | blank lines are skipped; an entry has exactly two parts around "::", its value is the first part and its colour components are bytes |
| ViewColorElements.ReadSchema | pyBS.tab/View.panel/ColorElements.pushbutton/script.py:1150-1174 | the reading loop computes `LoadSchema`, failing as a whole on a bad number |
| ViewColorElements.SchemaFailStays | pyBS.tab/View.panel/ColorElements.pushbutton/script.py:1167-1169 | one line that does not convert fails the whole file |
| ViewColorElements.ParseFormatEntry | pyBS.tab/View.panel/ColorElements.pushbutton/script.py:1150-1174 | a colon-free value with byte components, written as `value::RrGgBb`, reads back as itself |
| ViewColorElements.ParseLineOf | pyBS.tab/View.panel/ColorElements.pushbutton/script.py:1157-1174 | a line whose parts are known reads as the entry they spell |
| ViewColorElements.FormatEntryParts | pyBS.tab/View.panel/ColorElements.pushbutton/script.py:1157-1166 | a written entry splits into its value and its colour text |
| ViewColorElements.RgbTextNoColon | pyBS.tab/View.panel/ColorElements.pushbutton/script.py:1157 | colour text has no colon |
| ViewColorElements.SplitOnFirst | pyBS.tab/View.panel/ColorElements.pushbutton/script.py:1157 | `a::b` splits into `[a, b]` when neither part has a colon |
| ViewColorElements.SplitAnyNone | pyBS.tab/View.panel/ColorElements.pushbutton/script.py:1165 | text without R, G or B is one piece |
| ViewColorElements.SplitAnyPlain | pyBS.tab/View.panel/ColorElements.pushbutton/script.py:1165 | a separator-free prefix joins the first piece of what follows |
| ViewColorElements.SplitAnyAtSep | pyBS.tab/View.panel/ColorElements.pushbutton/script.py:1165 | a leading separator starts an empty piece |
| ViewColorElements.DigitsFree | pyBS.tab/View.panel/ColorElements.pushbutton/script.py:1165 | digits are never R, G or B |
| ViewColorElements.RgbTextPieces | pyBS.tab/View.panel/ColorElements.pushbutton/script.py:1165-1169 | written colour text splits into an empty piece and the three numbers |
| ViewColorElements.RgbPieces | pyBS.tab/View.panel/ColorElements.pushbutton/script.py:1165 | `R<r>G<g>B<b>` splits into an empty piece and the three numbers |
| ViewColorElements.TailPieces | pyBS.tab/View.panel/ColorElements.pushbutton/script.py:1165 | a separator then a plain piece then more pieces split as expected |
| ViewColorElements.LastMatchProps | pyBS.tab/View.panel/ColorElements.pushbutton/script.py:1179-1188 | the colour applied is that of the last entry for the value, and none when no entry has it |
| ViewColorElements.RecolorItem | pyBS.tab/View.panel/ColorElements.pushbutton/script.py:1180-1188 | the inner loop computes `Recolor` |
| ViewColorElements.ApplySchema | pyBS.tab/View.panel/ColorElements.pushbutton/script.py:1179-1188 | one row per row |
| ViewColorElements.ApplyColorSchema | pyBS.tab/View.panel/ColorElements.pushbutton/script.py:1177-1191 | only when both lists are non-empty, the loops compute `ApplySchema` |
| ViewColorElements.ApplySchemaProps | pyBS.tab/View.panel/ColorElements.pushbutton/script.py:1177-1188 | only colours change; a row named in the schema takes its last entry's colour, the others keep theirs; applying again changes nothing |
| ViewColorElements.Stem | pyBS.tab/View.panel/ColorElements.pushbutton/script.py:1208 | the name loses ".cschn", except a hidden file that is only dots and the extension |
| ViewColorElements.AvailableSchemas | pyBS.tab/View.panel/ColorElements.pushbutton/script.py:1199-1214 | every schema comes from a listed ".cschn" file |
| ViewColorElements.FirstSchema | pyBS.tab/View.panel/ColorElements.pushbutton/script.py:1222-1225 | the first schema whose name matches ignoring case, or -1 |
| ViewColorElements.CheckForMatchingSchema | pyBS.tab/View.panel/ColorElements.pushbutton/script.py:1216-1227 | nothing for an empty name; else the file of the first schema whose name equals it ignoring case |
| ViewColorElements.MatchingSchemaFound | pyBS.tab/View.panel/ColorElements.pushbutton/script.py:1199-1227 | a schema file named after the parameter is always found |
| ViewColorElements.AvailableContains | pyBS.tab/View.panel/ColorElements.pushbutton/script.py:1205-1212 | every ".cschn" file is listed as a schema |
| BsColorElements.GetParameterValues | pyByggstyrning.extension/BS.tab/Colorize.panel/ColorElements.pushbutton/script.py:1233-1332 | the loops, the sort and the painting compute the specified `Legend`, reading text parameters raw |
| BsColorElements.LegendProps | pyByggstyrning.extension/BS.tab/Colorize.panel/ColorElements.pushbutton/script.py:1267-1330 | one row per distinct value read, with the ids of the elements that read it; other rows ordered by the number in their value and coloured by position; "None" last and grey 192 |
| BsColorElements.ListParams | pyByggstyrning.extension/BS.tab/Colorize.panel/ColorElements.pushbutton/script.py:813-828 | exactly the non-category parameters, each listed with its kind |
| BsColorElements.OrdersTotal | pyByggstyrning.extension/BS.tab/Colorize.panel/ColorElements.pushbutton/script.py:832-838 | sorting by upper-cased parameter name and by category name are total preorders |
| BsColorElements.ExcludedOr | pyByggstyrning.extension/BS.tab/Colorize.panel/ColorElements.pushbutton/script.py:725-726 | the exclusion set given, else the built-in excluded categories |
| BsColorElements.GetUsedCategories | pyByggstyrning.extension/BS.tab/Colorize.panel/ColorElements.pushbutton/script.py:722-839 | the loop and the sort compute the specified `UsedCategories` |
| BsColorElements.FirstTyped | pyByggstyrning.extension/BS.tab/Colorize.panel/ColorElements.pushbutton/script.py:802-822 | the first element of the category that has a type, or -1 when none has |
| BsColorElements.CollectListed | pyByggstyrning.extension/BS.tab/Colorize.panel/ColorElements.pushbutton/script.py:802-835 | a category is collected exactly for each non-excluded id that some element with a type carries |
| BsColorElements.BuiltFromFirstExtend | pyByggstyrning.extension/BS.tab/Colorize.panel/ColorElements.pushbutton/script.py:809-810 | a category built from the first typed element stays so as elements are added |
| BsColorElements.CollectFirst | pyByggstyrning.extension/BS.tab/Colorize.panel/ColorElements.pushbutton/script.py:809-835 | each category is built from the first element with a type that carries its id |
| BsColorElements.CollectDistinct | pyByggstyrning.extension/BS.tab/Colorize.panel/ColorElements.pushbutton/script.py:809-810 | no two collected categories share an id |
| BsColorElements.UsedCategoriesSorted | pyByggstyrning.extension/BS.tab/Colorize.panel/ColorElements.pushbutton/script.py:838 | the result is sorted by name and lists each id once |
| BsColorElements.UsedCategoriesListed | pyByggstyrning.extension/BS.tab/Colorize.panel/ColorElements.pushbutton/script.py:802-839 | exactly the ids carried by an element that has a type and a non-excluded category |
| BsColorElements.UsedCategoriesFirst | pyByggstyrning.extension/BS.tab/Colorize.panel/ColorElements.pushbutton/script.py:802-839 | each category listed is built from the first typed element of its id |
| BsColorElements.CategoryParams | pyByggstyrning.extension/BS.tab/Colorize.panel/ColorElements.pushbutton/script.py:813-832 | a category's parameters are its instance (kind 0) and type (kind 1) parameters without category parameters, sorted by upper-cased name, stable |
| BsColorElements.SelectedNames | pyByggstyrning.extension/BS.tab/Colorize.panel/ColorElements.pushbutton/script.py:1557-1565 | only names of the list |
| BsColorElements.Restored | pyByggstyrning.extension/BS.tab/Colorize.panel/ColorElements.pushbutton/script.py:673-696 | one check box per item |
| BsColorElements.SelectedNamesMembers | pyByggstyrning.extension/BS.tab/Colorize.panel/ColorElements.pushbutton/script.py:1559-1562 | with distinct names, a name is stored exactly when its item is checked |
| BsColorElements.StoreThenRestore | pyByggstyrning.extension/BS.tab/Colorize.panel/ColorElements.pushbutton/script.py:624-708 | storing the checked names and loading the same list checks the same items, when one was checked and names are distinct |
| BsColorElements.RestoredProps | pyByggstyrning.extension/BS.tab/Colorize.panel/ColorElements.pushbutton/script.py:673-696 | a non-empty list is never left unchecked; stored names are checked, and when none is present only the first item |
| BsColorElements.CategoryPanel.constructor | pyByggstyrning.extension/BS.tab/Colorize.panel/ColorElements.pushbutton/script.py:387-471 | an empty, unchecked list with nothing stored |
| BsColorElements.CategoryPanel.StoreSelectedCategories | pyByggstyrning.extension/BS.tab/Colorize.panel/ColorElements.pushbutton/script.py:1557-1565 | the stored names are the checked items' names in list order; the list is unchanged |
| BsColorElements.CategoryPanel.RestoreSelection | pyByggstyrning.extension/BS.tab/Colorize.panel/ColorElements.pushbutton/script.py:670-696 | the check boxes become `Restored` of the stored names |
| BsColorElements.CategoryPanel.LoadCategories | pyByggstyrning.extension/BS.tab/Colorize.panel/ColorElements.pushbutton/script.py:624-712 | the list becomes the view's categories, checked by the stored (or current) names, and what ends up checked is stored |
| PyRevitColorizer.ListParams | pyByggstyrning.extension/BS.tab/Colorize.panel/PyRevitColorizer.pushbutton/script.py:300-311 | exactly the parameters with a definition and a storage, each listed with its kind |
| PyRevitColorizer.NameLeTotal | pyByggstyrning.extension/BS.tab/Colorize.panel/PyRevitColorizer.pushbutton/script.py:314 | sorting by parameter name is a total preorder |
| PyRevitColorizer.ExcludedOr | pyByggstyrning.extension/BS.tab/Colorize.panel/PyRevitColorizer.pushbutton/script.py:274-275 | the list given unless it is empty, else the built-in excluded categories |
| PyRevitColorizer.GetUsedCategories | pyByggstyrning.extension/BS.tab/Colorize.panel/PyRevitColorizer.pushbutton/script.py:272-321 | the loop and the sort compute the specified `UsedCategories` |
| PyRevitColorizer.FirstOf | pyByggstyrning.extension/BS.tab/Colorize.panel/PyRevitColorizer.pushbutton/script.py:286-297 | the first element carrying the category, or -1 |
| PyRevitColorizer.CollectListed | pyByggstyrning.extension/BS.tab/Colorize.panel/PyRevitColorizer.pushbutton/script.py:286-317 | a category is collected exactly for each id below -1, not excluded, that some element carries |
| PyRevitColorizer.BuiltFromFirstExtend | pyByggstyrning.extension/BS.tab/Colorize.panel/PyRevitColorizer.pushbutton/script.py:296-297 | a category built from the first element of its id stays so as elements are added |
| PyRevitColorizer.CollectFirst | pyByggstyrning.extension/BS.tab/Colorize.panel/PyRevitColorizer.pushbutton/script.py:296-317 | each category is built from the first element carrying its id |
| PyRevitColorizer.CollectDistinct | pyByggstyrning.extension/BS.tab/Colorize.panel/PyRevitColorizer.pushbutton/script.py:296-297 | no two collected categories share an id |
| PyRevitColorizer.UsedCategoriesSorted | pyByggstyrning.extension/BS.tab/Colorize.panel/PyRevitColorizer.pushbutton/script.py:320 | the result is sorted by name and lists each id once |
| PyRevitColorizer.UsedCategoriesListed | pyByggstyrning.extension/BS.tab/Colorize.panel/PyRevitColorizer.pushbutton/script.py:286-321 | exactly the ids below -1, not excluded, that an element of the view carries |
| PyRevitColorizer.UsedCategoriesFirst | pyByggstyrning.extension/BS.tab/Colorize.panel/PyRevitColorizer.pushbutton/script.py:286-321 | each category listed is built from the first element of its id |
| PyRevitColorizer.CategoryParams | pyByggstyrning.extension/BS.tab/Colorize.panel/PyRevitColorizer.pushbutton/script.py:300-314 | the element's (kind 0) and its type's (kind 1) listable parameters, sorted by name, stable |
| PyRevitColorizer.GetParameterValue | pyByggstyrning.extension/BS.tab/Colorize.panel/PyRevitColorizer.pushbutton/script.py:340-382 | an empty result only where the source returns an empty formatted value |
| PyRevitColorizer.ParameterValueCases | pyByggstyrning.extension/BS.tab/Colorize.panel/PyRevitColorizer.pushbutton/script.py:340-382 | "None" without a value; "Yes"/"No" for Yes/No; an unformatted integer as text reading back as it; an element's name, or "None" for a negative or unknown id; a text, or "None" when empty |
| PyRevitColorizer.Shown | pyByggstyrning.extension/BS.tab/Colorize.panel/PyRevitColorizer.pushbutton/script.py:1121 | never empty, and the parameter's value whenever that is non-empty |
| PyRevitColorizer.ReadFromNoValue | pyByggstyrning.extension/BS.tab/Colorize.panel/PyRevitColorizer.pushbutton/script.py:1117-1151 | nothing is read exactly when every remaining parameter has a definition and is not one of the name with a kept value |
| PyRevitColorizer.ReadFromValue | pyByggstyrning.extension/BS.tab/Colorize.panel/PyRevitColorizer.pushbutton/script.py:1117-1151 | a value read is the shown value of the first parameter of the name whose value is kept, every parameter before it passed over |
| PyRevitColorizer.ReadFromAborted | pyByggstyrning.extension/BS.tab/Colorize.panel/PyRevitColorizer.pushbutton/script.py:1117-1151 | a reading raises only at a parameter without a definition, every parameter before it passed over |
| PyRevitColorizer.ReadParams | pyByggstyrning.extension/BS.tab/Colorize.panel/PyRevitColorizer.pushbutton/script.py:1117-1151 | the loop with its `continue` and `break` computes `ReadFrom` |
| PyRevitColorizer.ReadElement | pyByggstyrning.extension/BS.tab/Colorize.panel/PyRevitColorizer.pushbutton/script.py:1112-1151 | reading one element looks at its own parameters or its type's, and gives nothing for an element without a type |
| PyRevitColorizer.AbortStays | pyByggstyrning.extension/BS.tab/Colorize.panel/PyRevitColorizer.pushbutton/script.py:1152-1154 | once a reading raises, the whole run does |
| PyRevitColorizer.HitsValues | pyByggstyrning.extension/BS.tab/Colorize.panel/PyRevitColorizer.pushbutton/script.py:1121-1126 | every value read is non-empty, and with `exclude_none` none is "None" |
| PyRevitColorizer.Predefined | pyByggstyrning.extension/BS.tab/Colorize.panel/PyRevitColorizer.pushbutton/script.py:1144-1145 | a colour exactly when the parameter and the value are both listed, and then the listed one |
| PyRevitColorizer.DrawFresh | pyByggstyrning.extension/BS.tab/Colorize.panel/PyRevitColorizer.pushbutton/script.py:1137-1141 | the colour drawn is not used yet and has components in 0..230 |
| PyRevitColorizer.Colour | pyByggstyrning.extension/BS.tab/Colorize.panel/PyRevitColorizer.pushbutton/script.py:1137-1145 | a new row's colour is the predefined one when there is one, else the one drawn |
| PyRevitColorizer.Colored | pyByggstyrning.extension/BS.tab/Colorize.panel/PyRevitColorizer.pushbutton/script.py:1129-1149 | one row per row |
| PyRevitColorizer.FindValueSame | pyByggstyrning.extension/BS.tab/Colorize.panel/PyRevitColorizer.pushbutton/script.py:1129 | the search finds the same row when only colours differ |
| PyRevitColorizer.AddValue | pyByggstyrning.extension/BS.tab/Colorize.panel/PyRevitColorizer.pushbutton/script.py:1129-1149 | a value read joins the row of its value or adds a new row with a fresh colour |
| PyRevitColorizer.HitsStep | pyByggstyrning.extension/BS.tab/Colorize.panel/PyRevitColorizer.pushbutton/script.py:1110-1151 | the hits of a prefix of elements grow by one element's hit at a time |
| PyRevitColorizer.GroupSnoc | pyByggstyrning.extension/BS.tab/Colorize.panel/PyRevitColorizer.pushbutton/script.py:1129-1149 | grouping one more hit adds it to its row or adds a row |
| PyRevitColorizer.CollectRows | pyByggstyrning.extension/BS.tab/Colorize.panel/PyRevitColorizer.pushbutton/script.py:1106-1154 | the loop builds the coloured grouped rows, or fails when a reading raises |
| PyRevitColorizer.SafeFloat | pyByggstyrning.extension/BS.tab/Colorize.panel/PyRevitColorizer.pushbutton/script.py:384-389 | the number of a numeric text, else 0.0 |
| PyRevitColorizer.SafeFloatOfNatural | pyByggstyrning.extension/BS.tab/Colorize.panel/PyRevitColorizer.pushbutton/script.py:384-389 | the text of a whole number is numeric and reads back as that number |
| PyRevitColorizer.UnitsFrom | pyByggstyrning.extension/BS.tab/Colorize.panel/PyRevitColorizer.pushbutton/script.py:398-401 | zero exactly when no later character ends the number |
| PyRevitColorizer.IndexUnits | pyByggstyrning.extension/BS.tab/Colorize.panel/PyRevitColorizer.pushbutton/script.py:391-403 | zero exactly when every character after the first is a digit, '.' or ','; otherwise the length from the first other character to the end |
| PyRevitColorizer.GetIndexUnits | pyByggstyrning.extension/BS.tab/Colorize.panel/PyRevitColorizer.pushbutton/script.py:391-403 | the loop computes `IndexUnits` |
| PyRevitColorizer.MeasureUnits | pyByggstyrning.extension/BS.tab/Colorize.panel/PyRevitColorizer.pushbutton/script.py:1174-1178 | a measure such as "12mm" has its unit's length as the index, and what is left is its number |
| PyRevitColorizer.ModeOf | pyByggstyrning.extension/BS.tab/Colorize.panel/PyRevitColorizer.pushbutton/script.py:1167-1178 | by number when the first has no unit and all are numbers; by the number before the unit when the first has a unit; else by text |
| PyRevitColorizer.OrdersTotal | pyByggstyrning.extension/BS.tab/Colorize.panel/PyRevitColorizer.pushbutton/script.py:1164-1178 | the text order and each number order are total preorders |
| PyRevitColorizer.GetParameterValues | pyByggstyrning.extension/BS.tab/Colorize.panel/PyRevitColorizer.pushbutton/script.py:1061-1189 | no rows without a view or elements; else the rows are the specified `Rows` of the values read |
| PyRevitColorizer.SortRestProps | pyByggstyrning.extension/BS.tab/Colorize.panel/PyRevitColorizer.pushbutton/script.py:1161-1181 | the rows other than "None" come out as a permutation in the chosen order, equal keys keeping text order |
| PyRevitColorizer.SortRestMembers | pyByggstyrning.extension/BS.tab/Colorize.panel/PyRevitColorizer.pushbutton/script.py:1161-1181 | sorting neither loses nor invents rows |
| PyRevitColorizer.ArrangeShape | pyByggstyrning.extension/BS.tab/Colorize.panel/PyRevitColorizer.pushbutton/script.py:1157-1187 | the "None" row, if any, is kept after the others |
| PyRevitColorizer.ArrangeMembers | pyByggstyrning.extension/BS.tab/Colorize.panel/PyRevitColorizer.pushbutton/script.py:1157-1187 | every row with elements is kept, and no other |
| PyRevitColorizer.ArrangeDistinct | pyByggstyrning.extension/BS.tab/Colorize.panel/PyRevitColorizer.pushbutton/script.py:1157-1187 | arranged rows keep distinct values, "None" only last |
| PyRevitColorizer.SortRestDistinct | pyByggstyrning.extension/BS.tab/Colorize.panel/PyRevitColorizer.pushbutton/script.py:1161-1181 | sorting keeps rows distinct |
| PyRevitColorizer.ColoredProps | pyByggstyrning.extension/BS.tab/Colorize.panel/PyRevitColorizer.pushbutton/script.py:1129-1149 | colouring keeps the rows' values and ids |
| PyRevitColorizer.RowsFrom | pyByggstyrning.extension/BS.tab/Colorize.panel/PyRevitColorizer.pushbutton/script.py:1106-1189 | each row returned is one of the coloured grouped rows |
| PyRevitColorizer.RowsDistinct | pyByggstyrning.extension/BS.tab/Colorize.panel/PyRevitColorizer.pushbutton/script.py:1106-1189 | the rows have distinct values, "None" only last |
| PyRevitColorizer.RowsValues | pyByggstyrning.extension/BS.tab/Colorize.panel/PyRevitColorizer.pushbutton/script.py:1106-1189 | a row for each value read, and for no other value |
| PyRevitColorizer.RowsIdsColours | pyByggstyrning.extension/BS.tab/Colorize.panel/PyRevitColorizer.pushbutton/script.py:1129-1149 | each row holds the ids of the elements reading its value, and the predefined colour of its value or the one drawn |
| PyRevitColorizer.RowsColoursDistinct | pyByggstyrning.extension/BS.tab/Colorize.panel/PyRevitColorizer.pushbutton/script.py:1137-1141 | rows without a predefined colour have different colours |
| PyRevitColorizer.ParameterValuesProps | pyByggstyrning.extension/BS.tab/Colorize.panel/PyRevitColorizer.pushbutton/script.py:1061-1189 | one row per distinct value read; "None" included when read unless excluded, and last; each row has the ids reading it and a predefined or fresh colour |
| Checklists.Lookup | pyBS.tab/StreamBIM.panel/ChecklistImporter.pushbutton/script.py:482-483 | nothing exactly when no field has the name; otherwise a field with that name and value |
| Checklists.AllNamesMembers | pyBS.tab/StreamBIM.panel/ChecklistImporter.pushbutton/script.py:470-473 | a name is collected exactly when some item carries it |
| Checklists.PropertyNamesProps | pyBS.tab/StreamBIM.panel/ChecklistImporter.pushbutton/script.py:467-479 | the property names are ascending, each once, and exactly the keys some item carries |
| Checklists.ValuesOfAppend | pyBS.tab/StreamBIM.panel/ChecklistImporter.pushbutton/script.py:481-485 | the values of two runs of items are the values of each, in order |
| Checklists.ValuesOfMembers | pyBS.tab/StreamBIM.panel/ChecklistImporter.pushbutton/script.py:481-485 | a value is seen exactly when it is non-empty and some item holds it under the name |
| Checklists.SamplesStop | pyBS.tab/StreamBIM.panel/ChecklistImporter.pushbutton/script.py:486-487 | once exactly `limit` distinct values are seen, later items change no sample |
| Checklists.SamplesStep | pyBS.tab/StreamBIM.panel/ChecklistImporter.pushbutton/script.py:481-487 | one more item adds its value when it is new and non-empty |
| Checklists.CollectSamples | pyBS.tab/StreamBIM.panel/ChecklistImporter.pushbutton/script.py:480-487 | the sample loop computes `Samples`, stopping as soon as `limit` values are kept |
| Checklists.SamplesProps | pyBS.tab/StreamBIM.panel/ChecklistImporter.pushbutton/script.py:480-487 | the samples are distinct non-empty values of the property, at most `limit`, and all of them when fewer |
| Checklists.SampleTextAsWritten | pyBS.tab/StreamBIM.panel/ChecklistImporter.pushbutton/script.py:486-492 | as written, with the loop stopping at three samples, no "..." is ever added |
| Checklists.SampleTextHidesMore | pyBS.tab/StreamBIM.panel/ChecklistImporter.pushbutton/script.py:486-492 | four distinct values a, b, c, d show "a, b, c", with nothing marking the fourth |
| Checklists.SampleTextShowsMore | pyBS.tab/StreamBIM.panel/ChecklistImporter.pushbutton/script.py:490-493 | with four samples kept, the preview shows the same first three and ends in "..." exactly when the property has more than three values |
| Checklists.ExtractProperties | pyBS.tab/StreamBIM.panel/ChecklistImporter.pushbutton/script.py:461-493 | one record per property name, in sorted order, computing `Properties` with the scripts' limit of three samples |
| Checklists.PropertiesProps | pyBS.tab/StreamBIM.panel/ChecklistImporter.pushbutton/script.py:461-499 | the property list names each key of the items once, ascending, each with its first three distinct values joined by ", " and never a "..." |
| Checklists.ItemIndexLastWins | pyBS.tab/StreamBIM.panel/ChecklistImporter.pushbutton/script.py:602-605 | a GUID is a key exactly when some item names it, and maps to the last such item |
| Checklists.ItemOrderKeys | pyBS.tab/StreamBIM.panel/ChecklistImporter.pushbutton/script.py:602-632 | the key order lists every key of the dictionary exactly once |
| Checklists.BuildItemIndex | pyBS.tab/StreamBIM.panel/ChecklistImporter.pushbutton/script.py:602-605 | the loop builds `guid_to_item` and its key order |
| Checklists.ParamIndex | pyBS.tab/StreamBIM.panel/ChecklistImporter.pushbutton/script.py:660 | the first parameter with the name, or nothing when none has it |
| Checklists.SetParam | pyBS.tab/StreamBIM.panel/ChecklistImporter.pushbutton/script.py:669-675 | the parameter found now holds the value, with a value; the element keeps its id and size |
| Checklists.ParamIndexSame | pyBS.tab/StreamBIM.panel/ChecklistImporter.pushbutton/script.py:660 | replacing a parameter by one of the same name keeps the lookup |
| Checklists.ParamIndexOther | pyBS.tab/StreamBIM.panel/ChecklistImporter.pushbutton/script.py:660 | replacing a parameter leaves lookups of other names unchanged |
| Checklists.GuidParam | pyBS.tab/StreamBIM.panel/ChecklistImporter.pushbutton/script.py:582-586 | "IFCGuid", else "IfcGUID", else "IFC GUID"; nothing exactly when none exists |
| Checklists.ConvertInteger | pyBS.tab/StreamBIM.panel/ChecklistImporter.pushbutton/script.py:674-675 | a printed integer is written to an integer parameter as that integer |
| Checklists.ConvertDouble | pyBS.tab/StreamBIM.panel/ChecklistImporter.pushbutton/script.py:672-673 | a printed integer is written to a number parameter as that number |
| ChecklistImporter.MappingOfRows | pyBS.tab/StreamBIM.panel/ChecklistImporter.pushbutton/script.py:608-612 | a value is mapped exactly when a row with both values filled names it |
| ChecklistImporter.MappingOfLastRow | pyBS.tab/StreamBIM.panel/ChecklistImporter.pushbutton/script.py:608-612 | a mapped value maps as the last complete row naming it does: no later complete row names it |
| ChecklistImporter.BuildValueMapping | pyBS.tab/StreamBIM.panel/ChecklistImporter.pushbutton/script.py:608-612 | the mapping loop computes the specified mapping, empty when mapping is off |
| ChecklistImporter.Guids | pyBS.tab/StreamBIM.panel/ChecklistImporter.pushbutton/script.py:579-592 | one GUID (or none) per element: that of a text parameter with a non-empty value |
| ChecklistImporter.KeyIndexLastWins | pyBS.tab/StreamBIM.panel/ChecklistImporter.pushbutton/script.py:579-592 | a key maps to the last position carrying it |
| ChecklistImporter.ElementIndexLastWins | pyBS.tab/StreamBIM.panel/ChecklistImporter.pushbutton/script.py:579-592 | every GUID is indexed to the last element carrying it |
| ChecklistImporter.BuildElementIndex | pyBS.tab/StreamBIM.panel/ChecklistImporter.pushbutton/script.py:565-592 | the loop builds `ifc_guid_dict` |
| ChecklistImporter.RevitValueRule | pyBS.tab/StreamBIM.panel/ChecklistImporter.pushbutton/script.py:643-657 | with a mapping only mapped values pass and are replaced; without one the raw non-empty value passes |
| ChecklistImporter.OutcomeCases | pyBS.tab/StreamBIM.panel/ChecklistImporter.pushbutton/script.py:636-679 | an element is updated exactly when it is matched, the value passes the mapping and the parameter is there, writable and takes the value |
| ChecklistImporter.Import | pyBS.tab/StreamBIM.panel/ChecklistImporter.pushbutton/script.py:632-684 | the elements and the updated ids after the items are processed |
| ChecklistImporter.ImportOne | pyBS.tab/StreamBIM.panel/ChecklistImporter.pushbutton/script.py:633-684 | processing one more GUID computes one step of `Import` |
| ChecklistImporter.ImportItems | pyBS.tab/StreamBIM.panel/ChecklistImporter.pushbutton/script.py:620-691 | every GUID counts as processed, and the ids of the updated elements are collected in order |
| ChecklistImporter.ImportCounts | pyBS.tab/StreamBIM.panel/ChecklistImporter.pushbutton/script.py:632-684 | at most one update per processed GUID, and the ids are element ids |
| ChecklistImporter.ImportFrame | pyBS.tab/StreamBIM.panel/ChecklistImporter.pushbutton/script.py:660-677 | only the chosen parameter of an element is written, and only of an element carrying the GUID of an item |
| ChecklistImporter.FindConfig | pyBS.tab/StreamBIM.panel/ChecklistImporter.pushbutton/script.py:843-912 | the first stored configuration for the (checklist, property) pair, if any |
| ChecklistImporter.UpsertFinds | pyBS.tab/StreamBIM.panel/ChecklistImporter.pushbutton/script.py:839-856 | after saving, the pair is found at the new configuration, and every other configuration is kept in place |
| ChecklistImporter.FindConfigAt | pyBS.tab/StreamBIM.panel/ChecklistImporter.pushbutton/script.py:903-912 | a configuration for the pair with none before it is the one found |
| ChecklistImporter.UpsertIdempotent | pyBS.tab/StreamBIM.panel/ChecklistImporter.pushbutton/script.py:839-856 | saving the same configuration twice stores it once |
| ChecklistImporter.FirstIndex | pyBS.tab/StreamBIM.panel/ChecklistImporter.pushbutton/script.py:930-935 | the first position holding the value, or nothing |
| ChecklistImporter.Stripped | pyBS.tab/StreamBIM.panel/ChecklistImporter.pushbutton/script.py:932 | each name with surrounding white space removed |
| ChecklistImporter.MatchParameterProps | pyBS.tab/StreamBIM.panel/ChecklistImporter.pushbutton/script.py:928-935 | the restored selection is the first parameter equal to the stored name up to white space |
| ChecklistImporter.FindMatchingConfig | pyBS.tab/StreamBIM.panel/ChecklistImporter.pushbutton/script.py:903-912 | the loop finds `FindConfig` |
| ChecklistImporter.FindParameter | pyBS.tab/StreamBIM.panel/ChecklistImporter.pushbutton/script.py:930-935 | the loop finds the first matching parameter |
| ChecklistImporter.FirstIndexAt | pyBS.tab/StreamBIM.panel/ChecklistImporter.pushbutton/script.py:930-935 | a match with none before it is the one found |
| ChecklistImporter.RestoreConfiguration | pyBS.tab/StreamBIM.panel/ChecklistImporter.pushbutton/script.py:886-961 | the grid is cleared and the box unticked; the first matching configuration restores the parameter, the rows and the box |
| ChecklistImporter.LoadFromProps | pyBS.tab/StreamBIM.panel/ChecklistImporter.pushbutton/script.py:894-961 | loading succeeds exactly for a chosen pair with a stored configuration, and reads the first one |
| ChecklistImporter.SaveThenLoad | pyBS.tab/StreamBIM.panel/ChecklistImporter.pushbutton/script.py:794-966 | saving the window's mapping and loading it back restores the rows (when mapping was on), the check box, and the parameter when the box lists it |
| ChecklistImporter.SearchFilterProps | pyBS.tab/StreamBIM.panel/ChecklistImporter.pushbutton/script.py:729-742 | empty text shows every checklist; otherwise exactly those whose name contains the text ignoring case |
| ChecklistImporter.SearchChecklists | pyBS.tab/StreamBIM.panel/ChecklistImporter.pushbutton/script.py:731-742 | the loop computes that filter |
| ChecklistImporter.ImporterWindow.constructor | pyBS.tab/StreamBIM.panel/ChecklistImporter.pushbutton/script.py:192-212 | empty lists, no mapping, no load running, the stored project id |
| ChecklistImporter.ImporterWindow.ExtractAvailableProperties | pyBS.tab/StreamBIM.panel/ChecklistImporter.pushbutton/script.py:461-499 | nothing happens without items; otherwise the list becomes `Properties` and its first entry is selected |
| ChecklistImporter.ImporterWindow.ChecklistSearchChanged | pyBS.tab/StreamBIM.panel/ChecklistImporter.pushbutton/script.py:729-744 | the shown list becomes the filter of all checklists |
| ChecklistImporter.ImporterWindow.SaveProjectId | pyBS.tab/StreamBIM.panel/ChecklistImporter.pushbutton/script.py:746-765 | the id is stored, and written only when it differs from the stored one |
| ChecklistImporter.ImporterWindow.SaveCurrentMapping | pyBS.tab/StreamBIM.panel/ChecklistImporter.pushbutton/script.py:794-871 | nothing without a property, a parameter and a checklist; otherwise the configuration is replaced or appended, and kept when the write succeeds |
| ChecklistImporter.ImporterWindow.LoadMappingConfiguration | pyBS.tab/StreamBIM.panel/ChecklistImporter.pushbutton/script.py:873-966 | refused while a load runs; nothing without a document; otherwise the grid is cleared and the first matching configuration restored |
| ChecklistImporter.ImporterWindow.AddNewRow | pyBS.tab/StreamBIM.panel/ChecklistImporter.pushbutton/script.py:977-980 | an empty row at the end of the grid |
| ChecklistImporter.ImporterWindow.RemoveRow | pyBS.tab/StreamBIM.panel/ChecklistImporter.pushbutton/script.py:982-986 | the selected row leaves the grid; nothing without a selection |
| ChecklistImporter.ImporterWindow.ImportButtonClick | pyBS.tab/StreamBIM.panel/ChecklistImporter.pushbutton/script.py:528-704 | needs a property and a parameter; when mapping is enabled, first saves it: the configuration for (checklist, property) is replaced or appended when a checklist is chosen and the write succeeds, and the stored configurations are otherwise untouched (always untouched when mapping is disabled); stops without items; otherwise writes every matched value and enables isolation exactly when something was updated |
| StreamBimImporter.ProjectOfProps | pyBS.tab/Tools.panel/StreamBIMImporter.pushbutton/script.py:107-112 | a numeric id reads back as that number; a missing name gives "Unknown" and a missing description "" |
| StreamBimImporter.SetParameterValue | pyBS.lib/streambim/revit_utils.py:68-95 | set exactly when the parameter exists, is writable and its storage takes the converted value; then only that parameter holds the value |
| StreamBimImporter.ImportElementProps | pyBS.tab/Tools.panel/StreamBIMImporter.pushbutton/script.py:299-324 | updated exactly when the element's GUID text names an item carrying the property and the chosen parameter takes the value (empty too); only that parameter changes |
| StreamBimImporter.Imported | pyBS.tab/Tools.panel/StreamBIMImporter.pushbutton/script.py:296-324 | one element per element |
| StreamBimImporter.UpdatedCountProps | pyBS.tab/Tools.panel/StreamBIMImporter.pushbutton/script.py:292-324 | `updated` never exceeds `processed`, and is zero exactly when no element changed |
| StreamBimImporter.ImportElements | pyBS.tab/Tools.panel/StreamBIMImporter.pushbutton/script.py:292-327 | every element is processed, and counted as updated when it was written |
| StreamBimImporter.StreamBimWindow.constructor | pyBS.tab/Tools.panel/StreamBIMImporter.pushbutton/script.py:62-79 | login enabled, no projects, no items, no property selected |
| StreamBimImporter.StreamBimWindow.LoginButtonClick | pyBS.tab/Tools.panel/StreamBIMImporter.pushbutton/script.py:81-126 | nothing without a user name and password; a successful login with projects refills the list and opens its tab; the button is enabled again |
| StreamBimImporter.StreamBimWindow.ExtractAvailableProperties | pyBS.tab/Tools.panel/StreamBIMImporter.pushbutton/script.py:203-234 | nothing without items; otherwise the list becomes `Properties` and its first entry is selected |
| StreamBimImporter.StreamBimWindow.ImportButtonClick | pyBS.tab/Tools.panel/StreamBIMImporter.pushbutton/script.py:264-331 | nothing without a property and a parameter; otherwise every element is processed against `guid_to_item` |
| Spaces.TagTypeItemOf | lib/spaces/__init__.py:39-53 | shown as "<family>: <type>", the family falling back to "Unknown" and the type to the symbol's name when the type-name parameter is missing or empty |
| Spaces.OrdersTotal | lib/spaces/__init__.py:155-201 | sorting by display name and by view name are total preorders |
| Spaces.TagTypeItems | lib/spaces/__init__.py:151-152 | one entry per symbol, in collector order |
| Spaces.SpaceTagTypesProps | lib/spaces/__init__.py:133-160 | the list is in display-name order and holds exactly one entry per symbol |
| Spaces.GetSpaceTagTypes | lib/spaces/__init__.py:142-155 | the loop and the sort compute `SpaceTagTypes` |
| Spaces.ViewItemOf | lib/spaces/__init__.py:69-112 | the view's id and name; "Floor Plan" or "Ceiling Plan" for plans, the type's own text otherwise; the name of the template id when the document has it, "None" for no template or an unknown id; the name of the phase id when the document has it, "?" for no phase parameter, no id or an unknown id; the generating level's name, else "?" |
| Spaces.MatchesSearchProps | lib/spaces/__init__.py:114-130 | a row matches its own name, and a row matching some text matches every part of it, so narrowing only removes rows |
| Spaces.PlanRows | lib/spaces/__init__.py:180-198 | exactly the rows of the plan views |
| Spaces.PlanViewsProps | lib/spaces/__init__.py:163-206 | the list is sorted by name and holds exactly the rows of plan views: templates, other view types and dependent views never appear |
| Spaces.GetPlanViews | lib/spaces/__init__.py:172-201 | the loop with its three skips and the sort computes `PlanViews` |
| Spaces.GetViewsWithSpaceTags | lib/spaces/__init__.py:209-261 | exactly the valid owner views of the tags that are plan views |
| Spaces.TaggedIds | lib/spaces/__init__.py:300-310 | exactly the spaces some existing tag tags |
| Spaces.TagPoint | lib/spaces/__init__.py:329-343 | the location point, else the centre of the bounding box, else none |
| Spaces.PrepareProps | lib/spaces/__init__.py:315-343 | every space asked for is counted once; the queue holds exactly the untagged spaces with positive area and a tag point |
| Spaces.CreateTagsProps | lib/spaces/__init__.py:346-358 | every queued space ends tagged or failed; the tags are those of the queued spaces that do not fail |
| Spaces.TagSpacesProps | lib/spaces/__init__.py:264-363 | the three counts add up to the spaces asked for; a tag is created exactly for each space that deserves one and does not fail, at its tag point with the chosen type |
| Spaces.CollectTagged | lib/spaces/__init__.py:300-312 | the loop computes `TaggedIds` |
| Spaces.PrepareSpaces | lib/spaces/__init__.py:315-343 | the first pass computes `Prepare` |
| Spaces.CreateQueued | lib/spaces/__init__.py:346-358 | the second pass computes `CreateTags` |
| Spaces.TagSpacesInView | lib/spaces/__init__.py:264-363 | (0, 0, 0) without spaces; else the two passes compute `TagSpaces` |
| SelectorDialog.DisplayText | lib/zone3d/selector_dialog.py:67-69 | starts with "(*)" exactly when a zone exists, then shows number and name, and ends with the level in brackets |
| SelectorDialog.ItemOf | lib/zone3d/selector_dialog.py:13-69 | without an adapter the number is "?" and the name "Unnamed"; an unresolved level or phase is "?"; the check mark column is non-empty exactly when a zone exists, and then holds the three characters U+00E2 U+0153 U+201C that the source file stores there (a check mark garbled by a Windows-1252 round trip) |
| SelectorDialog.SearchProps | lib/zone3d/selector_dialog.py:175-195 | empty text restores every entry; otherwise an entry is shown exactly when its text contains the search ignoring case; typing more only hides entries |
| SelectorDialog.ChosenElements | lib/zone3d/selector_dialog.py:197-218 | one element per selected entry, in order, the entry's element for entries built by `ItemOf` |
| SelectorDialog.SelectorWindow.constructor | lib/zone3d/selector_dialog.py:83-118 | every entry shown, nothing chosen, not closed |
| SelectorDialog.SelectorWindow.SearchTextChanged | lib/zone3d/selector_dialog.py:175-195 | the shown entries become `Search` of all entries |
| SelectorDialog.SelectorWindow.CreateButtonClick | lib/zone3d/selector_dialog.py:197-221 | the chosen elements of the selected entries, in order, and the window closes |
| SelectorDialog.SelectorWindow.CancelButtonClick | lib/zone3d/selector_dialog.py:223-226 | nothing chosen, and the window closes |

## Left out

- Host geometry: point-in-room/space, solid intersection, solid creation, bounding boxes, curve evaluation and element collectors are predicates and fields supplied to the model (the `Oracle` of `Containment`). No solid geometry is modelled.
- Floating point: the model uses exact reals. Not modelled:
  - HSV rounding and gradient factors;
  - the 0.1 move threshold and `DistanceTo` (distances are parameters);
  - the "{:.2f}" formatting of clash distances;
  - `float()` parsing of arbitrary text, including exponents and `inf`. `safe_float` and `extract_number` are modelled on decimal digit strings.
- Character classes: `str.isdigit`, the regular expression `\d` and lower/upper-casing are modelled for ASCII. `str.strip` (`Strs.Strip`, built on `Strs.IsSpace`) drops only the six ASCII whitespace characters (space, tab, newline, carriage return, vertical tab, form feed), not Unicode spaces such as U+00A0. Unicode digits such as "²", which `isdigit` accepts and `float()` then rejects, are not modelled. Python's `int()` acceptance of underscores is not modelled either.
- PyRevitColorizer.CollectRows and PyRevitColorizer.GetParameterValues: `random_color` is a stream of draws, with each channel in 0..230. The model assumes a later draw is fresh while fewer than 231³ colours are used. Both methods therefore require at most 231³ elements. One colour is drawn per new value, so the source's while-loop fails to end only beyond 231³ distinct values; the bound on elements is stronger than that.
- The `values_double` lists are not kept, because nothing in the core reads them. This holds for the value items of all three colouring windows: the View panel's (`pyBS.tab/View.panel/ColorElements.pushbutton/script.py`), the BS tab's (`pyByggstyrning.extension/BS.tab/Colorize.panel/ColorElements.pushbutton/script.py`) and `PyRevitColorizer`'s (`pyByggstyrning.extension/BS.tab/Colorize.panel/PyRevitColorizer.pushbutton/script.py`).
- `get_elementid_value_func`: both branches of the Revit-version switch give the id's integer, so element ids are plain integers and there is no version parameter.
- User interface: these are not modelled:
  - WPF windows, data binding and ObservableCollection plumbing;
  - progress bars, Forms alerts and status-bar text;
  - the ribbon hooks and the pushbutton scripts.
  The windows' state changes are modelled as class fields.
- Persistence:
  - Extensible storage, pickle/base64 and pyRevit `user_config` are key→value maps or objects holding the stored value.
  - Reading and writing `.cschn` files is replaced by their lines.
  - A failed storage write is a `writeOk` parameter.
  - `get_or_create_storage` is not part of this model.
- Dictionary order: IronPython dictionaries are taken to iterate in insertion order. Ordered association lists model them where order is visible.
- The built-in category id tables (the OST_ ids) are parameters or constants of the modules that use them.
- Exceptions from Revit calls are modelled only where the code recovers from them on a path the model can reach:
  - a failing `Set` in the nested export;
  - a failing tag creation, given as the `failing` set of `Spaces.CreateTags`.
  The `except` blocks the model shows to be unreachable are left out. So is transaction rollback.
- Network clients: the StreamBIM and clash API clients (login, projects, checklist items, clash lists) are parameters. The model receives their results as values.
- `GetPrimaryViewId`/`OwnerViewId` exception fallbacks in the Spaces view list are not modelled: a view's primary and owner ids are record fields.
- View creation: creating the clash view and the post-sync MMI view is a flag (`viewCreated`) or a view name. View overrides are returned as values. So are the solid fill pattern lookup and element isolation, not applied to a view.
- `copy_properties_to_instance` and `set_symbol_parameters_before_placement` in `lib/zone3d/spatial_adapter.py` are not part of this model. They belong to family placement.
- The family creation modules `lib/zone3d/family_creation.py`, `mass_family_creation.py`, `zone_creator.py` and `mass_creator.py` are not part of this model. Neither is the export glue in `lib/zone3d/ifc_export.py`.
- The selector dialog's `hasattr` checks: an item's extra attributes are a map. Entries built by `ItemOf` always hold the item's own element.
- The monitor's external event: raising the event and Revit calling `Execute` later are modelled as two separate calls.
- ClashUtils.EnrichSide: an exception while reading the level parameter or the level's name gives "Unknown" in the source, and an exception anywhere in one clash leaves that clash as far as it got. The model has no failing reads, so neither path is modelled.
- ZoneAdapter.SetPhaseOnInstance: the source wraps the `CreatedPhaseId` write in a try/except that ignores a failure; the model has no failing write, so an instance that refuses the phase (and keeps its old one) is not modelled.
- Spaces.CreateTags: a space in `failing` gets no tag and counts as an error. In the source a tag whose `NewSpaceTag` succeeds but whose `ChangeTypeId` then fails also counts as an error, yet the tag stays in the view with its default type; that case is not separated from a failed creation.
- ClashExplorer.HighlightGroup: returns the elements found and the view name only. The colour overrides, the section box and the halftoned links that the click then applies to the view are stated separately by `ClashUtils.HighlightClashElements` and `ClashUtils.SetOtherModelsAsUnderlay`, and are not composed here. (The single-clash click, `ClashExplorer.HighlightClash`, halftones nothing: it calls only `highlight_clash_elements`.)
- ZoneCore.ProcessTargets: the containing element of each target is a function parameter `container`. It is not tied to the `Containment` search, so the model does not capture that the container comes from the filtered source elements, nor that the geometry cache the search fills carries over from one target to the next. The source list is only checked for emptiness.
- ZoneCore.ProcessTarget: the containing element is the same unconstrained `container` parameter as in `ProcessTargets`.
- ZoneCore.WriteParametersToElements: the filtered sources are only checked for emptiness; which source element contains a target is the unconstrained `container` parameter, not the `Containment` search over those sources.
- ZoneMonitor.Zone3DEventHandler.Execute: the containing element per configuration and element is an unconstrained `container` parameter, as in `ZoneCore.ProcessTargets`.
- ZoneMonitor.ApplyOne: the containing element is the unconstrained `container` parameter, not the `Containment` search.
- ZoneCore.SetParam: an element carries its own copy of its type's parameters (`typeParams`). Writing a type parameter changes only that copy. In Revit the type is shared, so every other instance of the type would see the new value; this aliasing is not modelled.
- ZoneCore.CopyStep: a copy into a type parameter goes through `SetParam`, so it changes the target's own copy of the type only, not the other instances of that type.
- ZoneCore.ProcessTargets: because type parameters are per-element copies, a target processed later does not see a type-parameter write made through an earlier target of the same type.
- ZoneCore.CopyParameterValue: the ElementId branch is modelled as the code evidently means it: an invalid id is skipped, any other id is written, and True is returned. The code compares with `source_param.ElementId.InvalidElementId`. If the Revit `Parameter` object has no `ElementId` attribute, that access raises, the `except` returns False and nothing is written. The Revit API is not part of this model, so this case is left open.

## Findings

| source | as written | input that shows it | evidently intended | confidence | as-written member | corrected member |
|---|---|---|---|---|---|---|
| lib/zone3d/containment.py:820-828 | each configured category is applied as another chained `OfCategory` filter on the same collector, so an element has to be in every category at once | source categories [Mass, Generic Model]: no element passes, and no mass contains anything | keep the elements in any of the configured categories | not executed | Containment.ChainedCategoriesExcludeAll | Containment.IntendedCandidates |
| lib/zone3d/containment.py:549-560 | the `break` after a solid is found leaves only the inner loop over an instance's geometry, so a later instance's solid replaces an earlier one | two geometry instances each holding a positive-volume solid: the second solid is kept | use the first positive-volume solid found | not executed | Containment.ExtractKeepsLastInstance | Containment.FirstSolidIsFirst |
| lib/mmi/utils.py:82-85 | a value below 100 is flagged and "corrected" to the three-digit form of its own number | "000": flagged as invalid, with "000" as its correction | accept a value whose correction is the value itself, so that every proposed correction passes validation | not executed | MmiUtils.ValidateFlagsOwnFix | MmiUtils.ValidateMmiAcceptsFix |
| pyBS.tab/StreamBIM.panel/ChecklistImporter.pushbutton/script.py:479-493 | sample collection stops at three distinct values, so the "..." added when there are more than three can never be appended | items whose property holds a, b, c, d: the preview is "a, b, c" with no "..." | collect one value more than is shown, so the preview ends in "..." exactly when more than three distinct values exist | not executed | Checklists.SampleTextHidesMore | Checklists.SampleTextShowsMore |
| lib/clashes/clash_utils.py:390-394 | the level id of an element found in a linked document is looked up with `doc.GetElement` in the active (host) document | a linked wall whose level id is 7, where id 7 is "Level 2" in the link and "Level 1" (or nothing) in the host: the clash reports "Level 1" (or "Unknown") | look the level id up in the link instance's own document | not executed | ClashUtils.LinkedLevelFromHost | ClashUtils.IntendedLevelFromOwnDocument |
