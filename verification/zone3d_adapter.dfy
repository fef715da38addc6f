/**
 * The Area/Room adapters of lib/zone3d/spatial_adapter.py: the family-name
 * sanitiser, the extrusion height rules, the existing-zone checks and the
 * number/name lookups. Levels are (id, elevation, "Storey Above") records;
 * family instances are (is Generic Model, family name) records.
 */
module ZoneAdapter {
  import opened Common
  import opened Strs
  import Containment
  import Sorting

  // ------------------------------------------------------------ sanitize_family_name

  /** The characters the replacement table rewrites. */
  predicate Forbidden(c: char)
  {
    c == '.' || c == '/' || c == '\\' || c == '*' || c == '?' || c == '"' ||
    c == '<' || c == '>' || c == '|' || c == ':' || c == ' '
  }

  predicate Sep(c: char) { c == '-' || c == '_' }

  /** A character the sanitiser keeps as it is, wherever it occurs. */
  predicate Ordinary(c: char) { !Forbidden(c) && !Sep(c) }

  /**
   * The replacement table: "." to "_"; "/", "\", ":" and space to "-"; the
   * rest removed. No replacement yields a key of the table, so the order
   * in which the dictionary is walked does not matter and the table acts
   * character by character.
   */
  function Replacement(c: char): (r: string)
    ensures !Forbidden(c) ==> r == [c]
    ensures forall i :: 0 <= i < |r| ==> !Forbidden(r[i])
  {
    if c == '.' then "_"
    else if c == '/' || c == '\\' || c == ':' || c == ' ' then "-"
    else if Forbidden(c) then ""
    else [c]
  }

  function Replaced(s: string): (r: string)
    ensures forall i :: 0 <= i < |r| ==> !Forbidden(r[i])
  {
    if s == [] then []
    else
      var h := Replacement(s[0]);
      var t := Replaced(s[1..]);
      assert forall i :: 0 <= i < |h + t| ==> (h + t)[i] == if i < |h| then h[i] else t[i - |h|];
      h + t
  }

  /** `cc` occurs in `s`. */
  predicate HasPair(s: string, c: char)
  {
    exists i :: 0 <= i < |s| - 1 && s[i] == c && s[i + 1] == c
  }

  /** `s.replace(cc, c)`: non-overlapping occurrences, left to right. */
  function CollapseOnce(s: string, c: char): (r: string)
    ensures |r| <= |s|
    ensures HasPair(s, c) ==> |r| < |s|
    ensures s != [] ==> r != [] && r[0] == s[0]
    ensures forall x :: x in r ==> x in s
  {
    if |s| >= 2 && s[0] == c && s[1] == c then
      var t := CollapseOnce(s[2..], c);
      assert forall x :: x in [c] + t ==> x == s[0] || x in s[2..];
      [c] + t
    else if s == [] then []
    else
      var t := CollapseOnce(s[1..], c);
      assert HasPair(s, c) ==> HasPair(s[1..], c) by {
        if HasPair(s, c) {
          var i :| 0 <= i < |s| - 1 && s[i] == c && s[i + 1] == c;
          assert i > 0;
          assert s[1..][i - 1] == c && s[1..][i] == c;
        }
      }
      [s[0]] + t
  }

  /** `while cc in result: result = result.replace(cc, c)`. */
  function CollapseFix(s: string, c: char): (r: string)
    ensures !HasPair(r, c)
    decreases |s|
  {
    if HasPair(s, c) then CollapseFix(CollapseOnce(s, c), c) else s
  }

  method Collapse(s: string, c: char) returns (r: string)
    ensures r == CollapseFix(s, c)
  {
    r := s;
    while HasPair(r, c)
      invariant CollapseFix(r, c) == CollapseFix(s, c)
      decreases |r|
    {
      r := CollapseOnce(r, c);
    }
  }

  /** The result of the cleaning steps, before the "Unknown" fallback. */
  function Cleaned(name: string): string
  {
    StripBy(CollapseFix(CollapseFix(Replaced(name), '-'), '_'), Sep)
  }

  function SanitizedName(name: string): string
  {
    if name == [] then "Unknown"
    else
      var r := Cleaned(name);
      if r == [] then "Unknown" else r
  }

  /** RoomAdapter.sanitize_family_name. */
  method SanitizeFamilyName(name: string) returns (r: string)
    ensures r == SanitizedName(name)
  {
    if name == [] {
      return "Unknown";
    }
    var a := Replaced(name);
    var b := Collapse(a, '-');
    var c := Collapse(b, '_');
    r := StripBy(c, Sep);
    assert r == Cleaned(name);
    if r == [] {
      return "Unknown";
    }
  }

  /** The ordinary characters of `s`, in order. */
  function Kept(s: string): (r: string)
  {
    if s == [] then [] else (if Ordinary(s[0]) then [s[0]] else []) + Kept(s[1..])
  }

  lemma {:induction false} KeptAppend(a: string, b: string)
    ensures Kept(a + b) == Kept(a) + Kept(b)
  {
    if a == [] {
      assert a + b == b;
    } else {
      var h := if Ordinary(a[0]) then [a[0]] else [];
      assert (a + b)[0] == a[0] && (a + b)[1..] == a[1..] + b;
      assert Kept(a + b) == h + Kept(a[1..] + b);
      KeptAppend(a[1..], b);
    }
  }

  lemma {:induction false} KeptReplaced(s: string)
    ensures Kept(Replaced(s)) == Kept(s)
  {
    if s != [] {
      KeptReplaced(s[1..]);
      KeptAppend(Replacement(s[0]), Replaced(s[1..]));
    }
  }

  lemma {:induction false} KeptCollapseOnce(s: string, c: char)
    requires Sep(c)
    ensures Kept(CollapseOnce(s, c)) == Kept(s)
  {
    if |s| >= 2 && s[0] == c && s[1] == c {
      KeptCollapseOnce(s[2..], c);
      KeptAppend([c], CollapseOnce(s[2..], c));
      assert s[1..][1..] == s[2..];
    } else if s != [] {
      KeptCollapseOnce(s[1..], c);
      KeptAppend([s[0]], CollapseOnce(s[1..], c));
    }
  }

  lemma {:induction false} KeptCollapseFix(s: string, c: char)
    requires Sep(c)
    ensures Kept(CollapseFix(s, c)) == Kept(s)
    decreases |s|
  {
    if HasPair(s, c) {
      KeptCollapseOnce(s, c);
      KeptCollapseFix(CollapseOnce(s, c), c);
    }
  }

  lemma {:induction false} KeptLStrip(s: string)
    ensures Kept(LStrip(s, Sep)) == Kept(s)
  {
    if s != [] && Sep(s[0]) {
      KeptLStrip(s[1..]);
    }
  }

  lemma {:induction false} KeptRStrip(s: string)
    ensures Kept(RStrip(s, Sep)) == Kept(s)
    decreases |s|
  {
    if s != [] && Sep(s[|s| - 1]) {
      KeptRStrip(s[..|s| - 1]);
      KeptAppend(s[..|s| - 1], [s[|s| - 1]]);
      assert s[..|s| - 1] + [s[|s| - 1]] == s;
    }
  }

  /** Removing pairs of `c` never creates a pair of another character. */
  lemma {:induction false} CollapseOnceNoNewPair(s: string, c: char, d: char)
    requires c != d && !HasPair(s, d)
    ensures !HasPair(CollapseOnce(s, c), d)
  {
    if |s| >= 2 && s[0] == c && s[1] == c {
      var u := s[2..];
      forall i | 0 <= i < |u| - 1 ensures !(u[i] == d && u[i + 1] == d) {
        assert u[i] == s[i + 2] && u[i + 1] == s[i + 3];
      }
      CollapseOnceNoNewPair(u, c, d);
      var t := CollapseOnce(u, c);
      var r := [c] + t;
      forall i | 0 <= i < |r| - 1 ensures !(r[i] == d && r[i + 1] == d) {
        if i > 0 {
          assert r[i] == t[i - 1] && r[i + 1] == t[i];
        }
      }
    } else if s != [] {
      var u := s[1..];
      forall i | 0 <= i < |u| - 1 ensures !(u[i] == d && u[i + 1] == d) {
        assert u[i] == s[i + 1] && u[i + 1] == s[i + 2];
      }
      CollapseOnceNoNewPair(u, c, d);
      var t := CollapseOnce(u, c);
      var r := [s[0]] + t;
      forall i | 0 <= i < |r| - 1 ensures !(r[i] == d && r[i + 1] == d) {
        if i == 0 {
          assert r[1] == s[1];
        } else {
          assert r[i] == t[i - 1] && r[i + 1] == t[i];
        }
      }
    }
  }

  lemma {:induction false} CollapseFixNoNewPair(s: string, c: char, d: char)
    requires c != d && !HasPair(s, d)
    ensures !HasPair(CollapseFix(s, c), d)
    decreases |s|
  {
    if HasPair(s, c) {
      CollapseOnceNoNewPair(s, c, d);
      CollapseFixNoNewPair(CollapseOnce(s, c), c, d);
    }
  }

  lemma {:induction false} CollapseFixChars(s: string, c: char)
    ensures forall x :: x in CollapseFix(s, c) ==> x in s
    decreases |s|
  {
    if HasPair(s, c) {
      CollapseFixChars(CollapseOnce(s, c), c);
    }
  }

  lemma NoPairInSlice(s: string, r: string, a: int, d: char)
    requires SliceAt(s, r, a) && !HasPair(s, d)
    ensures !HasPair(r, d)
  {
    forall i | 0 <= i < |r| - 1 ensures !(r[i] == d && r[i + 1] == d) {
      assert r[i] == s[a + i] && r[i + 1] == s[a + i + 1];
    }
  }

  lemma CollapsedNoForbidden(name: string)
    ensures forall x :: x in CollapseFix(CollapseFix(Replaced(name), '-'), '_') ==> !Forbidden(x)
  {
    var a := Replaced(name);
    var b := CollapseFix(a, '-');
    CollapseFixChars(a, '-');
    CollapseFixChars(b, '_');
    forall x | x in CollapseFix(b, '_') ensures !Forbidden(x) {
      assert x in a;
      var i :| 0 <= i < |a| && a[i] == x;
    }
  }

  lemma CleanedNoForbidden(name: string)
    ensures var r := Cleaned(name); forall i :: 0 <= i < |r| ==> !Forbidden(r[i])
  {
    var c := CollapseFix(CollapseFix(Replaced(name), '-'), '_');
    var d := StripBy(c, Sep);
    CollapsedNoForbidden(name);
    StripByChars(c, Sep);
    forall i | 0 <= i < |d| ensures !Forbidden(d[i]) {
      assert d[i] in d;
    }
  }

  lemma CleanedNoPairs(name: string)
    ensures !HasPair(Cleaned(name), '-') && !HasPair(Cleaned(name), '_')
  {
    var a := Replaced(name);
    var b := CollapseFix(a, '-');
    var c := CollapseFix(b, '_');
    var d := StripBy(c, Sep);
    CollapseFixNoNewPair(b, '_', '-');
    var k :| SliceAt(c, d, k);
    NoPairInSlice(c, d, k, '-');
    NoPairInSlice(c, d, k, '_');
  }

  /** The cleaned name: no forbidden character, no "--" or "__", no "-"/"_" at either end. */
  lemma CleanedShape(name: string)
    ensures var r := Cleaned(name);
      (forall i :: 0 <= i < |r| ==> !Forbidden(r[i])) &&
      !HasPair(r, '-') && !HasPair(r, '_') &&
      (r != [] ==> !Sep(r[0]) && !Sep(r[|r| - 1]))
  {
    CleanedNoForbidden(name);
    CleanedNoPairs(name);
  }

  /** Cleaning keeps every ordinary character, in order, and removes nothing else of them. */
  lemma CleanedKeeps(name: string)
    ensures Kept(Cleaned(name)) == Kept(name)
  {
    var a := Replaced(name);
    var b := CollapseFix(a, '-');
    var c := CollapseFix(b, '_');
    KeptReplaced(name);
    KeptCollapseFix(a, '-');
    KeptCollapseFix(b, '_');
    KeptLStrip(c);
    KeptRStrip(LStrip(c, Sep));
  }

  /** The cleaned name is empty exactly when the name has no ordinary character. */
  lemma CleanedEmpty(name: string)
    ensures Cleaned(name) == [] <==> Kept(name) == []
  {
    CleanedKeeps(name);
    var a := Replaced(name);
    var b := CollapseFix(a, '-');
    var c := CollapseFix(b, '_');
    if Kept(name) == [] {
      KeptReplaced(name);
      KeptCollapseFix(a, '-');
      KeptCollapseFix(b, '_');
      KeptEmpty(c);
      CollapseFixChars(a, '-');
      CollapseFixChars(b, '_');
      forall i | 0 <= i < |c| ensures Sep(c[i]) {
        assert c[i] in b;
        assert c[i] in a;
      }
    }
  }

  /**
   * What sanitize_family_name guarantees: no forbidden character, no
   * "--" or "__", no leading or trailing "-"/"_"; the result is "Unknown"
   * exactly when the name holds no ordinary character, and otherwise keeps
   * every ordinary character of the name in order.
   */
  lemma SanitizedNameRules(name: string)
    ensures var r := SanitizedName(name);
      (forall i :: 0 <= i < |r| ==> !Forbidden(r[i])) &&
      !HasPair(r, '-') && !HasPair(r, '_') &&
      r != [] && !Sep(r[0]) && !Sep(r[|r| - 1]) &&
      (Kept(name) == [] ==> r == "Unknown") &&
      (Kept(name) != [] ==> Kept(r) == Kept(name))
  {
    var r := SanitizedName(name);
    if r == "Unknown" {
      UnknownShape();
    } else {
      CleanedShape(name);
    }
    if name == [] {
      assert Kept(name) == [];
    } else {
      CleanedKeeps(name);
      CleanedEmpty(name);
    }
  }

  lemma UnknownShape()
    ensures var u := "Unknown";
      (forall i :: 0 <= i < |u| ==> !Forbidden(u[i])) &&
      !HasPair(u, '-') && !HasPair(u, '_') && !Sep(u[0]) && !Sep(u[|u| - 1])
  {
    var u := "Unknown";
    forall i | 0 <= i < |u| ensures !Sep(u[i]) && !Forbidden(u[i]) {
    }
  }

  lemma {:induction false} KeptEmpty(s: string)
    requires Kept(s) == []
    ensures forall i :: 0 <= i < |s| ==> !Ordinary(s[i])
  {
    if s != [] {
      KeptEmpty(s[1..]);
      forall i | 1 <= i < |s| ensures !Ordinary(s[i]) {
        assert s[i] == s[1..][i - 1];
      }
    }
  }

  // ------------------------------------------------------------ sanitize_number

  datatype Kind = AreaKind | RoomKind

  function FamilyNamePrefix(k: Kind): string
  {
    match k
    case AreaKind => "3DZone_Area-"
    case RoomKind => "3DZone_Room-"
  }

  /** AreaAdapter.sanitize_number is the identity; RoomAdapter's delegates to the sanitiser. */
  method SanitizeNumber(k: Kind, number: string) returns (r: string)
    ensures k == AreaKind ==> r == number
    ensures k == RoomKind ==> r == SanitizedName(number)
  {
    if k == AreaKind {
      r := number;
    } else {
      r := SanitizeFamilyName(number);
    }
  }

  // ------------------------------------------------------------ get_number / get_name

  /** `param.AsString()`: None for a parameter that does not hold text. */
  function AsStringOpt(p: Param): Option<string>
  {
    if p.value.StrVal? then Some(p.value.s) else None
  }

  predicate Valued(params: map<string, Param>, name: string)
  {
    name in params && params[name].hasValue
  }

  const AreaNumberNames: seq<string> := ["Number", "Area Number", "AREA_NUMBER", "AREA_NUM"]
  const AreaNameNames: seq<string> := ["Name", "Area Name", "AREA_NAME"]

  /**
   * AreaAdapter.get_number / get_name: the text of the first listed
   * parameter that has a value, else the default ("?" / "Unnamed").
   */
  function FirstValued(params: map<string, Param>, names: seq<string>, default: string): Option<string>
  {
    if names == [] then Some(default)
    else if Valued(params, names[0]) then AsStringOpt(params[names[0]])
    else FirstValued(params, names[1..], default)
  }

  /** The default exactly when no listed parameter has a value; otherwise the first one that has. */
  lemma {:induction false} FirstValuedIsFirst(params: map<string, Param>, names: seq<string>, default: string)
    ensures (forall i :: 0 <= i < |names| ==> !Valued(params, names[i])) ==> FirstValued(params, names, default) == Some(default)
    ensures forall i :: (0 <= i < |names| && Valued(params, names[i]) &&
      (forall j :: 0 <= j < i ==> !Valued(params, names[j]))) ==> FirstValued(params, names, default) == AsStringOpt(params[names[i]])
  {
    if names != [] {
      var t := names[1..];
      FirstValuedIsFirst(params, t, default);
      assert forall i :: 0 < i < |names| ==> names[i] == t[i - 1];
      if !Valued(params, names[0]) {
        forall i | 0 < i < |names| && Valued(params, names[i]) && (forall j :: 0 <= j < i ==> !Valued(params, names[j]))
          ensures forall j :: 0 <= j < i - 1 ==> !Valued(params, t[j])
        {
          forall j | 0 <= j < i - 1 ensures !Valued(params, t[j]) {
            assert t[j] == names[j + 1];
          }
        }
      }
    }
  }

  /** With "Number" set, get_number reads it, whatever the other names hold. */
  lemma AreaNumberPrefersNumber(params: map<string, Param>)
    requires Valued(params, "Number")
    ensures FirstValued(params, AreaNumberNames, "?") == AsStringOpt(params["Number"])
  {
  }

  method FirstValuedString(params: map<string, Param>, names: seq<string>, default: string) returns (r: Option<string>)
    ensures r == FirstValued(params, names, default)
  {
    var i := 0;
    while i < |names|
      invariant 0 <= i <= |names|
      invariant FirstValued(params, names[i..], default) == FirstValued(params, names, default)
    {
      assert names[i..][0] == names[i] && names[i..][1..] == names[i + 1..];
      if names[i] in params && params[names[i]].hasValue {
        return AsStringOpt(params[names[i]]);
      }
      i := i + 1;
    }
    return Some(default);
  }

  /** RoomAdapter.get_number / get_name: the built-in parameter's text, else the default. */
  function RoomString(p: Option<Param>, default: string): (r: Option<string>)
    ensures p.None? || !p.value.hasValue ==> r == Some(default)
    ensures p.Some? && p.value.hasValue ==> r == AsStringOpt(p.value)
  {
    if p.Some? && p.value.hasValue then AsStringOpt(p.value) else Some(default)
  }

  // ------------------------------------------------------------ calculate_height

  /** The level's "Storey Above" parameter: whether it has a value, and the level id it holds. */
  datatype StoreyAbove = StoreyAbove(hasValue: bool, target: int)

  datatype Level = Level(elevation: real, storeyAbove: Option<StoreyAbove>)

  /** The loop over the sorted levels: the first elevation above the base, else base + 10. */
  method NextLevelTop(base: real, sorted: seq<real>) returns (top: real)
    ensures top == match Containment.FirstAbove(sorted, base) case Some(e) => e case None => base + 10.0
    ensures top > base
  {
    top := base + 10.0;
    var i := 0;
    while i < |sorted|
      invariant 0 <= i <= |sorted|
      invariant Containment.FirstAbove(sorted, base) == Containment.FirstAbove(sorted[i..], base)
    {
      assert sorted[i..] == [sorted[i]] + sorted[i + 1..];
      if sorted[i] > base {
        top := sorted[i];
        return;
      }
      i := i + 1;
    }
  }

  function NextLevelHeight(base: real, sorted: seq<real>): real
  {
    match Containment.FirstAbove(sorted, base)
    case Some(e) => e - base
    case None => 10.0
  }

  /** AreaAdapter.calculate_height; None means "use the family's default height". */
  function AreaHeight(levelId: Option<int>, levels: map<int, Level>, sorted: seq<real>): Option<real>
  {
    if levelId.None? || levelId.value !in levels then None
    else
      var level := levels[levelId.value];
      var sa := level.storeyAbove;
      if sa.Some? && sa.value.hasValue && sa.value.target == InvalidId then None
      else if sa.Some? && sa.value.hasValue && sa.value.target in levels then
        Some(levels[sa.value.target].elevation - level.elevation)
      else Some(NextLevelHeight(level.elevation, sorted))
  }

  method AreaCalculateHeight(levelId: Option<int>, levels: map<int, Level>, sorted: seq<real>) returns (h: Option<real>)
    ensures h == AreaHeight(levelId, levels, sorted)
  {
    if levelId.None? || levelId.value !in levels {
      return None;
    }
    var level := levels[levelId.value];
    var sa := level.storeyAbove;
    if sa.Some? && sa.value.hasValue {
      if sa.value.target != InvalidId {
        if sa.value.target in levels {
          return Some(levels[sa.value.target].elevation - level.elevation);
        }
      } else {
        return None;
      }
    }
    var top := NextLevelTop(level.elevation, sorted);
    h := Some(top - level.elevation);
  }

  /** RoomAdapter.calculate_height. */
  function RoomHeight(unbounded: real, levelId: Option<int>, levels: map<int, Level>, sorted: seq<real>): real
  {
    if unbounded > 0.0 then unbounded
    else if levelId.None? || levelId.value !in levels then 10.0
    else NextLevelHeight(levels[levelId.value].elevation, sorted)
  }

  method RoomCalculateHeight(unbounded: real, levelId: Option<int>, levels: map<int, Level>, sorted: seq<real>) returns (h: real)
    ensures h == RoomHeight(unbounded, levelId, levels, sorted)
  {
    if unbounded > 0.0 {
      return unbounded;
    }
    if levelId.None? || levelId.value !in levels {
      return 10.0;
    }
    var base := levels[levelId.value].elevation;
    var top := NextLevelTop(base, sorted);
    h := top - base;
  }

  /**
   * The level-to-level fallback: a positive height, 10 when no level is
   * higher, and, over levels sorted by elevation, the distance to the
   * lowest level above.
   */
  lemma NextLevelHeightRules(base: real, sorted: seq<real>)
    requires Sorting.Sorted(sorted, Containment.AscLe)
    ensures NextLevelHeight(base, sorted) > 0.0
    ensures (forall e :: e in sorted ==> e <= base) ==> NextLevelHeight(base, sorted) == 10.0
    ensures forall e :: e in sorted && e > base ==>
      NextLevelHeight(base, sorted) <= e - base &&
      exists top :: top in sorted && top > base && NextLevelHeight(base, sorted) == top - base
  {
    Containment.FirstAboveSortedIsLowest(sorted, base);
  }

  /** The Area rules: no level, a "default" storey above, an existing storey above. */
  lemma AreaHeightRules(levelId: Option<int>, levels: map<int, Level>, sorted: seq<real>)
    ensures levelId.None? ==> AreaHeight(levelId, levels, sorted).None?
    ensures levelId.Some? && levelId.value in levels && levels[levelId.value].storeyAbove == Some(StoreyAbove(true, InvalidId)) ==>
      AreaHeight(levelId, levels, sorted).None?
    ensures (levelId.Some? && levelId.value in levels && levels[levelId.value].storeyAbove.Some? &&
      levels[levelId.value].storeyAbove.value.hasValue && levels[levelId.value].storeyAbove.value.target in levels &&
      levels[levelId.value].storeyAbove.value.target != InvalidId) ==>
      AreaHeight(levelId, levels, sorted) ==
        Some(levels[levels[levelId.value].storeyAbove.value.target].elevation - levels[levelId.value].elevation)
    ensures levelId.Some? && levelId.value in levels && levels[levelId.value].storeyAbove.None? ==>
      AreaHeight(levelId, levels, sorted) == Some(NextLevelHeight(levels[levelId.value].elevation, sorted))
  {
  }

  /** The Room rules: a positive unbounded height wins, then the level fallback, then 10. */
  lemma RoomHeightRules(unbounded: real, levelId: Option<int>, levels: map<int, Level>, sorted: seq<real>)
    requires Sorting.Sorted(sorted, Containment.AscLe)
    ensures RoomHeight(unbounded, levelId, levels, sorted) > 0.0
    ensures unbounded > 0.0 ==> RoomHeight(unbounded, levelId, levels, sorted) == unbounded
    ensures unbounded <= 0.0 && levelId.None? ==> RoomHeight(unbounded, levelId, levels, sorted) == 10.0
  {
    if unbounded <= 0.0 && levelId.Some? && levelId.value in levels {
      NextLevelHeightRules(levels[levelId.value].elevation, sorted);
    }
  }

  // ------------------------------------------------------------ check_existing_zone

  /** A family instance: whether it is a Generic Model, and its family name when it resolves. */
  datatype ZoneInstance = ZoneInstance(isGenericModel: bool, familyName: Option<string>)

  /** `s.replace(" ", "-")`. */
  function SpacesToDashes(s: string): (r: string)
    ensures |r| == |s|
    ensures forall i :: 0 <= i < |s| ==> r[i] == (if s[i] == ' ' then '-' else s[i])
  {
    seq(|s|, i requires 0 <= i < |s| => if s[i] == ' ' then '-' else s[i])
  }

  function AreaPattern(number: string): string
  {
    FamilyNamePrefix(AreaKind) + SpacesToDashes(number) + "_"
  }

  predicate MatchesArea(inst: ZoneInstance, number: string, areaId: int)
  {
    MatchesText(inst, AreaPattern(number), IntToString(areaId))
  }

  /** A Generic Model instance whose family name starts with the pattern and contains the id text. */
  predicate MatchesText(inst: ZoneInstance, pattern: string, idStr: string)
  {
    inst.isGenericModel && inst.familyName.Some? &&
    IsPrefix(pattern, inst.familyName.value) && Contains(inst.familyName.value, idStr)
  }

  /** AreaAdapter.check_existing_zone over the instances given (or collected). */
  method AreaCheckExistingZone(number: Option<string>, areaId: int, instances: seq<ZoneInstance>) returns (b: bool)
    ensures b <==> (number.Some? && number.value != "" && number.value != "?" &&
      exists i :: 0 <= i < |instances| && MatchesArea(instances[i], number.value, areaId))
  {
    if number.None? || number.value == "" || number.value == "?" {
      return false;
    }
    var pattern := AreaPattern(number.value);
    var idStr := IntToString(areaId);
    var i := 0;
    while i < |instances|
      invariant 0 <= i <= |instances|
      invariant forall j :: 0 <= j < i ==> !MatchesText(instances[j], pattern, idStr)
    {
      var inst := instances[i];
      if inst.isGenericModel && inst.familyName.Some? {
        if IsPrefix(pattern, inst.familyName.value) && Contains(inst.familyName.value, idStr) {
          return true;
        }
      }
      i := i + 1;
    }
    return false;
  }

  predicate RoomZoneInstance(inst: ZoneInstance)
  {
    inst.familyName.Some? && IsPrefix(FamilyNamePrefix(RoomKind), inst.familyName.value)
  }

  predicate MatchesRoom(inst: ZoneInstance, roomId: int)
  {
    inst.familyName.Some? && Contains(inst.familyName.value, IntToString(roomId))
  }

  /**
   * RoomAdapter.check_existing_zone: some zone instance's family name
   * contains the room id. Without a cache, the Generic Model instances
   * whose family name starts with "3DZone_Room-" are searched.
   */
  method RoomCheckExistingZone(roomId: int, cache: Option<seq<ZoneInstance>>, genericInstances: seq<ZoneInstance>) returns (b: bool)
    ensures cache.Some? ==> (b <==> exists i :: 0 <= i < |cache.value| && MatchesRoom(cache.value[i], roomId))
    ensures cache.None? ==> (b <==> exists i :: (0 <= i < |genericInstances| &&
      RoomZoneInstance(genericInstances[i]) && MatchesRoom(genericInstances[i], roomId)))
  {
    var zones: seq<ZoneInstance>;
    if cache.None? {
      zones := [];
      var k := 0;
      while k < |genericInstances|
        invariant 0 <= k <= |genericInstances|
        invariant forall z :: z in zones <==> exists j :: 0 <= j < k && genericInstances[j] == z && RoomZoneInstance(z)
      {
        if RoomZoneInstance(genericInstances[k]) {
          zones := zones + [genericInstances[k]];
        }
        k := k + 1;
      }
    } else {
      zones := cache.value;
    }
    var idStr := IntToString(roomId);
    var i := 0;
    while i < |zones|
      invariant 0 <= i <= |zones|
      invariant forall j :: 0 <= j < i ==> !MatchesRoom(zones[j], roomId)
    {
      if zones[i].familyName.Some? && Contains(zones[i].familyName.value, idStr) {
        b := true;
        if cache.None? {
          assert zones[i] in zones;
        }
        return;
      }
      i := i + 1;
    }
    b := false;
    if cache.None? {
      forall j | 0 <= j < |genericInstances| && RoomZoneInstance(genericInstances[j])
        ensures !MatchesRoom(genericInstances[j], roomId)
      {
        assert genericInstances[j] in zones;
      }
    }
  }

  // ------------------------------------------------------------ set_phase_on_instance

  datatype PlacedInstance = PlacedInstance(id: int, createdPhase: int)

  /** RoomAdapter.set_phase_on_instance: the phase is set only for a valid phase id. */
  function SetPhaseOnInstance(inst: Option<PlacedInstance>, phase: Option<int>): (r: Option<PlacedInstance>)
    ensures r.None? <==> inst.None?
    ensures inst.Some? ==> r.value.id == inst.value.id
    ensures inst.Some? && phase.Some? && phase.value != InvalidId ==> r.value.createdPhase == phase.value
    ensures (phase.None? || phase == Some(InvalidId)) ==> r == inst
  {
    if inst.Some? && phase.Some? && phase.value != InvalidId then Some(inst.value.(createdPhase := phase.value))
    else inst
  }
}
