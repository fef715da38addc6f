/**
 * MMI ("modell-modenhetsindeks") helpers: validating and correcting the
 * text of an MMI parameter, reading it from an element or its type, and the
 * two whole-model scans (filter by value, statistics).
 */
module MmiUtils {
  import opened Common
  import opened Strs

  /** A category: its name and whether it is a model category. */
  datatype Category = Category(name: string, isModel: bool)

  /**
   * An element as the MMI tools see it: id, category, the user that owns it
   * in a workshared model, its instance parameters and the parameters of its
   * type (None when it has no type).
   */
  datatype MmiElement = MmiElement(
    id: int,
    category: Option<Category>,
    owner: Option<string>,
    params: map<string, Param>,
    typeParams: Option<map<string, Param>>)

  /** `LookupParameter(name)` on the element, then on its type. */
  function LookupMmi(e: MmiElement, name: string): (r: Option<Param>)
    ensures name in e.params ==> r == Some(e.params[name])
    ensures name !in e.params && e.typeParams.Some? && name in e.typeParams.value ==> r == Some(e.typeParams.value[name])
    ensures r.None? <==> name !in e.params && (e.typeParams.None? || name !in e.typeParams.value)
  {
    if name in e.params then Some(e.params[name])
    else if e.typeParams.Some? && name in e.typeParams.value then Some(e.typeParams.value[name])
    else None
  }

  /** `AsString()` of a String parameter. */
  function StrOf(p: Param): string
  {
    if p.value.StrVal? then p.value.s else ""
  }

  // ---------------------------------------------------------------- validate

  /** A proposed correction: the stripped input and the three-digit fix. */
  datatype Correction = Correction(original: string, fixed: string)

  function Zeros(n: nat): (r: string)
    ensures |r| == n && forall i :: 0 <= i < n ==> r[i] == '0'
  {
    if n == 0 then [] else Zeros(n - 1) + "0"
  }

  /** The three-digit fix for a value outside 100..999. */
  function Fix(v: nat): (r: string)
    requires v < 100 || v > 999
  {
    var t := NatToString(v);
    NatToStringShort(v);
    if v < 100 then t + Zeros(3 - |t|) else t[..3]
  }

  /**
   * `validate_mmi_value` as written: None when no correction is needed, else
   * the stripped input and its fix. Only the first run of digits is read.
   */
  function ValidateMmiValue(s: string): (r: Option<Correction>)
    ensures s == [] || NoDigits(s) ==> r.None?
  {
    if s == [] then None
    else match FirstDigitRun(s)
      case None => None
      case Some(run) =>
        var v := ParseDigits(run);
        if v < 100 || v > 999 then Some(Correction(Strip(s), Fix(v))) else None
  }

  lemma {:induction false} ParseDigitsBound(d: string)
    requires AllDigits(d)
    ensures ParseDigits(d) < Pow10(|d|)
  {
    if d != [] {
      ParseDigitsBound(d[..|d| - 1]);
    }
  }

  function Pow10(n: nat): (r: nat)
    ensures r >= 1
  {
    if n == 0 then 1 else 10 * Pow10(n - 1)
  }

  lemma ParseAppend(d: string, c: char)
    requires AllDigits(d) && IsDigit(c)
    ensures ParseDigits(d + [c]) == ParseDigits(d) * 10 + DigitValue(c)
  {
    assert (d + [c])[..|d|] == d;
  }

  /** A canonical three-digit string denotes a value in 100..999. */
  lemma ThreeDigits(d: string)
    requires Canonical(d) && |d| == 3
    ensures 100 <= ParseDigits(d) <= 999
  {
    var init := d[..2];
    assert init[0] == d[0];
    ParseLeadingNonZero(init);
    ParseDigitsBound(d);
  }

  lemma {:induction false} DigitPrefixAll(s: string)
    requires AllDigits(s)
    ensures DigitPrefix(s) == s
  {
    if s != [] {
      DigitPrefixAll(s[1..]);
    }
  }

  /** The fix is three digits; its value lies in 100..999 unless the input was 0. */
  lemma {:induction false} FixShape(v: nat)
    requires v < 100 || v > 999
    ensures |Fix(v)| == 3 && AllDigits(Fix(v))
    ensures v == 0 <==> Fix(v) == "000"
    ensures v != 0 ==> 100 <= ParseDigits(Fix(v)) <= 999
  {
    var t := NatToString(v);
    NatToStringShort(v);
    var f := Fix(v);
    if v < 100 {
      if v == 0 {
        assert t == "0";
        assert f == "000";
      } else {
        assert t[0] != '0';
        assert f[0] == t[0];
        assert Canonical(f);
        ThreeDigits(f);
      }
      assert f[0] == t[0];
    } else {
      assert t[0] != '0';
      assert f[0] == t[0];
      assert Canonical(f);
      ThreeDigits(f);
    }
  }

  /** A correction is returned exactly when the first digit run is outside 100..999. */
  lemma ValidateMmiValueCases(s: string)
    ensures ValidateMmiValue(s).Some? <==>
      s != [] && FirstDigitRun(s).Some? &&
      (ParseDigits(FirstDigitRun(s).value) < 100 || ParseDigits(FirstDigitRun(s).value) > 999)
    ensures ValidateMmiValue(s).Some? ==>
      ValidateMmiValue(s).value.original == Strip(s) &&
      |ValidateMmiValue(s).value.fixed| == 3 && AllDigits(ValidateMmiValue(s).value.fixed)
  {
    if s != [] && FirstDigitRun(s).Some? {
      var v := ParseDigits(FirstDigitRun(s).value);
      if v < 100 || v > 999 {
        FixShape(v);
      }
    }
  }

  /** The first digit of `s` is at `k` when `s[k]` is a digit and none precedes it. */
  lemma FirstDigitAt(s: string, k: nat)
    requires k < |s| && IsDigit(s[k]) && NoDigits(s[..k])
    ensures FirstDigitIndex(s) == Some(k)
  {
  }

  /** A string of digits is its own first digit run. */
  lemma DigitsRun(s: string)
    requires s != [] && AllDigits(s)
    ensures FirstDigitRun(s) == Some(s)
  {
    FirstDigitAt(s, 0);
    DigitPrefixAll(s);
    assert s[0..] == s;
  }

  /** The validator on a plain digit string with no surrounding blanks. */
  lemma ValidateDigits(s: string)
    requires s != [] && AllDigits(s)
    ensures ValidateMmiValue(s) ==
      var v := ParseDigits(s);
      if v < 100 || v > 999 then Some(Correction(s, Fix(v))) else None
  {
    DigitsRun(s);
    StripUnchanged(s, IsSpace);
  }

  lemma Parse40()
    ensures ParseDigits("40") == 40 && NatToString(40) == "40" && Fix(40) == "400"
  {
    assert "40"[..1] == "4";
  }

  lemma Parse2500()
    ensures ParseDigits("2500") == 2500 && NatToString(2500) == "2500" && Fix(2500) == "250"
  {
    assert "2500"[..3] == "250";
    assert "250"[..2] == "25";
    assert "25"[..1] == "2";
  }

  lemma Parse000()
    ensures ParseDigits("000") == 0 && Fix(0) == "000"
  {
    assert "000"[..2] == "00";
    assert "00"[..1] == "0";
    assert NatToString(0) == "0";
  }

  lemma ValidateExamples()
    ensures ValidateMmiValue("40") == Some(Correction("40", "400"))
    ensures ValidateMmiValue("2500") == Some(Correction("2500", "250"))
  {
    Parse40();
    ValidateDigits("40");
    Parse2500();
    ValidateDigits("2500");
  }

  /** Text around the digits is ignored: only the first run counts. */
  lemma ValidateFirstRun(pre: string, run: string, post: string)
    requires NoDigits(pre) && run != [] && AllDigits(run) && (post != [] ==> !IsDigit(post[0]))
    ensures ValidateMmiValue(pre + run + post) ==
      match ValidateMmiValue(run)
      case None => None
      case Some(c) => Some(Correction(Strip(pre + run + post), c.fixed))
  {
    var s := pre + run + post;
    assert s[..|pre|] == pre;
    assert s[|pre|] == run[0];
    FirstDigitAt(s, |pre|);
    assert s[|pre|..] == run + post;
    DigitPrefixTail(run, post);
    DigitsRun(run);
    StripUnchangedDigits(run);
  }

  lemma {:induction false} DigitPrefixTail(run: string, post: string)
    requires AllDigits(run) && (post != [] ==> !IsDigit(post[0]))
    ensures DigitPrefix(run + post) == run
  {
    if run != [] {
      assert (run + post)[1..] == run[1..] + post;
      DigitPrefixTail(run[1..], post);
    }
  }

  lemma StripUnchangedDigits(s: string)
    requires s != [] && AllDigits(s)
    ensures Strip(s) == s
  {
    StripUnchanged(s, IsSpace);
  }

  /**
   * The validator as written rejects its own correction for level 000:
   * "000" is flagged and "corrected" to "000" again.
   */
  lemma ValidateFlagsOwnFix()
    ensures ValidateMmiValue("000") == Some(Correction("000", "000"))
  {
    Parse000();
    ValidateDigits("000");
  }

  /**
   * The evidently intended validator: a correction is only proposed when
   * the fix differs from the digits that are there, so level 000 passes.
   */
  function ValidateMmi(s: string): (r: Option<Correction>)
    ensures r.Some? ==> ValidateMmiValue(s) == r
    ensures ValidateMmiValue(s).Some? && r.None? ==> FirstDigitRun(s) == Some(ValidateMmiValue(s).value.fixed)
  {
    match ValidateMmiValue(s)
    case None => None
    case Some(c) => if FirstDigitRun(s) == Some(c.fixed) then None else Some(c)
  }

  /** The corrected validator accepts every fix it proposes. */
  lemma ValidateMmiAcceptsFix(s: string)
    requires ValidateMmi(s).Some?
    ensures ValidateMmi(ValidateMmi(s).value.fixed).None?
  {
    var run := FirstDigitRun(s).value;
    var v := ParseDigits(run);
    var f := Fix(v);
    assert ValidateMmi(s).value.fixed == f;
    FixShape(v);
    ValidateDigits(f);
    DigitsRun(f);
    if v == 0 {
      Parse000();
    }
  }

  /** Level 000 is accepted by the corrected validator. */
  lemma ValidateMmiLevelZero()
    ensures ValidateMmi("000").None?
  {
    assert "000"[0] == '0' && "000"[1] == '0' && "000"[2] == '0';
    DigitsRun("000");
    ValidateFlagsOwnFix();
  }

  // ---------------------------------------------------------------- read

  /** The three results of `get_element_mmi_value`: number, text and whether a parameter was found. */
  datatype MmiReading = MmiReading(number: Option<nat>, text: Option<string>, hasParam: bool)

  /**
   * `get_element_mmi_value`: nothing when the parameter is missing or not a
   * String; otherwise its text ("" without a value) and the first digit run.
   */
  function ElementMmiValue(e: MmiElement, name: string): (r: MmiReading)
    ensures r.hasParam <==> LookupMmi(e, name).Some? && LookupMmi(e, name).value.storage == StrStorage
    ensures !r.hasParam ==> r == MmiReading(None, None, false)
    ensures r.hasParam ==> r.text.Some?
    ensures r.number.Some? <==> r.hasParam && !NoDigits(r.text.value)
    ensures r.number.Some? ==> r.number == Some(ParseDigits(FirstDigitRun(r.text.value).value))
  {
    match LookupMmi(e, name)
    case None => MmiReading(None, None, false)
    case Some(p) =>
      if p.storage != StrStorage then MmiReading(None, None, false)
      else
        var text := if p.hasValue then StrOf(p) else "";
        if text != [] && FirstDigitRun(text).Some? then
          MmiReading(Some(ParseDigits(FirstDigitRun(text).value)), Some(text), true)
        else MmiReading(None, Some(text), true)
  }

  // ---------------------------------------------------------------- filter

  /** The value a String parameter with a value holds, if the element has one. */
  function MmiText(e: MmiElement, name: string): (r: Option<string>)
    ensures r.Some? <==> exists p :: LookupMmi(e, name) == Some(p) && p.hasValue && p.storage == StrStorage
  {
    match LookupMmi(e, name)
    case None => None
    case Some(p) => if p.hasValue && p.storage == StrStorage then Some(StrOf(p)) else None
  }

  /** One of the five comparison names; any other name matches nothing. */
  predicate Compares(comparison: string, v: int, target: int)
  {
    (comparison == "equal" && v == target) ||
    (comparison == "greater" && v > target) ||
    (comparison == "less" && v < target) ||
    (comparison == "greater_equal" && v >= target) ||
    (comparison == "less_equal" && v <= target)
  }

  /** Whether an element with MMI text `text` matches the filter. */
  predicate MatchesFilter(text: string, target: string, comparison: string)
  {
    match ParseInt(target)
    case Some(t) =>
      FirstDigitRun(text).Some? && Compares(comparison, ParseDigits(FirstDigitRun(text).value), t)
    case None => text == target
  }

  /** The elements, in order, whose MMI text matches the filter. */
  function Matching(es: seq<MmiElement>, name: string, target: string, comparison: string): (r: seq<MmiElement>)
    ensures |r| <= |es|
  {
    if es == [] then []
    else
      var last := es[|es| - 1];
      var t := MmiText(last, name);
      Matching(es[..|es| - 1], name, target, comparison) +
        (if t.Some? && MatchesFilter(t.value, target, comparison) then [last] else [])
  }

  lemma {:induction false} MatchingMembers(es: seq<MmiElement>, name: string, target: string, comparison: string)
    ensures forall e :: e in Matching(es, name, target, comparison) <==>
      e in es && MmiText(e, name).Some? && MatchesFilter(MmiText(e, name).value, target, comparison)
  {
    if es != [] {
      MatchingMembers(es[..|es| - 1], name, target, comparison);
      assert es == es[..|es| - 1] + [es[|es| - 1]];
    }
  }

  lemma MatchingSnoc(es: seq<MmiElement>, name: string, target: string, comparison: string, i: int)
    requires 0 <= i < |es|
    ensures Matching(es[..i + 1], name, target, comparison) ==
      Matching(es[..i], name, target, comparison) +
        (if MmiText(es[i], name).Some? && MatchesFilter(MmiText(es[i], name).value, target, comparison) then [es[i]] else [])
  {
    assert es[..i + 1][..i] == es[..i];
  }

  /** `get_elements_by_mmi_value` over the document's non-type elements. */
  method ElementsByMmiValue(es: seq<MmiElement>, name: string, target: string, comparison: string)
    returns (r: seq<MmiElement>)
    ensures r == Matching(es, name, target, comparison)
  {
    r := [];
    var i := 0;
    while i < |es|
      invariant 0 <= i <= |es|
      invariant r == Matching(es[..i], name, target, comparison)
    {
      MatchingSnoc(es, name, target, comparison, i);
      var t := MmiText(es[i], name);
      if t.Some? && MatchesFilter(t.value, target, comparison) {
        r := r + [es[i]];
      }
      i := i + 1;
    }
    assert es[..i] == es;
  }

  /**
   * For a numeric target, "less", "equal" and "greater" split the elements
   * that carry a number: each lands in exactly one.
   */
  lemma NumericTrichotomy(text: string, target: string)
    requires ParseInt(target).Some? && FirstDigitRun(text).Some?
    ensures MatchesFilter(text, target, "less") || MatchesFilter(text, target, "equal") || MatchesFilter(text, target, "greater")
    ensures !(MatchesFilter(text, target, "less") && MatchesFilter(text, target, "equal"))
    ensures !(MatchesFilter(text, target, "less") && MatchesFilter(text, target, "greater"))
    ensures !(MatchesFilter(text, target, "equal") && MatchesFilter(text, target, "greater"))
    ensures MatchesFilter(text, target, "less_equal") <==> MatchesFilter(text, target, "less") || MatchesFilter(text, target, "equal")
    ensures MatchesFilter(text, target, "greater_equal") <==> MatchesFilter(text, target, "greater") || MatchesFilter(text, target, "equal")
  {
  }

  /** A text without digits never matches a numeric target, and an unknown comparison never matches. */
  lemma FilterMisses(text: string, target: string, comparison: string)
    ensures ParseInt(target).Some? && NoDigits(text) ==> !MatchesFilter(text, target, comparison)
    ensures ParseInt(target).Some? && comparison !in ["equal", "greater", "less", "greater_equal", "less_equal"] ==>
      !MatchesFilter(text, target, comparison)
    ensures ParseInt(target).None? ==> (MatchesFilter(text, target, comparison) <==> text == target)
  {
  }

  // ---------------------------------------------------------------- statistics

  /** An element whose MMI text holds no number. */
  datatype InvalidValue = InvalidValue(id: int, value: string, reason: string)

  /** `mmi_values` is a histogram: (value, count) pairs in first-seen order. */
  datatype Stats = Stats(total: nat, withMmi: nat, histogram: seq<(nat, nat)>, invalid: seq<InvalidValue>)

  function HistKeys(h: seq<(nat, nat)>): (r: set<nat>)
  {
    set k | 0 <= k < |h| :: h[k].0
  }

  function HistSum(h: seq<(nat, nat)>): nat
  {
    if h == [] then 0 else HistSum(h[..|h| - 1]) + h[|h| - 1].1
  }

  predicate DistinctKeys(h: seq<(nat, nat)>)
  {
    forall i, j :: 0 <= i < j < |h| ==> h[i].0 != h[j].0
  }

  /** `hist[v] += 1`, or a new entry with count 1. */
  function Bump(h: seq<(nat, nat)>, v: nat): seq<(nat, nat)>
  {
    if h == [] then [(v, 1)]
    else if h[|h| - 1].0 == v then h[..|h| - 1] + [(v, h[|h| - 1].1 + 1)]
    else Bump(h[..|h| - 1], v) + [h[|h| - 1]]
  }

  lemma HistSnoc(h: seq<(nat, nat)>, x: (nat, nat))
    ensures HistKeys(h + [x]) == HistKeys(h) + {x.0}
    ensures HistSum(h + [x]) == HistSum(h) + x.1
  {
    var r := h + [x];
    assert r[..|r| - 1] == h && r[|r| - 1] == x;
    assert HistSum(r) == HistSum(h) + x.1;
    assert r[|h|].0 == x.0;
    forall y | y in HistKeys(r) ensures y in HistKeys(h) + {x.0} {
      var k :| 0 <= k < |r| && r[k].0 == y;
      if k < |h| { assert r[k] == h[k]; }
    }
    forall y | y in HistKeys(h) ensures y in HistKeys(r) {
      var k :| 0 <= k < |h| && h[k].0 == y;
      assert r[k] == h[k];
    }
  }

  lemma DistinctSnoc(h: seq<(nat, nat)>, x: (nat, nat))
    requires DistinctKeys(h) && x.0 !in HistKeys(h)
    ensures DistinctKeys(h + [x])
  {
    var r := h + [x];
    forall i, j | 0 <= i < j < |r| ensures r[i].0 != r[j].0 {
      assert r[i] == h[i];
      if j == |h| {
        assert h[i].0 in HistKeys(h);
      } else {
        assert r[j] == h[j];
      }
    }
  }

  lemma {:induction false} BumpProps(h: seq<(nat, nat)>, v: nat)
    requires DistinctKeys(h)
    ensures DistinctKeys(Bump(h, v))
    ensures HistKeys(Bump(h, v)) == HistKeys(h) + {v}
    ensures HistSum(Bump(h, v)) == HistSum(h) + 1
  {
    if h == [] {
      HistSnoc([], (v, 1));
      assert [] + [(v, 1)] == [(v, 1)];
    } else {
      var init := h[..|h| - 1];
      var last := h[|h| - 1];
      assert h == init + [last];
      HistSnoc(init, last);
      assert last.0 !in HistKeys(init) by {
        forall k | 0 <= k < |init| ensures init[k].0 != last.0 {
          assert init[k] == h[k];
        }
      }
      if last.0 == v {
        assert Bump(h, v) == init + [(v, last.1 + 1)];
        HistSnoc(init, (v, last.1 + 1));
        DistinctSnoc(init, (v, last.1 + 1));
      } else {
        assert Bump(h, v) == Bump(init, v) + [last];
        BumpProps(init, v);
        HistSnoc(Bump(init, v), last);
        DistinctSnoc(Bump(init, v), last);
      }
    }
  }

  /** Statistics after one more element. */
  function StatsStep(st: Stats, e: MmiElement, name: string): (r: Stats)
  {
    match MmiText(e, name)
    case None => st
    case Some(text) =>
      var st1 := st.(withMmi := st.withMmi + 1);
      match FirstDigitRun(text)
      case Some(run) => st1.(histogram := Bump(st.histogram, ParseDigits(run)))
      case None => st1.(invalid := st.invalid + [InvalidValue(e.id, text, "No numeric value found")])
  }

  function StatsOf(es: seq<MmiElement>, name: string): (r: Stats)
  {
    if es == [] then Stats(0, 0, [], [])
    else StatsStep(StatsOf(es[..|es| - 1], name), es[|es| - 1], name).(total := |es|)
  }

  /**
   * Every element with a String MMI value is counted once: in the histogram
   * when it holds a number, otherwise among the invalid values.
   */
  lemma {:induction false} StatsBalance(es: seq<MmiElement>, name: string)
    ensures StatsOf(es, name).total == |es|
    ensures HistSum(StatsOf(es, name).histogram) + |StatsOf(es, name).invalid| == StatsOf(es, name).withMmi
    ensures StatsOf(es, name).withMmi <= StatsOf(es, name).total
    ensures DistinctKeys(StatsOf(es, name).histogram)
  {
    if es != [] {
      var init := es[..|es| - 1];
      StatsBalance(init, name);
      var st := StatsOf(init, name);
      var t := MmiText(es[|es| - 1], name);
      if t.Some? && FirstDigitRun(t.value).Some? {
        BumpProps(st.histogram, ParseDigits(FirstDigitRun(t.value).value));
      }
    }
  }

  /** The number the first run of digits of the element's MMI text reads as, if any. */
  function RunValue(e: MmiElement, name: string): Option<nat>
  {
    match MmiText(e, name)
    case None => None
    case Some(text) =>
      match FirstDigitRun(text)
      case None => None
      case Some(run) => Some(ParseDigits(run))
  }

  /** The numbers the elements' MMI texts start their digits with. */
  function RunValues(es: seq<MmiElement>, name: string): set<nat>
  {
    set e | e in es && RunValue(e, name).Some? :: RunValue(e, name).value
  }

  lemma RunValuesSnoc(es: seq<MmiElement>, name: string)
    requires es != []
    ensures var last := es[|es| - 1];
      RunValues(es, name) == RunValues(es[..|es| - 1], name) +
        (if RunValue(last, name).Some? then {RunValue(last, name).value} else {})
  {
    var init, last := es[..|es| - 1], es[|es| - 1];
    assert es == init + [last];
    forall e | e in es ensures e in init || e == last {}
    forall e | e in init ensures e in es {}
  }

  /** The histogram keys are exactly the numbers the elements' MMI texts start their digits with. */
  lemma {:induction false} StatsKeys(es: seq<MmiElement>, name: string)
    ensures HistKeys(StatsOf(es, name).histogram) == RunValues(es, name)
  {
    if es != [] {
      var init := es[..|es| - 1];
      var last := es[|es| - 1];
      StatsKeys(init, name);
      StatsBalance(init, name);
      RunValuesSnoc(es, name);
      var r := RunValue(last, name);
      if r.Some? {
        BumpProps(StatsOf(init, name).histogram, r.value);
      }
    }
  }

  lemma StatsSnoc(es: seq<MmiElement>, name: string, i: int)
    requires 0 <= i < |es|
    ensures StatsOf(es[..i + 1], name) == StatsStep(StatsOf(es[..i], name), es[i], name).(total := i + 1)
  {
    assert es[..i + 1][..i] == es[..i];
  }

  /** `get_mmi_statistics` over the document's non-type elements. */
  method MmiStatistics(es: seq<MmiElement>, name: string) returns (st: Stats)
    ensures st == StatsOf(es, name)
  {
    st := Stats(|es|, 0, [], []);
    var i := 0;
    while i < |es|
      invariant 0 <= i <= |es|
      invariant st == StatsOf(es[..i], name).(total := |es|)
    {
      StatsSnoc(es, name, i);
      var t := MmiText(es[i], name);
      if t.Some? {
        st := st.(withMmi := st.withMmi + 1);
        var run := FirstDigitRun(t.value);
        if run.Some? {
          st := st.(histogram := Bump(st.histogram, ParseDigits(run.value)));
        } else {
          st := st.(invalid := st.invalid + [InvalidValue(es[i].id, t.value, "No numeric value found")]);
        }
      }
      i := i + 1;
    }
    assert es[..i] == es;
    if es == [] {
      assert st == StatsOf(es, name);
    }
  }
}
