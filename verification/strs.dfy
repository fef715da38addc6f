/**
 * The pieces of Python's `str` behaviour the extension leans on:
 * `strip`, `lower`/`upper`, `in`, `startswith`, `split`/`join`, `int()`/`str()`
 * on decimal integers, `re.findall(r'\d+')[0]`, and code-point ordering.
 */
module Strs {
  import opened Common

  predicate IsDigit(c: char) { '0' <= c <= '9' }

  /** The ASCII characters `str.strip()` removes by default. */
  predicate IsSpace(c: char)
  {
    c == ' ' || c == '\t' || c == '\n' || c == '\r' || c == '\U{000B}' || c == '\U{000C}'
  }

  predicate AllDigits(s: string)
  {
    forall i :: 0 <= i < |s| ==> IsDigit(s[i])
  }

  predicate NoDigits(s: string)
  {
    forall i :: 0 <= i < |s| ==> !IsDigit(s[i])
  }

  // ---------------------------------------------------------------- strip

  function LStrip(s: string, drop: char -> bool): (r: string)
    ensures |r| <= |s| && r == s[|s| - |r|..]
    ensures r != [] ==> !drop(r[0])
    ensures forall i :: 0 <= i < |s| - |r| ==> drop(s[i])
  {
    if s != [] && drop(s[0]) then LStrip(s[1..], drop) else s
  }

  function RStrip(s: string, drop: char -> bool): (r: string)
    ensures |r| <= |s| && r == s[..|r|]
    ensures r != [] ==> !drop(r[|r| - 1])
    ensures forall i :: |r| <= i < |s| ==> drop(s[i])
  {
    if s != [] && drop(s[|s| - 1]) then RStrip(s[..|s| - 1], drop) else s
  }

  /** `s.strip(chars)`: drop leading and trailing characters satisfying `drop`. */
  function StripBy(s: string, drop: char -> bool): (r: string)
    ensures exists a :: SliceAt(s, r, a)
    ensures r != [] ==> !drop(r[0]) && !drop(r[|r| - 1])
    ensures r == [] <==> forall i :: 0 <= i < |s| ==> drop(s[i])
  {
    StripSlice(s, drop);
    RStrip(LStrip(s, drop), drop)
  }

  lemma StripSlice(s: string, drop: char -> bool)
    ensures var l := LStrip(s, drop); var r := RStrip(l, drop);
      SliceAt(s, r, |s| - |l|) && (r == [] <==> forall i :: 0 <= i < |s| ==> drop(s[i]))
  {
    var l := LStrip(s, drop);
    var r := RStrip(l, drop);
    StripSliceAt(s, l, r);
    StripEmpty(s, drop, l, r);
    if r != [] {
      assert r[0] == s[|s| - |l|];
    }
  }

  lemma StripSliceAt(s: string, l: string, r: string)
    requires |l| <= |s| && l == s[|s| - |l|..]
    requires |r| <= |l| && r == l[..|r|]
    ensures SliceAt(s, r, |s| - |l|)
  {
    assert s[|s| - |l|..][..|r|] == s[|s| - |l|..|s| - |l| + |r|];
  }

  /** Stripping only removes characters. */
  lemma StripByChars(s: string, drop: char -> bool)
    ensures forall x :: x in StripBy(s, drop) ==> x in s
  {
    var r := StripBy(s, drop);
    var a :| SliceAt(s, r, a);
    forall x | x in r ensures x in s {
      var i :| 0 <= i < |r| && r[i] == x;
      assert s[a + i] == x;
    }
  }


  lemma StripEmpty(s: string, drop: char -> bool, l: string, r: string)
    requires l == LStrip(s, drop) && r == RStrip(l, drop)
    ensures r == [] ==> forall i :: 0 <= i < |s| ==> drop(s[i])
  {
    if r == [] {
      forall i | 0 <= i < |s| ensures drop(s[i]) {
        if i >= |s| - |l| { assert s[i] == l[i - (|s| - |l|)]; }
      }
    }
  }

  lemma StripUnchanged(s: string, drop: char -> bool)
    requires s != [] ==> !drop(s[0]) && !drop(s[|s| - 1])
    ensures StripBy(s, drop) == s
  {
  }

  /** `s.strip()`. */
  function Strip(s: string): string
  {
    StripBy(s, IsSpace)
  }

  /** `not s.strip()`. */
  predicate IsBlank(s: string)
  {
    forall i :: 0 <= i < |s| ==> IsSpace(s[i])
  }

  lemma BlankIffStripEmpty(s: string)
    ensures IsBlank(s) <==> Strip(s) == []
  {
  }

  // ---------------------------------------------------------------- case

  /** `str.lower()` restricted to ASCII letters. */
  function LowerChar(c: char): (d: char)
    ensures 'A' <= c <= 'Z' ==> d as int == c as int + 32
    ensures !('A' <= c <= 'Z') ==> d == c
  {
    if 'A' <= c <= 'Z' then (c as int + 32) as char else c
  }

  /** `str.upper()` restricted to ASCII letters. */
  function UpperChar(c: char): (d: char)
    ensures 'a' <= c <= 'z' ==> d as int == c as int - 32
    ensures !('a' <= c <= 'z') ==> d == c
  {
    if 'a' <= c <= 'z' then (c as int - 32) as char else c
  }

  function Lower(s: string): (r: string)
    ensures |r| == |s| && forall i :: 0 <= i < |s| ==> r[i] == LowerChar(s[i])
  {
    seq(|s|, i requires 0 <= i < |s| => LowerChar(s[i]))
  }

  function Upper(s: string): (r: string)
    ensures |r| == |s| && forall i :: 0 <= i < |s| ==> r[i] == UpperChar(s[i])
  {
    seq(|s|, i requires 0 <= i < |s| => UpperChar(s[i]))
  }

  lemma LowerIdempotent(s: string)
    ensures Lower(Lower(s)) == Lower(s)
  {
  }

  // ---------------------------------------------------------------- search

  /** `s.startswith(p)`. */
  predicate IsPrefix(p: string, s: string)
  {
    |p| <= |s| && s[..|p|] == p
  }

  /** `sub` occurs in `s` starting at index `i`. */
  predicate SliceAt(s: string, sub: string, i: int)
  {
    0 <= i <= |s| - |sub| && s[i..i + |sub|] == sub
  }

  /** `sub in s` for strings. */
  predicate Contains(s: string, sub: string)
  {
    exists i | 0 <= i <= |s| - |sub| :: SliceAt(s, sub, i)
  }

  lemma ContainsEmpty(s: string)
    ensures Contains(s, [])
  {
    assert SliceAt(s, [], 0);
  }

  lemma ContainsSelf(s: string)
    ensures Contains(s, s)
  {
    assert SliceAt(s, s, 0);
  }

  /** Case-insensitive substring test: `needle.lower() in hay.lower()`. */
  predicate ContainsCI(hay: string, needle: string)
  {
    Contains(Lower(hay), Lower(needle))
  }

  /** A part of a part of `s` is a part of `s`. */
  lemma ContainsTrans(s: string, t: string, u: string)
    requires Contains(s, t) && Contains(t, u)
    ensures Contains(s, u)
  {
    var i :| 0 <= i <= |s| - |t| && SliceAt(s, t, i);
    var j :| 0 <= j <= |t| - |u| && SliceAt(t, u, j);
    forall k | 0 <= k < |u| ensures s[i + j..i + j + |u|][k] == u[k] {
      assert u[k] == t[j + k] == s[i..i + |t|][j + k];
    }
    assert SliceAt(s, u, i + j);
  }

  /** Lower-casing both sides keeps a part a part. */
  lemma LowerContains(s: string, t: string)
    requires Contains(s, t)
    ensures Contains(Lower(s), Lower(t))
  {
    var i :| 0 <= i <= |s| - |t| && SliceAt(s, t, i);
    assert Lower(s)[i..i + |t|] == Lower(t);
    assert SliceAt(Lower(s), Lower(t), i);
  }

  /** A case-insensitive match of a needle is a match of every part of it. */
  lemma ContainsCINarrow(hay: string, needle: string, part: string)
    requires ContainsCI(hay, needle) && Contains(needle, part)
    ensures ContainsCI(hay, part)
  {
    LowerContains(needle, part);
    ContainsTrans(Lower(hay), Lower(needle), Lower(part));
  }

  // ---------------------------------------------------------------- digits

  /** Longest prefix of `s` made of digits. */
  function DigitPrefix(s: string): (r: string)
    ensures IsPrefix(r, s) && AllDigits(r)
    ensures |r| < |s| ==> !IsDigit(s[|r|])
  {
    if s != [] && IsDigit(s[0]) then [s[0]] + DigitPrefix(s[1..]) else []
  }

  /** Index of the first digit of `s`, if any. */
  function FirstDigitIndex(s: string): (r: Option<nat>)
    ensures r.None? <==> NoDigits(s)
    ensures r.Some? ==> r.value < |s| && IsDigit(s[r.value]) && NoDigits(s[..r.value])
  {
    if s == [] then None
    else if IsDigit(s[0]) then Some(0)
    else
      var k := FirstDigitIndex(s[1..]);
      if k.None? then None
      else
        assert s[..k.value + 1] == [s[0]] + s[1..][..k.value];
        Some(k.value + 1)
  }

  /**
   * `re.findall(r'\d+', s)[0]` when it exists: the first maximal run of
   * digits.
   */
  function FirstDigitRun(s: string): (r: Option<string>)
    ensures r.None? <==> NoDigits(s)
    ensures r.Some? ==> r.value != [] && AllDigits(r.value)
    ensures r.Some? ==> exists k :: 0 <= k < |s| && NoDigits(s[..k]) && r.value == DigitPrefix(s[k..])
  {
    match FirstDigitIndex(s)
    case None => None
    case Some(k) => Some(DigitPrefix(s[k..]))
  }

  function DigitValue(c: char): (v: nat)
    requires IsDigit(c)
    ensures v < 10
  {
    c as int - '0' as int
  }

  function DigitChar(v: nat): (c: char)
    requires v < 10
    ensures IsDigit(c) && DigitValue(c) == v
  {
    ('0' as int + v) as char
  }

  /** `int(d)` for a string of ASCII digits. */
  function ParseDigits(d: string): nat
    requires AllDigits(d)
  {
    if d == [] then 0 else ParseDigits(d[..|d| - 1]) * 10 + DigitValue(d[|d| - 1])
  }

  /** `str(n)` for a natural number. */
  function NatToString(n: nat): (r: string)
    ensures r != [] && AllDigits(r)
    ensures r[0] == '0' ==> n == 0 && |r| == 1
  {
    if n < 10 then [DigitChar(n)] else NatToString(n / 10) + [DigitChar(n % 10)]
  }

  lemma {:induction false} ParseNatToString(n: nat)
    ensures ParseDigits(NatToString(n)) == n
  {
    if n >= 10 {
      var s := NatToString(n);
      assert s[..|s| - 1] == NatToString(n / 10);
      ParseNatToString(n / 10);
    }
  }

  /** No leading zero: what `str(int(d))` gives back unchanged. */
  predicate Canonical(d: string)
  {
    d != [] && AllDigits(d) && (d[0] == '0' ==> |d| == 1)
  }

  lemma {:induction false} NatToStringParse(d: string)
    requires Canonical(d)
    ensures NatToString(ParseDigits(d)) == d
  {
    if |d| > 1 {
      var init := d[..|d| - 1];
      assert init[0] == d[0];
      ParseLeadingNonZero(init);
      NatToStringParse(init);
      var n := ParseDigits(d);
      assert n / 10 == ParseDigits(init) && n % 10 == DigitValue(d[|d| - 1]);
    } else {
      assert d == [d[0]];
    }
  }

  /** A canonical digit string of two or more digits denotes at least 10. */
  lemma {:induction false} ParseLeadingNonZero(d: string)
    requires Canonical(d)
    ensures |d| > 1 ==> ParseDigits(d) >= 10
    ensures ParseDigits(d) > 0 || |d| == 1
  {
    if |d| > 1 {
      var init := d[..|d| - 1];
      assert init[0] == d[0];
      ParseLeadingNonZero(init);
    }
  }

  lemma {:induction false} NatToStringShort(n: nat)
    ensures n < 10 <==> |NatToString(n)| == 1
    ensures n < 100 <==> |NatToString(n)| <= 2
    ensures n < 1000 <==> |NatToString(n)| <= 3
  {
    if n >= 10 {
      NatToStringShort(n / 10);
    }
  }

  /** `str(i)` for any integer. */
  function IntToString(i: int): (r: string)
    ensures r != [] && !IsSpace(r[0]) && !IsSpace(r[|r| - 1])
  {
    if i < 0 then "-" + NatToString(-i) else NatToString(i)
  }

  /**
   * `int(s)` for decimal text: surrounding whitespace, an optional sign and
   * at least one digit; anything else raises ValueError (None here).
   */
  function ParseInt(s: string): (r: Option<int>)
    ensures r.Some? ==> Strip(s) != []
  {
    var t := Strip(s);
    if t == [] then None
    else if t[0] == '-' || t[0] == '+' then
      var d := t[1..];
      if d != [] && AllDigits(d) then
        Some(if t[0] == '-' then -(ParseDigits(d) as int) else ParseDigits(d))
      else None
    else if AllDigits(t) then Some(ParseDigits(t))
    else None
  }

  lemma IntRoundTrip(i: int)
    ensures ParseInt(IntToString(i)) == Some(i)
  {
    var s := IntToString(i);
    StripUnchanged(s, IsSpace);
    if i < 0 {
      assert s[1..] == NatToString(-i);
      ParseNatToString(-i);
    } else {
      ParseNatToString(i);
    }
  }

  // ---------------------------------------------------------------- split/join

  /** `sep.join(parts)`. */
  function Join(parts: seq<string>, sep: string): string
  {
    if parts == [] then []
    else if |parts| == 1 then parts[0]
    else parts[0] + sep + Join(parts[1..], sep)
  }

  lemma JoinCons(a: string, t: seq<string>, sep: string)
    requires t != []
    ensures Join([a] + t, sep) == a + sep + Join(t, sep)
  {
    assert ([a] + t)[0] == a && ([a] + t)[1..] == t;
  }

  function IndexOf(s: string, c: char): (i: nat)
    requires c in s
    ensures i < |s| && s[i] == c && c !in s[..i]
    ensures forall j :: 0 <= j < i ==> s[j] != c
  {
    if s[0] == c then 0
    else
      var k := IndexOf(s[1..], c);
      assert s[..k + 1] == [s[0]] + s[1..][..k];
      k + 1
  }

  /** `s.split(sep)` for a one-character separator. */
  function Split(s: string, sep: char): (r: seq<string>)
    ensures |r| >= 1
    ensures forall k :: 0 <= k < |r| ==> sep !in r[k]
    decreases |s|
  {
    if sep !in s then [s]
    else
      var i := IndexOf(s, sep);
      [s[..i]] + Split(s[i + 1..], sep)
  }

  lemma IndexOfAfter(a: string, c: char, b: string)
    requires c !in a
    ensures IndexOf(a + [c] + b, c) == |a|
  {
    var s := a + [c] + b;
    assert s[|a|] == c;
    assert forall j :: 0 <= j < |a| ==> s[j] == a[j];
  }

  /** Splitting a joined list gives the list back when no part holds the separator. */
  lemma {:induction false} SplitJoin(parts: seq<string>, sep: char)
    requires parts != []
    requires forall k :: 0 <= k < |parts| ==> sep !in parts[k]
    ensures Split(Join(parts, [sep]), sep) == parts
  {
    if |parts| > 1 {
      var rest := Join(parts[1..], [sep]);
      var s := Join(parts, [sep]);
      assert s[|parts[0]|] == sep;
      IndexOfAfter(parts[0], sep, rest);
      assert s[..|parts[0]|] == parts[0];
      assert s[|parts[0]| + 1..] == rest;
      SplitJoin(parts[1..], sep);
    }
  }

  /** Joining what was split gives the text back. */
  lemma {:induction false} JoinSplit(s: string, sep: char)
    ensures Join(Split(s, sep), [sep]) == s
    decreases |s|
  {
    if sep in s {
      var i := IndexOf(s, sep);
      var t := Split(s[i + 1..], sep);
      JoinSplit(s[i + 1..], sep);
      JoinCons(s[..i], t, [sep]);
      assert s == s[..i] + [sep] + s[i + 1..];
    }
  }

  lemma SliceAtShift(s: string, sub: string, j: int)
    requires 1 <= j <= |s| - |sub|
    ensures SliceAt(s, sub, j) <==> SliceAt(s[1..], sub, j - 1)
  {
    var a, b := s[j..j + |sub|], s[1..][j - 1..j - 1 + |sub|];
    assert |a| == |b|;
    forall k | 0 <= k < |a| ensures a[k] == b[k] {
      assert a[k] == s[j + k] && b[k] == s[1..][j - 1 + k];
    }
    assert a == b;
  }

  /** The first index at which `sub` occurs in `s`. */
  function FirstSlice(s: string, sub: string): (r: Option<nat>)
    requires |sub| > 0
    ensures r.Some? ==> SliceAt(s, sub, r.value)
    ensures r.Some? ==> forall j :: 0 <= j < r.value ==> !SliceAt(s, sub, j)
    ensures r.None? ==> forall j :: 0 <= j <= |s| - |sub| ==> !SliceAt(s, sub, j)
    decreases |s|
  {
    if |s| < |sub| then None
    else if s[..|sub|] == sub then Some(0)
    else
      var k := FirstSlice(s[1..], sub);
      assert forall j :: 1 <= j <= |s| - |sub| ==> (SliceAt(s, sub, j) <==> SliceAt(s[1..], sub, j - 1)) by {
        forall j | 1 <= j <= |s| - |sub| ensures SliceAt(s, sub, j) <==> SliceAt(s[1..], sub, j - 1) {
          SliceAtShift(s, sub, j);
        }
      }
      if k.None? then None else Some(k.value + 1)
  }

  /** `s.split(sep)` for a separator of any non-zero length, scanning left to right. */
  function SplitOn(s: string, sep: string): (r: seq<string>)
    requires |sep| > 0
    ensures |r| >= 1
    decreases |s|
  {
    var k := FirstSlice(s, sep);
    if k.None? then [s] else [s[..k.value]] + SplitOn(s[k.value + |sep|..], sep)
  }

  /** Joining what was split on a string gives the text back. */
  lemma {:induction false} JoinSplitOn(s: string, sep: string)
    requires |sep| > 0
    ensures Join(SplitOn(s, sep), sep) == s
    decreases |s|
  {
    var k := FirstSlice(s, sep);
    if k.Some? {
      var i := k.value;
      JoinSplitOn(s[i + |sep|..], sep);
      JoinCons(s[..i], SplitOn(s[i + |sep|..], sep), sep);
      assert s == s[..i] + sep + s[i + |sep|..];
    }
  }

  /** `re.split('[...]', s)`: split at every character of a class. */
  function SplitAny(s: string, seps: set<char>): (r: seq<string>)
    ensures |r| >= 1
    ensures forall k :: 0 <= k < |r| ==> forall c :: c in r[k] ==> c !in seps
  {
    if s == [] then [[]]
    else
      var rest := SplitAny(s[1..], seps);
      if s[0] in seps then [[]] + rest else [[s[0]] + rest[0]] + rest[1..]
  }

  function CountIn(s: string, seps: set<char>): nat
  {
    if s == [] then 0 else (if s[0] in seps then 1 else 0) + CountIn(s[1..], seps)
  }

  /** There is one more part than there are separator characters. */
  lemma {:induction false} SplitAnyCount(s: string, seps: set<char>)
    ensures |SplitAny(s, seps)| == CountIn(s, seps) + 1
  {
    if s != [] {
      SplitAnyCount(s[1..], seps);
    }
  }

  // ---------------------------------------------------------------- order

  /** Python's `<=` on strings: lexicographic by code point. */
  predicate StrLe(a: string, b: string)
  {
    if a == [] then true
    else if b == [] then false
    else if a[0] != b[0] then a[0] < b[0]
    else StrLe(a[1..], b[1..])
  }

  lemma {:induction false} StrLeTotal(a: string, b: string)
    ensures StrLe(a, b) || StrLe(b, a)
  {
    if a != [] && b != [] && a[0] == b[0] {
      StrLeTotal(a[1..], b[1..]);
    }
  }

  lemma {:induction false} StrLeTrans(a: string, b: string, c: string)
    requires StrLe(a, b) && StrLe(b, c)
    ensures StrLe(a, c)
  {
    if a != [] && b != [] && c != [] && a[0] == b[0] && b[0] == c[0] {
      StrLeTrans(a[1..], b[1..], c[1..]);
    }
  }

  lemma {:induction false} StrLeAntisym(a: string, b: string)
    requires StrLe(a, b) && StrLe(b, a)
    ensures a == b
  {
    if a != [] && b != [] {
      StrLeAntisym(a[1..], b[1..]);
      assert a == [a[0]] + a[1..];
      assert b == [b[0]] + b[1..];
    }
  }
}
