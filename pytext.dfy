/** The parts of Python's `str` semantics the pipeline relies on: whitespace
    stripping, ASCII case mapping, substring search, `str.split(sep)`,
    `str.join`, `str.replace` on one character and the `int(str)` parser. */
module PyText {
  import opened Wrappers

  /** `str.isspace` for one character: the characters Python treats as
      whitespace in `str.strip()` and `int()`. */
  predicate IsSpace(c: char) {
    c == ' ' || c == '\t' || c == '\n' || c == '\r' || c == '\U{0B}' || c == '\U{0C}'
    || c == '\U{1C}' || c == '\U{1D}' || c == '\U{1E}' || c == '\U{1F}'
    || c == '\U{85}' || c == '\U{A0}' || c == '\U{1680}'
    || ('\U{2000}' <= c <= '\U{200A}') || c == '\U{2028}' || c == '\U{2029}'
    || c == '\U{202F}' || c == '\U{205F}' || c == '\U{3000}'
  }

  function LStrip(s: string): (r: string)
    ensures |r| <= |s| && r == s[|s| - |r|..]
    ensures r == [] || !IsSpace(r[0])
    decreases |s|
  {
    if |s| > 0 && IsSpace(s[0]) then LStrip(s[1..]) else s
  }

  function RStrip(s: string): (r: string)
    ensures |r| <= |s| && r == s[..|r|]
    ensures r == [] || !IsSpace(r[|r| - 1])
    decreases |s|
  {
    if |s| > 0 && IsSpace(s[|s| - 1]) then RStrip(s[..|s| - 1]) else s
  }

  /** `str.strip()` with no argument. */
  function Strip(s: string): (r: string)
    ensures r == [] || (!IsSpace(r[0]) && !IsSpace(r[|r| - 1]))
  {
    RStrip(LStrip(s))
  }

  predicate IsAllSpace(s: string) {
    forall i :: 0 <= i < |s| ==> IsSpace(s[i])
  }

  lemma {:induction false} LStripEmptyIffSpace(s: string)
    ensures LStrip(s) == [] <==> IsAllSpace(s)
    decreases |s|
  {
    if |s| > 0 && IsSpace(s[0]) {
      LStripEmptyIffSpace(s[1..]);
      assert IsAllSpace(s) <==> IsAllSpace(s[1..]) by {
        if IsAllSpace(s[1..]) {
          forall i | 0 <= i < |s| ensures IsSpace(s[i]) {
            if i > 0 { assert s[i] == s[1..][i - 1]; }
          }
        }
      }
    }
  }

  /** A string strips to "" exactly when every character is whitespace. */
  lemma StripEmptyIffSpace(s: string)
    ensures Strip(s) == [] <==> IsAllSpace(s)
  {
    LStripEmptyIffSpace(s);
    var l := LStrip(s);
    if l != [] {
      assert !IsSpace(l[0]);
      assert RStrip(l) != [] by {
        var r := RStrip(l);
        if r == [] {
          RStripKeepsPrefixNonSpace(l);
        }
      }
    }
  }

  lemma {:induction false} RStripKeepsPrefixNonSpace(s: string)
    requires s != [] && !IsSpace(s[0])
    ensures RStrip(s) != []
    decreases |s|
  {
    if |s| > 1 && IsSpace(s[|s| - 1]) {
      RStripKeepsPrefixNonSpace(s[..|s| - 1]);
    }
  }

  function LowerChar(c: char): char {
    if 'A' <= c <= 'Z' then (c as int + 32) as char else c
  }

  function UpperChar(c: char): char {
    if 'a' <= c <= 'z' then (c as int - 32) as char else c
  }

  /** `str.lower()`, on ASCII letters only. */
  function Lower(s: string): (r: string)
    ensures |r| == |s| && forall i :: 0 <= i < |s| ==> r[i] == LowerChar(s[i])
  {
    seq(|s|, i requires 0 <= i < |s| => LowerChar(s[i]))
  }

  /** `str.upper()`, on ASCII letters only. */
  function Upper(s: string): (r: string)
    ensures |r| == |s| && forall i :: 0 <= i < |s| ==> r[i] == UpperChar(s[i])
  {
    seq(|s|, i requires 0 <= i < |s| => UpperChar(s[i]))
  }

  /** `t` occurs in `s` starting at index `i`. */
  predicate OccursAt(s: string, t: string, i: int) {
    0 <= i && i + |t| <= |s| && s[i..i + |t|] == t
  }

  /** `t in s` for strings. */
  predicate Contains(s: string, t: string) {
    exists i | 0 <= i <= |s| - |t| :: OccursAt(s, t, i)
  }

  predicate StartsWith(s: string, t: string) {
    |t| <= |s| && s[..|t|] == t
  }

  /** A string without `d` has no slice containing `d`. */
  lemma SliceKeepsAbsence(s: string, d: string, a: int, b: int)
    requires 0 <= a <= b <= |s| && !Contains(s, d)
    ensures !Contains(s[a..b], d)
  {
    if Contains(s[a..b], d) {
      var i :| 0 <= i && i + |d| <= b - a && OccursAt(s[a..b], d, i);
      forall k | 0 <= k < |d| ensures s[a + i..a + i + |d|][k] == d[k] {
        assert d[k] == s[a..b][i..i + |d|][k] == s[a..b][i + k];
      }
      assert OccursAt(s, d, a + i);
    }
  }

  lemma StripKeepsAbsence(s: string, d: string)
    requires !Contains(s, d)
    ensures !Contains(Strip(s), d)
  {
    var l := LStrip(s);
    SliceKeepsAbsence(s, d, |s| - |l|, |s|);
    assert l == s[|s| - |l|..|s|];
    SliceKeepsAbsence(l, d, 0, |RStrip(l)|);
  }

  /** The first index at or after `k` where `t` occurs in `s`. */
  function FindFrom(s: string, t: string, k: nat): (r: Option<nat>)
    ensures r.Some? ==> k <= r.value && OccursAt(s, t, r.value)
    ensures r.Some? ==> forall j :: k <= j < r.value ==> !OccursAt(s, t, j)
    ensures r.None? ==> forall j :: k <= j ==> !OccursAt(s, t, j)
    decreases |s| - k
  {
    if k + |t| > |s| then None
    else if s[k..k + |t|] == t then Some(k)
    else FindFrom(s, t, k + 1)
  }

  /** No occurrence at or after `k`: the search from `k` fails. */
  lemma {:induction false} FindFromNone(s: string, t: string, k: nat)
    requires forall j :: k <= j ==> !OccursAt(s, t, j)
    ensures FindFrom(s, t, k).None?
    decreases |s| - k
  {
    if k + |t| <= |s| {
      assert !OccursAt(s, t, k);
      FindFromNone(s, t, k + 1);
    }
  }

  /** `sep.join(parts)`. */
  function Join(parts: seq<string>, sep: string): string
    decreases |parts|
  {
    if |parts| == 0 then ""
    else if |parts| == 1 then parts[0]
    else parts[0] + sep + Join(parts[1..], sep)
  }

  /** `s.split(sep)` for a non-empty separator: cut at every non-overlapping
      occurrence, scanning left to right. */
  function Split(s: string, sep: string): (r: seq<string>)
    requires sep != ""
    ensures |r| >= 1
    ensures forall p :: p in r ==> !Contains(p, sep)
    ensures Join(r, sep) == s
    decreases |s|
  {
    match FindFrom(s, sep, 0)
    case None => [s]
    case Some(i) =>
      var head := s[..i];
      var rest := Split(s[i + |sep|..], sep);
      assert !Contains(head, sep) by {
        if Contains(head, sep) {
          var j :| 0 <= j && j + |sep| <= i && OccursAt(head, sep, j);
          assert head[j..j + |sep|] == s[j..j + |sep|];
          assert OccursAt(s, sep, j);
        }
      }
      assert s == head + sep + s[i + |sep|..];
      [head] + rest
  }

  /** The search from `k` stops at the first occurrence. */
  lemma {:induction false} FindFromAt(s: string, t: string, k: nat, i: nat)
    requires k <= i && OccursAt(s, t, i)
    requires forall j :: k <= j < i ==> !OccursAt(s, t, j)
    ensures FindFrom(s, t, k) == Some(i)
    decreases i - k
  {
    if k < i {
      assert !OccursAt(s, t, k);
      FindFromAt(s, t, k + 1, i);
    }
  }

  /** Joining on a one-character separator that no part contains, then
      splitting on it, gives the parts back. */
  lemma {:induction false} SplitJoin(parts: seq<string>, c: char)
    requires |parts| >= 1
    requires forall p :: p in parts ==> !Contains(p, [c])
    ensures Split(Join(parts, [c]), [c]) == parts
    decreases |parts|
  {
    var sep := [c];
    var h := parts[0];
    if |parts| == 1 {
      SplitAbsent(h, sep);
    } else {
      var rest := Join(parts[1..], sep);
      var s := h + sep + rest;
      assert Join(parts, sep) == s;
      assert parts[0] in parts;
      forall j | 0 <= j < |h| ensures !OccursAt(s, sep, j) {
        if OccursAt(s, sep, j) {
          assert s[j..j + 1] == [c];
          assert h[j..j + 1] == s[j..j + 1];
          assert OccursAt(h, sep, j);
          assert Contains(h, sep);
        }
      }
      assert s[|h|..|h| + 1] == sep;
      FindFromAt(s, sep, 0, |h|);
      assert s[..|h|] == h;
      assert s[|h| + 1..] == rest;
      SplitJoin(parts[1..], c);
      assert parts == [h] + parts[1..];
    }
  }

  /** A string without the separator is one piece. */
  lemma SplitAbsent(s: string, sep: string)
    requires sep != "" && !Contains(s, sep)
    ensures Split(s, sep) == [s]
  {
    FindFromNone(s, sep, 0);
  }

  /** Splitting never creates an occurrence of a string the input lacks. */
  lemma {:induction false} SplitKeepsAbsence(s: string, sep: string, d: string)
    requires sep != "" && !Contains(s, d)
    ensures forall p :: p in Split(s, sep) ==> !Contains(p, d)
    decreases |s|
  {
    match FindFrom(s, sep, 0)
    case None =>
    case Some(i) =>
      SliceKeepsAbsence(s, d, 0, i);
      SliceKeepsAbsence(s, d, i + |sep|, |s|);
      assert s[i + |sep|..] == s[i + |sep|..|s|];
      SplitKeepsAbsence(s[i + |sep|..], sep, d);
  }

  /** `s.replace(a, b)` for single characters. */
  function ReplaceChar(s: string, a: char, b: char): (r: string)
    ensures |r| == |s|
    ensures forall i :: 0 <= i < |s| ==> r[i] == (if s[i] == a then b else s[i])
  {
    seq(|s|, i requires 0 <= i < |s| => if s[i] == a then b else s[i])
  }

  predicate IsDigit(c: char) {
    '0' <= c <= '9'
  }

  predicate AllDigits(s: string) {
    forall i :: 0 <= i < |s| ==> IsDigit(s[i])
  }

  /** The value of a string of decimal digits. */
  function DigitsValue(s: string): (n: nat)
    requires AllDigits(s)
    decreases |s|
  {
    if |s| == 0 then 0
    else DigitsValue(s[..|s| - 1]) * 10 + (s[|s| - 1] as int - '0' as int)
  }

  /** Digit groups separated by single underscores, as `int()` accepts
      them: no leading, trailing or doubled underscore. */
  predicate DigitGroups(s: string) {
    |s| > 0 && IsDigit(s[0]) && IsDigit(s[|s| - 1])
    && (forall i :: 0 <= i < |s| ==> IsDigit(s[i]) || s[i] == '_')
    && (forall i :: 0 <= i < |s| - 1 ==> !(s[i] == '_' && s[i + 1] == '_'))
  }

  function DropUnderscores(s: string): (r: string)
    ensures (forall i :: 0 <= i < |s| ==> IsDigit(s[i]) || s[i] == '_') ==> AllDigits(r)
    decreases |s|
  {
    if |s| == 0 then ""
    else if s[0] == '_' then DropUnderscores(s[1..])
    else [s[0]] + DropUnderscores(s[1..])
  }

  /** Python's `int(s)` for a `str` argument in base 10: surrounding
      whitespace ignored, an optional sign, then digit groups. `None` stands
      for the `ValueError` it raises otherwise. */
  function ParseInt(s: string): (r: Option<int>)
    ensures r.Some? ==> Strip(s) != []
  {
    var t := Strip(s);
    if |t| > 0 && (t[0] == '+' || t[0] == '-') then
      var body := t[1..];
      if DigitGroups(body) then
        var v: int := DigitsValue(DropUnderscores(body));
        Some(if t[0] == '-' then -v else v)
      else None
    else if DigitGroups(t) then Some(DigitsValue(DropUnderscores(t)))
    else None
  }

  /** A string with no whitespace at either end strips to itself. */
  lemma StripNoEdgeSpace(s: string)
    requires s != [] && !IsSpace(s[0]) && !IsSpace(s[|s| - 1])
    ensures Strip(s) == s
  {
    assert LStrip(s) == s;
    assert RStrip(s) == s;
  }

  /** Stripping removes whitespace padding around a string without edge
      whitespace. */
  lemma StripPadding(s: string, pad: string)
    requires s != [] && !IsSpace(s[0]) && !IsSpace(s[|s| - 1]) && IsAllSpace(pad)
    ensures Strip(pad + s + pad) == s
  {
    LStripPadding(pad, s + pad);
    assert pad + s + pad == pad + (s + pad);
    RStripPadding(s, pad);
  }

  lemma {:induction false} LStripPadding(pad: string, t: string)
    requires IsAllSpace(pad) && (t == [] || !IsSpace(t[0]))
    ensures LStrip(pad + t) == t
    decreases |pad|
  {
    if |pad| > 0 {
      assert (pad + t)[1..] == pad[1..] + t;
      LStripPadding(pad[1..], t);
    } else {
      assert pad + t == t;
    }
  }

  lemma {:induction false} RStripPadding(s: string, pad: string)
    requires s != [] && !IsSpace(s[|s| - 1]) && IsAllSpace(pad)
    ensures RStrip(s + pad) == s
    decreases |pad|
  {
    if |pad| > 0 {
      assert (s + pad)[..|s + pad| - 1] == s + pad[..|pad| - 1];
      RStripPadding(s, pad[..|pad| - 1]);
    } else {
      assert s + pad == s;
    }
  }

  /** Four ASCII digits parse to their decimal value. */
  lemma ParseIntOfDigits(s: string)
    requires |s| > 0 && AllDigits(s)
    ensures ParseInt(s) == Some(DigitsValue(s))
  {
    assert !IsSpace(s[0]) && !IsSpace(s[|s| - 1]);
    assert LStrip(s) == s;
    assert RStrip(s) == s;
    assert Strip(s) == s;
    assert s[0] != '+' && s[0] != '-';
    assert DigitGroups(s);
    DropUnderscoresOfDigits(s);
  }

  /** Whitespace around the digits is ignored. */
  lemma ParseIntPadded(s: string, pad: string)
    requires |s| > 0 && AllDigits(s) && IsAllSpace(pad)
    ensures ParseInt(pad + s + pad) == Some(DigitsValue(s))
  {
    assert !IsSpace(s[0]) && !IsSpace(s[|s| - 1]);
    StripPadding(s, pad);
    assert s[0] != '+' && s[0] != '-';
    assert DigitGroups(s);
    DropUnderscoresOfDigits(s);
  }

  lemma {:induction false} DropUnderscoresOfDigits(s: string)
    requires AllDigits(s)
    ensures DropUnderscores(s) == s
    decreases |s|
  {
    if |s| > 0 {
      DropUnderscoresOfDigits(s[1..]);
    }
  }
}
