/** Field normalisers of the clean layer: `parse_date`, `to_ms`, `is_uuid`
    and `norm_country`. */
module CleanUtils {
  import opened Wrappers
  import opened PyText
  import opened PyJson

  // ---------------------------------------------------------------------
  // Calendar

  datatype Date = Date(year: int, month: int, day: int)

  predicate IsLeap(y: int) {
    (y % 4 == 0 && y % 100 != 0) || y % 400 == 0
  }

  function DaysIn(y: int, m: int): int {
    if m == 2 then (if IsLeap(y) then 29 else 28)
    else if m == 4 || m == 6 || m == 9 || m == 11 then 30
    else 31
  }

  /** A date `datetime` accepts: years 1 through 9999, a real month and a day
      that exists in that month. */
  predicate ValidDate(d: Date) {
    1 <= d.year <= 9999 && 1 <= d.month <= 12 && 1 <= d.day <= DaysIn(d.year, d.month)
  }

  // ---------------------------------------------------------------------
  // strptime for the three formats the pipeline tries

  /** The formats `parse_date` tries, in order: `%Y-%m-%d`, `%Y-%m`, `%Y`. */
  datatype Format = YMD | YM | Y

  function Digit(c: char): int {
    c as int - '0' as int
  }

  /** `%Y`: exactly four digits at `k`; yields the value and the next index. */
  function MatchYear(s: string, k: nat): (r: Option<(int, nat)>)
    ensures r.Some? ==> r.value.1 == k + 4 <= |s| && 0 <= r.value.0 <= 9999
  {
    if k + 4 <= |s| && IsDigit(s[k]) && IsDigit(s[k + 1]) && IsDigit(s[k + 2]) && IsDigit(s[k + 3]) then
      Some((1000 * Digit(s[k]) + 100 * Digit(s[k + 1]) + 10 * Digit(s[k + 2]) + Digit(s[k + 3]), k + 4))
    else None
  }

  /** `%m`: the alternatives `1[0-2]`, `0[1-9]`, `[1-9]`, the first that
      matches taken. */
  function MatchMonth(s: string, k: nat): (r: Option<(int, nat)>)
    ensures r.Some? ==> k < r.value.1 <= |s| && 1 <= r.value.0 <= 12
  {
    if k + 1 < |s| && s[k] == '1' && '0' <= s[k + 1] <= '2' then Some((10 + Digit(s[k + 1]), k + 2))
    else if k + 1 < |s| && s[k] == '0' && '1' <= s[k + 1] <= '9' then Some((Digit(s[k + 1]), k + 2))
    else if k < |s| && '1' <= s[k] <= '9' then Some((Digit(s[k]), k + 1))
    else None
  }

  /** `%d`: the alternatives `3[01]`, `[12]\d`, `0[1-9]`, `[1-9]` and
      ` [1-9]`, the first that matches taken. */
  function MatchDay(s: string, k: nat): (r: Option<(int, nat)>)
    ensures r.Some? ==> k < r.value.1 <= |s| && 1 <= r.value.0 <= 31
  {
    if k + 1 < |s| && s[k] == '3' && '0' <= s[k + 1] <= '1' then Some((30 + Digit(s[k + 1]), k + 2))
    else if k + 1 < |s| && '1' <= s[k] <= '2' && IsDigit(s[k + 1]) then Some((10 * Digit(s[k]) + Digit(s[k + 1]), k + 2))
    else if k + 1 < |s| && s[k] == '0' && '1' <= s[k + 1] <= '9' then Some((Digit(s[k + 1]), k + 2))
    else if k < |s| && '1' <= s[k] <= '9' then Some((Digit(s[k]), k + 1))
    else if k + 1 < |s| && s[k] == ' ' && '1' <= s[k + 1] <= '9' then Some((Digit(s[k + 1]), k + 2))
    else None
  }

  function MatchDash(s: string, k: nat): (r: Option<nat>)
    ensures r.Some? ==> r.value == k + 1 <= |s| && s[k] == '-'
  {
    if k < |s| && s[k] == '-' then Some(k + 1) else None
  }

  /** The prefix match of a format's pattern: the fields read and where the
      match ends. Missing month and day default to 1. */
  function MatchFormat(s: string, f: Format): (r: Option<(Date, nat)>)
    ensures r.Some? ==> r.value.1 <= |s|
    ensures r.Some? && f == Y ==> r.value.0.month == 1 && r.value.0.day == 1
    ensures r.Some? && f == YM ==> r.value.0.day == 1
  {
    match MatchYear(s, 0)
    case None => None
    case Some((y, k1)) =>
      if f == Y then Some((Date(y, 1, 1), k1))
      else
        match MatchDash(s, k1)
        case None => None
        case Some(k2) =>
          match MatchMonth(s, k2)
          case None => None
          case Some((m, k3)) =>
            if f == YM then Some((Date(y, m, 1), k3))
            else
              match MatchDash(s, k3)
              case None => None
              case Some(k4) =>
                match MatchDay(s, k4)
                case None => None
                case Some((d, k5)) => Some((Date(y, m, d), k5))
  }

  /** `datetime.strptime(s, f)`: the pattern must match, no unconverted data
      may remain, and the date must exist. `None` stands for `ValueError`. */
  function Strptime(s: string, f: Format): (r: Option<Date>)
    ensures r.Some? ==> ValidDate(r.value)
    ensures r.Some? && f == Y ==> r.value.month == 1 && r.value.day == 1
    ensures r.Some? && f == YM ==> r.value.day == 1
  {
    match MatchFormat(s, f)
    case None => None
    case Some((d, k)) => if k == |s| && ValidDate(d) then Some(d) else None
  }

  // ---------------------------------------------------------------------
  // strftime("%Y-%m-%d")

  function DigitChar(n: int): char
    requires 0 <= n <= 9
  {
    ('0' as int + n) as char
  }

  /** A non-negative integer in decimal without leading zeros. */
  function NatStr(n: nat): (r: string)
    ensures |r| >= 1 && AllDigits(r)
    decreases n
  {
    if n < 10 then [DigitChar(n)] else NatStr(n / 10) + [DigitChar(n % 10)]
  }

  /** A number below 100 as two digits, zero padded. */
  function Pad2(n: nat): (r: string)
    requires n < 100
    ensures |r| == 2 && AllDigits(r)
  {
    [DigitChar(n / 10), DigitChar(n % 10)]
  }

  /** `strftime("%Y-%m-%d")`. The C library renders `%Y` without padding, so
      a year below 1000 has fewer than four digits. */
  function FormatDate(d: Date): string
    requires d.year >= 0 && 0 <= d.month < 100 && 0 <= d.day < 100
  {
    NatStr(d.year) + "-" + Pad2(d.month) + "-" + Pad2(d.day)
  }

  // ---------------------------------------------------------------------
  // parse_date

  /** The first format in order `YMD`, `YM`, `Y` that `s` parses under. */
  function ParseAny(s: string): (r: Option<Date>)
    ensures r.Some? ==> ValidDate(r.value)
  {
    match Strptime(s, YMD)
    case Some(d) => Some(d)
    case None =>
      match Strptime(s, YM)
      case Some(d) => Some(d)
      case None => Strptime(s, Y)
  }

  /** `parse_date(x)`: `None` for a missing, empty or blank value and for a
      string no format accepts; otherwise the parsed date as `YYYY-MM-DD`. */
  function ParseDate(x: Option<string>): (r: Option<string>)
    ensures x.None? || x.value == "" || Strip(x.value) == "" ==> r.None?
    ensures r.Some? ==> x.Some? && ParseAny(x.value).Some?
  {
    if x.None? || x.value == "" || Strip(x.value) == "" then None
    else
      match ParseAny(x.value)
      case None => None
      case Some(d) => Some(FormatDate(d))
  }

  /** When `x` parses, the output carries exactly the fields read, with a
      missing month or day filled in as 01. */
  lemma ParseDateFields(s: string)
    requires s != "" && Strip(s) != ""
    ensures ParseAny(s).Some? ==> ParseDate(Some(s)) == Some(FormatDate(ParseAny(s).value))
    ensures ParseAny(s).None? ==> ParseDate(Some(s)).None?
    ensures Strptime(s, YMD).None? && Strptime(s, YM).Some? ==>
      ParseDate(Some(s)) == Some(FormatDate(Date(Strptime(s, YM).value.year, Strptime(s, YM).value.month, 1)))
    ensures Strptime(s, YMD).None? && Strptime(s, YM).None? && Strptime(s, Y).Some? ==>
      ParseDate(Some(s)) == Some(FormatDate(Date(Strptime(s, Y).value.year, 1, 1)))
  {
  }

  lemma NatStrFourDigits(y: int)
    requires 1000 <= y <= 9999
    ensures NatStr(y) == [DigitChar(y / 1000), DigitChar(y / 100 % 10), DigitChar(y / 10 % 10), DigitChar(y % 10)]
  {
    assert NatStr(y / 1000) == [DigitChar(y / 1000)];
    assert (y / 10) / 10 == y / 100 && (y / 100) / 10 == y / 1000;
    assert NatStr(y / 100) == [DigitChar(y / 1000), DigitChar(y / 100 % 10)];
    assert NatStr(y / 10) == [DigitChar(y / 1000), DigitChar(y / 100 % 10), DigitChar(y / 10 % 10)];
  }

  /** The rendering of a valid date with a four-digit year is read back by
      `%Y-%m-%d` as the same date. */
  lemma StrptimeOfFormat(d: Date)
    requires ValidDate(d) && d.year >= 1000
    ensures Strptime(FormatDate(d), YMD) == Some(d)
  {
    var s := FormatDate(d);
    NatStrFourDigits(d.year);
    assert |s| == 10;
    assert s[4] == '-' && s[7] == '-';
    assert s[5] == DigitChar(d.month / 10) && s[6] == DigitChar(d.month % 10);
    assert s[8] == DigitChar(d.day / 10) && s[9] == DigitChar(d.day % 10);
    assert MatchYear(s, 0) == Some((d.year, 4));
    assert MatchMonth(s, 5) == Some((d.month, 7));
    assert MatchDay(s, 8) == Some((d.day, 10));
  }

  /** The rendering of a valid date with a four-digit year parses to
      itself. */
  lemma ParseDateOfFormat(d: Date)
    requires ValidDate(d) && d.year >= 1000
    ensures ParseDate(Some(FormatDate(d))) == Some(FormatDate(d))
  {
    var s := FormatDate(d);
    StrptimeOfFormat(d);
    assert s[0] != ' ';
    assert Strip(s) != "" by { StripEmptyIffSpace(s); }
  }

  /** `parse_date` is idempotent on its own output for years 1000-9999. */
  lemma ParseDateIdempotent(x: Option<string>)
    requires ParseDate(x).Some?
    requires ParseAny(x.value).value.year >= 1000
    ensures ParseDate(ParseDate(x)) == ParseDate(x)
  {
    ParseDateOfFormat(ParseAny(x.value).value);
  }

  /** Four digits not starting with 0 read as the year they spell, and
      render back to the same four characters. */
  lemma YearDigits(s: string)
    requires |s| >= 4 && IsDigit(s[0]) && IsDigit(s[1]) && IsDigit(s[2]) && IsDigit(s[3]) && s[0] != '0'
    ensures MatchYear(s, 0).Some?
    ensures 1000 <= MatchYear(s, 0).value.0 && NatStr(MatchYear(s, 0).value.0) == s[..4]
  {
    var a, b, c, d := Digit(s[0]), Digit(s[1]), Digit(s[2]), Digit(s[3]);
    var v := 1000 * a + 100 * b + 10 * c + d;
    assert MatchYear(s, 0) == Some((v, 4));
    assert v / 1000 == a;
    assert v / 100 == 10 * a + b;
    assert (10 * a + b) % 10 == b;
    assert v / 10 == 100 * a + 10 * b + c;
    assert (100 * a + 10 * b + c) % 10 == c;
    assert v % 10 == d;
    NatStrFourDigits(v);
    assert DigitChar(a) == s[0] && DigitChar(b) == s[1] && DigitChar(c) == s[2] && DigitChar(d) == s[3];
  }

  /** A bare year (1000-9999) becomes the first of January of that year. */
  lemma ParseDateYearOnly(s: string)
    requires |s| == 4 && AllDigits(s) && s[0] != '0'
    ensures ParseDate(Some(s)) == Some(s + "-01-01")
  {
    StripNoEdgeSpace(s);
    YearDigits(s);
    var v := MatchYear(s, 0).value.0;
    assert Strptime(s, YMD).None? && Strptime(s, YM).None?;
    assert Strptime(s, Y) == Some(Date(v, 1, 1));
    ParseDateFields(s);
    assert s[..4] == s;
    assert Pad2(1) == "01";
    assert FormatDate(Date(v, 1, 1)) == s + "-" + "01" + "-" + "01";
    assert s + "-" + "01" + "-" + "01" == s + "-01-01";
  }

  /** A year and month, with the month written with or without its leading
      zero, become the first day of that month. */
  lemma ParseDateYearMonth(y: string, m: int)
    requires |y| == 4 && AllDigits(y) && y[0] != '0' && 1 <= m <= 12
    ensures ParseDate(Some(y + "-" + Pad2(m))) == Some(y + "-" + Pad2(m) + "-01")
  {
    var s := y + "-" + Pad2(m);
    StripNoEdgeSpace(s);
    YearDigits(s);
    assert s[..4] == y;
    var v := MatchYear(s, 0).value.0;
    assert MatchMonth(s, 5) == Some((m, 7));
    assert Strptime(s, YMD).None?;
    assert Strptime(s, YM) == Some(Date(v, m, 1));
    ParseDateFields(s);
    assert Pad2(1) == "01";
    assert FormatDate(Date(v, m, 1)) == y + "-" + Pad2(m) + "-" + "01";
    assert y + "-" + Pad2(m) + "-" + "01" == y + "-" + Pad2(m) + "-01";
  }

  /** A month written without its leading zero gives the same output. */
  lemma ParseDateYearMonthUnpadded(y: string, m: int)
    requires |y| == 4 && AllDigits(y) && y[0] != '0' && 1 <= m <= 9
    ensures ParseDate(Some(y + "-" + [DigitChar(m)])) == Some(y + "-" + Pad2(m) + "-01")
  {
    var t := y + "-" + [DigitChar(m)];
    StripNoEdgeSpace(t);
    YearDigits(t);
    assert t[..4] == y;
    var v := MatchYear(t, 0).value.0;
    assert MatchMonth(t, 5) == Some((m, 6));
    assert Strptime(t, YMD).None?;
    assert Strptime(t, YM) == Some(Date(v, m, 1));
    ParseDateFields(t);
    assert Pad2(1) == "01";
    assert FormatDate(Date(v, m, 1)) == y + "-" + Pad2(m) + "-" + "01";
    assert y + "-" + Pad2(m) + "-" + "01" == y + "-" + Pad2(m) + "-01";
  }

  /** A day the month does not have (such as 2021-02-30) is not an error but
      `None`: the later formats leave unconverted text. */
  lemma ParseDateNonexistentDay(d: Date)
    requires 1000 <= d.year <= 9999 && 1 <= d.month <= 12 && DaysIn(d.year, d.month) < d.day <= 31
    ensures ParseDate(Some(FormatDate(d))) == None
  {
    var s := FormatDate(d);
    NatStrFourDigits(d.year);
    assert |s| == 10 && s[4] == '-' && s[7] == '-';
    assert s[5] == DigitChar(d.month / 10) && s[6] == DigitChar(d.month % 10);
    assert s[8] == DigitChar(d.day / 10) && s[9] == DigitChar(d.day % 10);
    assert MatchYear(s, 0) == Some((d.year, 4));
    assert MatchMonth(s, 5) == Some((d.month, 7));
    assert MatchDay(s, 8) == Some((d.day, 10));
    assert Strptime(s, YMD).None? && Strptime(s, YM).None? && Strptime(s, Y).None?;
  }

  lemma NatStrShort(n: nat)
    requires n < 1000
    ensures |NatStr(n)| <= 3
  {
    if n >= 10 {
      assert |NatStr(n / 10)| <= 2 by {
        if n / 10 >= 10 { assert NatStr(n / 10 / 10) == [DigitChar(n / 10 / 10)]; }
      }
    }
  }

  /** A year written 0001-0999 parses, but its output has fewer than four
      year digits and does not parse again; year 0000 does not parse. */
  lemma ParseDateShortYear(s: string)
    requires |s| == 4 && AllDigits(s) && s[0] == '0'
    ensures MatchYear(s, 0).value.0 == 0 ==> ParseDate(Some(s)) == None
    ensures MatchYear(s, 0).value.0 >= 1 ==> ParseDate(Some(s)).Some? && ParseDate(ParseDate(Some(s))) == None
  {
    StripNoEdgeSpace(s);
    var v := MatchYear(s, 0).value.0;
    assert v < 1000;
    assert Strptime(s, YMD).None? && Strptime(s, YM).None?;
    ParseDateFields(s);
    if v >= 1 {
      var t := FormatDate(Date(v, 1, 1));
      assert ParseDate(Some(s)) == Some(t);
      NatStrShort(v);
      var n := |NatStr(v)|;
      assert t[n] == '-';
      assert !IsDigit(t[n]);
      assert MatchYear(t, 0).None?;
      assert ParseAny(t).None?;
    }
  }

  // ---------------------------------------------------------------------
  // to_ms

  /** `int(r)` for a float: truncation toward zero. */
  function TruncReal(r: real): int {
    if r >= 0.0 then r.Floor else -((-r).Floor)
  }

  /** `to_ms(x)`: `None` for null, "", negative values and values `int()`
      rejects; the integer otherwise. */
  function ToMs(x: Json): (r: Option<int>)
    ensures r.Some? ==> r.value >= 0
    ensures x == JNull || x == JStr("") ==> r.None?
    ensures x.JInt? ==> (r.Some? <==> x.i >= 0) && (r.Some? ==> r.value == x.i)
  {
    var v: Option<int> :=
      match x
      case JNull => None
      case JBool(b) => Some(if b then 1 else 0)
      case JInt(i) => Some(i)
      case JFloat(f) => Some(TruncReal(f))
      case JStr(s) => if s == "" then None else ParseInt(s)
      case JArr(_) => None
      case JObj(_) => None;
    if v.Some? && v.value >= 0 then v else None
  }

  /** Normalising an already normalised duration changes nothing. */
  lemma ToMsIdempotent(x: Json)
    requires ToMs(x).Some?
    ensures ToMs(JInt(ToMs(x).value)) == ToMs(x)
  {
  }

  /** A non-negative decimal string, optionally padded by whitespace,
      gives its value. */
  lemma ToMsOfDigits(s: string, pad: string)
    requires |s| > 0 && AllDigits(s) && IsAllSpace(pad)
    ensures ToMs(JStr(pad + s + pad)) == Some(DigitsValue(s))
  {
    var t := pad + s + pad;
    ParseIntPadded(s, pad);
    assert t[|pad|] == s[0];
    assert t != "";
    ToMsOfString(t);
  }

  /** For a non-empty string, `to_ms` is `int()` restricted to values at or
      above zero. */
  lemma ToMsOfString(t: string)
    requires t != ""
    ensures ToMs(JStr(t)) == if ParseInt(t).Some? && ParseInt(t).value >= 0 then ParseInt(t) else None
  {
  }

  /** A negative decimal string is rejected. */
  lemma ToMsNegative(s: string)
    requires |s| > 0 && AllDigits(s) && DigitsValue(s) > 0
    ensures ToMs(JStr("-" + s)) == None
  {
    var t := "-" + s;
    StripNoEdgeSpace(t);
    assert t[1..] == s;
    assert DigitGroups(s);
    DropUnderscoresOfDigits(s);
  }

  /** Floats truncate toward zero, so a negative fraction reads as 0. */
  lemma ToMsFloat(r: real)
    requires -1.0 < r
    ensures ToMs(JFloat(r)) == Some(TruncReal(r))
    ensures r < 1.0 ==> ToMs(JFloat(r)) == Some(0)
  {
  }

  // ---------------------------------------------------------------------
  // is_uuid

  predicate IsIdChar(c: char) {
    IsDigit(c) || ('a' <= c <= 'f') || ('A' <= c <= 'F') || c == '-'
  }

  predicate IdChars(s: string, n: nat)
    requires n <= |s|
  {
    forall i :: 0 <= i < n ==> IsIdChar(s[i])
  }

  /** `re.match(r"^[0-9a-fA-F-]{36}$", s)`: 36 such characters, where `$`
      also accepts one final newline after them. */
  predicate MatchesUuidRx(s: string) {
    (|s| == 36 && IdChars(s, 36)) || (|s| == 37 && IdChars(s, 36) && s[36] == '\n')
  }

  /** `is_uuid(x)`: a truthy value whose string form has the UUID shape. */
  predicate IsUuid(x: Option<string>) {
    x.Some? && x.value != "" && MatchesUuidRx(x.value)
  }

  predicate IsHex(c: char) {
    IsDigit(c) || ('a' <= c <= 'f') || ('A' <= c <= 'F')
  }

  /** The 8-4-4-4-12 layout of section 3 of RFC 4122. */
  predicate CanonicalUuid(s: string) {
    |s| == 36
    && (forall i :: 0 <= i < 36 ==> (i == 8 || i == 13 || i == 18 || i == 23) == (s[i] == '-'))
    && (forall i :: 0 <= i < 36 && i != 8 && i != 13 && i != 18 && i != 23 ==> IsHex(s[i]))
  }

  /** Every canonical UUID passes; the check is weaker than the layout, as
      36 dashes and a trailing newline also pass. */
  lemma IsUuidAcceptsCanonical(s: string)
    requires CanonicalUuid(s)
    ensures IsUuid(Some(s))
  {
    forall i | 0 <= i < 36 ensures IsIdChar(s[i]) {
      if i != 8 && i != 13 && i != 18 && i != 23 { assert IsHex(s[i]); }
    }
  }

  lemma IsUuidLooseness()
    ensures var dashes := seq(36, _ => '-'); IsUuid(Some(dashes)) && !CanonicalUuid(dashes)
    ensures !IsUuid(None) && !IsUuid(Some(""))
  {
    var dashes := seq(36, _ => '-');
    assert dashes[0] == '-';
  }

  /** `$` lets a canonical UUID followed by one newline through. */
  lemma IsUuidTrailingNewline(s: string)
    requires CanonicalUuid(s)
    ensures IsUuid(Some(s + "\n"))
  {
    IsUuidAcceptsCanonical(s);
    var t := s + "\n";
    assert forall i :: 0 <= i < 36 ==> t[i] == s[i];
  }

  // ---------------------------------------------------------------------
  // norm_country

  /** `norm_country(x)`: upper-cased when truthy, `None` otherwise. */
  function NormCountry(x: Option<string>): (r: Option<string>)
    ensures r.Some? <==> x.Some? && x.value != ""
    ensures r.Some? ==> |r.value| == |x.value|
    ensures r.Some? ==> forall i :: 0 <= i < |r.value| ==> !('a' <= r.value[i] <= 'z')
  {
    if x.Some? && x.value != "" then Some(Upper(x.value)) else None
  }

  lemma NormCountryIdempotent(x: Option<string>)
    ensures NormCountry(NormCountry(x)) == NormCountry(x)
  {
    if x.Some? && x.value != "" {
      var u := Upper(x.value);
      assert Upper(u) == u;
    }
  }
}
