/** `app/pipeline/build_discog.py`: the artist discography rebuilt from the
    recordings file, taking the release group of each recording either
    directly or from its releases, one row per credited artist, then
    keep-first deduplication and a sort with nulls last. */
module BuildDiscog {
  import opened Wrappers
  import opened PyText
  import opened PyJson
  import opened Seqs
  import opened Ordering

  // ---------------------------------------------------------------------
  // _yr

  /** `_yr(s)`: `int()` of the first four characters; `None` for a missing,
      empty or shorter string and for a prefix `int()` rejects. */
  function Yr(s: Option<string>): (r: Option<int>)
    ensures s.None? || |s.value| < 4 ==> r.None?
  {
    match s
    case None => None
    case Some(t) => if |t| < 4 then None else ParseInt(t[..4])
  }

  /** Four leading digits give their value, whatever follows. */
  lemma YrOfDigits(t: string)
    requires |t| >= 4 && AllDigits(t[..4])
    ensures Yr(Some(t)) == Some(DigitsValue(t[..4]))
  {
    ParseIntOfDigits(t[..4]);
  }

  /** `int()` accepts a sign, so a prefix such as "-199" gives -199. */
  lemma YrOfSigned(t: string)
    requires |t| >= 4 && t[0] == '-' && AllDigits(t[1..4])
    ensures Yr(Some(t)) == Some(-(DigitsValue(t[1..4]) as int))
  {
    var p := t[..4];
    assert !IsSpace(p[0]) && !IsSpace(p[3]);
    StripNoEdgeSpace(p);
    assert p[1..] == t[1..4];
    assert DigitGroups(p[1..]);
    DropUnderscoresOfDigits(p[1..]);
  }

  /** A prefix that starts with a character `int()` cannot read gives
      `None` (a date written "n/a", say). */
  lemma YrRejects(t: string)
    requires |t| >= 4 && !IsSpace(t[0]) && !IsSpace(t[3])
    requires !IsDigit(t[0]) && t[0] != '+' && t[0] != '-'
    ensures Yr(Some(t)).None?
  {
    var p := t[..4];
    StripNoEdgeSpace(p);
    assert !DigitGroups(p) by { assert !IsDigit(p[0]); }
  }

  // ---------------------------------------------------------------------
  // The release-group fields of one recording

  /** `rg_id`, `rg_title`, `rg_primary`, `rg_frd` as the loop leaves them. */
  datatype RgFields = RgFields(id: Json, title: Json, primary: Json, frd: Json)

  /** Step 1: `rec.get("release-group") or {}` and its four fields. */
  function Direct(rec: Json): RgFields {
    var rg := Or(Get(rec, "release-group"), JObj([]));
    RgFields(Get(rg, "id"), Get(rg, "title"), Get(rg, "primary-type"), Get(rg, "first-release-date"))
  }

  /** `rec.get("releases") or []`. */
  function Releases(rec: Json): seq<Json> {
    Items(Or(Get(rec, "releases"), JArr([])))
  }

  /** `rel.get("release-group") or {}`. */
  function RelRg(rel: Json): Json {
    Or(Get(rel, "release-group"), JObj([]))
  }

  function RelId(rel: Json): Json {
    Get(RelRg(rel), "id")
  }

  function RelTitle(rel: Json): Json {
    Get(RelRg(rel), "title")
  }

  function RelPrimary(rel: Json): Json {
    Get(RelRg(rel), "primary-type")
  }

  /** A release's candidate date: its release group's first-release-date,
      else its own date. */
  function RelDate(rel: Json): Json {
    Or(Get(RelRg(rel), "first-release-date"), Get(rel, "date"))
  }

  /** One pass of the releases loop. */
  function Step(f: RgFields, rel: Json): RgFields {
    RgFields(
      Or(RelId(rel), f.id),
      Or(Or(RelTitle(rel), f.title), Get(rel, "title")),
      Or(RelPrimary(rel), f.primary),
      Or(RelDate(rel), f.frd))
  }

  /** The releases loop from the fields `f`. */
  function Fold(f: RgFields, rels: seq<Json>): RgFields
    decreases |rels|
  {
    if |rels| == 0 then f else Step(Fold(f, rels[..|rels| - 1]), rels[|rels| - 1])
  }

  /** Step 2 runs only when step 1 found no id and there are releases. */
  function Fields(rec: Json): (r: RgFields)
    ensures Truthy(Direct(rec).id) ==> r == Direct(rec)
  {
    var d := Direct(rec);
    var rels := Releases(rec);
    if !Truthy(d.id) && |rels| > 0 then Fold(d, rels) else d
  }

  /** What a loop `v = cand or v` leaves after the candidates `cands`. */
  function Overlay(prev: Json, cands: seq<Json>): Json
    decreases |cands|
  {
    if |cands| == 0 then prev else Or(cands[|cands| - 1], Overlay(prev, cands[..|cands| - 1]))
  }

  /** The last truthy candidate wins. */
  lemma {:induction false} OverlayLast(prev: Json, cands: seq<Json>, i: int)
    requires 0 <= i < |cands| && Truthy(cands[i])
    requires forall j :: i < j < |cands| ==> !Truthy(cands[j])
    ensures Overlay(prev, cands) == cands[i]
    decreases |cands|
  {
    if i < |cands| - 1 {
      OverlayLast(prev, cands[..|cands| - 1], i);
    }
  }

  /** No truthy candidate: the value is unchanged. */
  lemma {:induction false} OverlayNone(prev: Json, cands: seq<Json>)
    requires forall j :: 0 <= j < |cands| ==> !Truthy(cands[j])
    ensures Overlay(prev, cands) == prev
    decreases |cands|
  {
    if |cands| > 0 {
      OverlayNone(prev, cands[..|cands| - 1]);
    }
  }

  /** The id, primary type and date follow the overwrite-if-truthy rule over
      the releases. */
  lemma {:induction false} FoldOverlays(f: RgFields, rels: seq<Json>)
    ensures Fold(f, rels).id == Overlay(f.id, Map(rels, RelId))
    ensures Fold(f, rels).primary == Overlay(f.primary, Map(rels, RelPrimary))
    ensures Fold(f, rels).frd == Overlay(f.frd, Map(rels, RelDate))
    decreases |rels|
  {
    if |rels| > 0 {
      var q := rels[..|rels| - 1];
      FoldOverlays(f, q);
      assert Map(rels, RelId)[..|rels| - 1] == Map(q, RelId);
      assert Map(rels, RelPrimary)[..|rels| - 1] == Map(q, RelPrimary);
      assert Map(rels, RelDate)[..|rels| - 1] == Map(q, RelDate);
    }
  }

  /** The release-group id is that of the last release naming one. */
  lemma FoldIdLast(f: RgFields, rels: seq<Json>, i: int)
    requires 0 <= i < |rels| && Truthy(RelId(rels[i]))
    requires forall j :: i < j < |rels| ==> !Truthy(RelId(rels[j]))
    ensures Fold(f, rels).id == RelId(rels[i])
  {
    FoldOverlays(f, rels);
    OverlayLast(f.id, Map(rels, RelId), i);
  }

  /** The date is the last release's candidate date that is truthy, and
      within one release the release group's date comes first. */
  lemma FoldDateLast(f: RgFields, rels: seq<Json>, i: int)
    requires 0 <= i < |rels| && Truthy(RelDate(rels[i]))
    requires forall j :: i < j < |rels| ==> !Truthy(RelDate(rels[j]))
    ensures Fold(f, rels).frd == RelDate(rels[i])
  {
    FoldOverlays(f, rels);
    OverlayLast(f.frd, Map(rels, RelDate), i);
  }

  /** With no release naming an id, type or date, those fields keep their
      step-1 values. */
  lemma FoldKeeps(f: RgFields, rels: seq<Json>)
    ensures (forall j :: 0 <= j < |rels| ==> !Truthy(RelId(rels[j]))) ==> Fold(f, rels).id == f.id
    ensures (forall j :: 0 <= j < |rels| ==> !Truthy(RelPrimary(rels[j]))) ==> Fold(f, rels).primary == f.primary
    ensures (forall j :: 0 <= j < |rels| ==> !Truthy(RelDate(rels[j]))) ==> Fold(f, rels).frd == f.frd
  {
    FoldOverlays(f, rels);
    if forall j :: 0 <= j < |rels| ==> !Truthy(RelId(rels[j])) {
      OverlayNone(f.id, Map(rels, RelId));
    }
    if forall j :: 0 <= j < |rels| ==> !Truthy(RelPrimary(rels[j])) {
      OverlayNone(f.primary, Map(rels, RelPrimary));
    }
    if forall j :: 0 <= j < |rels| ==> !Truthy(RelDate(rels[j])) {
      OverlayNone(f.frd, Map(rels, RelDate));
    }
  }

  /** The title of the last release group naming one wins. */
  lemma {:induction false} FoldTitleLast(f: RgFields, rels: seq<Json>, i: int)
    requires 0 <= i < |rels| && Truthy(RelTitle(rels[i]))
    requires forall j :: i < j < |rels| ==> !Truthy(RelTitle(rels[j]))
    ensures Fold(f, rels).title == RelTitle(rels[i])
    decreases |rels|
  {
    if i < |rels| - 1 {
      FoldTitleLast(f, rels[..|rels| - 1], i);
    }
  }

  /** Without release-group titles, a title already found is kept. */
  lemma {:induction false} FoldTitleKept(f: RgFields, rels: seq<Json>)
    requires Truthy(f.title)
    requires forall j :: 0 <= j < |rels| ==> !Truthy(RelTitle(rels[j]))
    ensures Fold(f, rels).title == f.title
    decreases |rels|
  {
    if |rels| > 0 {
      FoldTitleKept(f, rels[..|rels| - 1]);
    }
  }

  /** Without release-group titles and without a title from step 1, the
      first truthy release title is taken. */
  lemma {:induction false} FoldTitleFromRelease(f: RgFields, rels: seq<Json>, i: int)
    requires !Truthy(f.title) && 0 <= i < |rels|
    requires forall j :: 0 <= j < |rels| ==> !Truthy(RelTitle(rels[j]))
    requires Truthy(Get(rels[i], "title")) && forall j :: 0 <= j < i ==> !Truthy(Get(rels[j], "title"))
    ensures Fold(f, rels).title == Get(rels[i], "title")
    decreases |rels|
  {
    var q := rels[..|rels| - 1];
    if i < |rels| - 1 {
      FoldTitleFromRelease(f, q, i);
    } else {
      FoldTitleFalsy(f, q);
    }
  }

  /** Before any truthy title shows up, the title stays falsy. */
  lemma {:induction false} FoldTitleFalsy(f: RgFields, rels: seq<Json>)
    requires !Truthy(f.title)
    requires forall j :: 0 <= j < |rels| ==> !Truthy(RelTitle(rels[j])) && !Truthy(Get(rels[j], "title"))
    ensures !Truthy(Fold(f, rels).title)
    decreases |rels|
  {
    if |rels| > 0 {
      FoldTitleFalsy(f, rels[..|rels| - 1]);
    }
  }

  /** The releases are consulted only without a direct id; then the id is
      that of the last release naming a release group. */
  lemma FieldsIdFromReleases(rec: Json, i: int)
    requires !Truthy(Direct(rec).id) && 0 <= i < |Releases(rec)|
    requires Truthy(RelId(Releases(rec)[i]))
    requires forall j :: i < j < |Releases(rec)| ==> !Truthy(RelId(Releases(rec)[j]))
    ensures Fields(rec).id == RelId(Releases(rec)[i])
  {
    FoldIdLast(Direct(rec), Releases(rec), i);
  }

  /** Steps 1 and 2 of the loop body. */
  method FieldsOf(rec: Json) returns (f: RgFields)
    ensures f == Fields(rec)
  {
    f := Direct(rec);
    var releases := Releases(rec);
    if !Truthy(f.id) && |releases| > 0 {
      ghost var d := f;
      var k := 0;
      while k < |releases|
        invariant 0 <= k <= |releases|
        invariant f == Fold(d, releases[..k])
      {
        var rel := releases[k];
        assert releases[..k + 1][..k] == releases[..k];
        var rg2 := RelRg(rel);
        var rgId := Or(Get(rg2, "id"), f.id);
        var rgTitle := Or(Or(Get(rg2, "title"), f.title), Get(rel, "title"));
        var rgPrimary := Or(Get(rg2, "primary-type"), f.primary);
        var rgFrd := Or(Or(Get(rg2, "first-release-date"), Get(rel, "date")), f.frd);
        assert RgFields(rgId, rgTitle, rgPrimary, rgFrd) == Step(f, rel);
        assert Fold(d, releases[..k + 1]) == Step(Fold(d, releases[..k]), rel);
        f := RgFields(rgId, rgTitle, rgPrimary, rgFrd);
        k := k + 1;
      }
      assert releases[..k] == releases;
    }
  }

  // ---------------------------------------------------------------------
  // Rows

  /** A row of `artist_discography`. */
  datatype Row = Row(
    artistMbid: Json,
    artistName: Json,
    rgMbid: Json,
    rgTitle: Json,
    primaryType: Json,
    firstReleaseDate: Json,
    firstReleaseYear: Option<int>)

  /** `ac.get("artist") or {}`. */
  function PartArtist(part: Json): Json {
    Or(Get(part, "artist"), JObj([]))
  }

  /** The row of one artist-credit entry, when both ids are truthy. */
  function RowOf(part: Json, f: RgFields): seq<Row> {
    var art := PartArtist(part);
    var aid := Get(art, "id");
    if Truthy(aid) && Truthy(f.id) then
      [Row(aid, Get(art, "name"), f.id, f.title, f.primary, f.frd, Yr(AsStr(f.frd)))]
    else []
  }

  function PartRows(f: RgFields): Json -> seq<Row> {
    part => RowOf(part, f)
  }

  /** `rec.get("artist-credit") or []`. */
  function CreditParts(rec: Json): seq<Json> {
    Items(Or(Get(rec, "artist-credit"), JArr([])))
  }

  /** The rows of one recording: one per credit entry with a truthy artist
      id, provided the release-group id is truthy. */
  function RecordRows(rec: Json): seq<Row> {
    FlatMap(CreditParts(rec), PartRows(Fields(rec)))
  }

  /** Every row built, record after record. */
  function AllRows(recs: seq<Json>): seq<Row> {
    FlatMap(recs, RecordRows)
  }

  /** Every row has truthy artist and release-group ids, and the year of
      its date. */
  lemma RowsTruthy(recs: seq<Json>, x: Row)
    requires x in AllRows(recs)
    ensures Truthy(x.artistMbid) && Truthy(x.rgMbid) && x.firstReleaseYear == Yr(AsStr(x.firstReleaseDate))
  {
    FlatMapMember(recs, RecordRows);
    var rec :| rec in recs && x in RecordRows(rec);
    PartRowsTruthy(CreditParts(rec), Fields(rec), x);
  }

  lemma PartRowsTruthy(parts: seq<Json>, f: RgFields, x: Row)
    requires x in FlatMap(parts, PartRows(f))
    ensures Truthy(x.artistMbid) && Truthy(x.rgMbid) && x.firstReleaseYear == Yr(AsStr(x.firstReleaseDate))
  {
    FlatMapMember(parts, PartRows(f));
    var part :| part in parts && x in PartRows(f)(part);
  }

  /** The credit-entry loop for one recording. */
  method AppendCreditRows(rows0: seq<Row>, parts: seq<Json>, f: RgFields) returns (rows: seq<Row>)
    ensures rows == rows0 + FlatMap(parts, PartRows(f))
  {
    rows := rows0;
    var fry := Yr(AsStr(f.frd));
    var k := 0;
    while k < |parts|
      invariant 0 <= k <= |parts|
      invariant rows == rows0 + FlatMap(parts[..k], PartRows(f))
    {
      var row := CreditRow(parts[k], f, fry);
      FlatMapPrefix(parts, k, PartRows(f));
      AppendAssoc(rows0, FlatMap(parts[..k], PartRows(f)), row);
      rows := rows + row;
      k := k + 1;
    }
    assert parts[..k] == parts;
  }

  /** The body of the credit-entry loop: a row only when both ids are
      truthy. */
  method CreditRow(part: Json, f: RgFields, fry: Option<int>) returns (row: seq<Row>)
    requires fry == Yr(AsStr(f.frd))
    ensures row == PartRows(f)(part)
  {
    var art := PartArtist(part);
    var aid := Get(art, "id");
    var nm := Get(art, "name");
    row := [];
    if Truthy(aid) && Truthy(f.id) {
      row := [Row(aid, nm, f.id, f.title, f.primary, f.frd, fry)];
    }
  }

  // ---------------------------------------------------------------------
  // Deduplication and sorting

  /** The deduplication key `(artist_mbid, rg_mbid)`. */
  function Key(r: Row): (Json, Json) {
    (r.artistMbid, r.rgMbid)
  }

  /** Order on a string column with nulls last. */
  predicate StrBefore(a: Option<string>, b: Option<string>) {
    a.Some? && (b.None? || Less(a.value, b.value))
  }

  /** Order on the year column with nulls last. */
  predicate IntBefore(a: Option<int>, b: Option<int>) {
    a.Some? && (b.None? || a.value < b.value)
  }

  /** The sort key `(artist_name, first_release_year, rg_title)`. */
  function SortKey(r: Row): (Option<string>, Option<int>, Option<string>) {
    (AsStr(r.artistName), r.firstReleaseYear, AsStr(r.rgTitle))
  }

  predicate KeyBefore(a: (Option<string>, Option<int>, Option<string>), b: (Option<string>, Option<int>, Option<string>)) {
    StrBefore(a.0, b.0) || (a.0 == b.0 && (IntBefore(a.1, b.1) || (a.1 == b.1 && StrBefore(a.2, b.2))))
  }

  /** `x` may precede `y` in the sorted output. */
  predicate RowLe(x: Row, y: Row) {
    KeyBefore(SortKey(x), SortKey(y)) || SortKey(x) == SortKey(y)
  }

  lemma StrBeforeTrichotomy(a: Option<string>, b: Option<string>)
    ensures a == b || StrBefore(a, b) || StrBefore(b, a)
  {
    if a.Some? && b.Some? && a != b {
      LessTotal(a.value, b.value);
    }
  }

  lemma StrBeforeTransitive(a: Option<string>, b: Option<string>, c: Option<string>)
    requires StrBefore(a, b) && StrBefore(b, c)
    ensures StrBefore(a, c)
  {
    if c.Some? {
      LessTransitive(a.value, b.value, c.value);
    }
  }

  lemma KeyBeforeTrichotomy(a: (Option<string>, Option<int>, Option<string>), b: (Option<string>, Option<int>, Option<string>))
    ensures a == b || KeyBefore(a, b) || KeyBefore(b, a)
  {
    StrBeforeTrichotomy(a.0, b.0);
    StrBeforeTrichotomy(a.2, b.2);
  }

  lemma StrBeforeIrreflexive(a: Option<string>)
    ensures !StrBefore(a, a)
  {
    if a.Some? {
      LessIrreflexive(a.value);
    }
  }

  lemma KeyBeforeTransitive(a: (Option<string>, Option<int>, Option<string>), b: (Option<string>, Option<int>, Option<string>), c: (Option<string>, Option<int>, Option<string>))
    requires KeyBefore(a, b) && KeyBefore(b, c)
    ensures KeyBefore(a, c)
  {
    if StrBefore(a.0, b.0) && StrBefore(b.0, c.0) {
      StrBeforeTransitive(a.0, b.0, c.0);
    } else if a.0 == b.0 && b.0 == c.0 && a.1 == b.1 && b.1 == c.1 {
      StrBeforeTransitive(a.2, b.2, c.2);
    }
  }

  /** The comparison is a legal sort order. */
  lemma RowLeTotalPreorder()
    ensures TotalPreorder(RowLe)
  {
    forall x: Row, y: Row ensures RowLe(x, y) || RowLe(y, x) {
      KeyBeforeTrichotomy(SortKey(x), SortKey(y));
    }
    forall x: Row, y: Row, z: Row | RowLe(x, y) && RowLe(y, z) ensures RowLe(x, z) {
      if KeyBefore(SortKey(x), SortKey(y)) && KeyBefore(SortKey(y), SortKey(z)) {
        KeyBeforeTransitive(SortKey(x), SortKey(y), SortKey(z));
      }
    }
  }

  /** A known artist name sorts before a missing one. */
  lemma NullsLast(x: Row, y: Row)
    requires AsStr(x.artistName).Some? && AsStr(y.artistName).None?
    ensures RowLe(x, y) && !RowLe(y, x)
  {
  }

  /** A permutation of a sequence with unique keys has unique keys. */
  lemma UniqueKeysPermutation<T, K>(s: seq<T>, t: seq<T>, key: T -> K)
    requires UniqueKeys(s, key) && multiset(s) == multiset(t)
    ensures UniqueKeys(t, key)
  {
    forall i, j | 0 <= i < j < |t| ensures key(t[i]) != key(t[j]) {
      assert t[i] in multiset(s) && t[j] in multiset(s);
      var a :| 0 <= a < |s| && s[a] == t[i];
      var b :| 0 <= b < |s| && s[b] == t[j];
      if t[i] == t[j] {
        TwiceCounts(t, i, j);
        OnceCounts(s, key, a);
        assert false;
      }
      assert a != b;
    }
  }

  lemma TwiceCounts<T>(t: seq<T>, i: int, j: int)
    requires 0 <= i < j < |t| && t[i] == t[j]
    ensures multiset(t)[t[i]] >= 2
  {
    assert t == t[..j] + [t[j]] + t[j + 1..];
    assert t[i] in t[..j];
  }

  lemma OnceCounts<T, K>(s: seq<T>, key: T -> K, a: int)
    requires UniqueKeys(s, key) && 0 <= a < |s|
    ensures multiset(s)[s[a]] == 1
  {
    assert s == s[..a] + [s[a]] + s[a + 1..];
    forall x | x in s[..a] ensures x != s[a] {
      var k :| 0 <= k < a && s[..a][k] == x;
      assert x == s[k];
    }
    var tail := s[a + 1..];
    forall x | x in tail ensures x != s[a] {
      var k :| 0 <= k < |tail| && tail[k] == x;
      assert x == s[a + 1 + k];
    }
  }

  // ---------------------------------------------------------------------
  // run()

  /** Dedup on `(artist_mbid, rg_mbid)` keeping the first row, then the
      sort; an empty table is left as it is. */
  function Finish(rows: seq<Row>): seq<Row> {
    if |rows| == 0 then rows
    else
      RowLeTotalPreorder();
      SortBy(KeepFirstBy(rows, Key), RowLe)
  }

  /** The written table; `None` stands for a missing recordings file, for
      which `run` exits with an error. */
  function Output(recs: Option<seq<Json>>): (r: Result<seq<Row>, string>)
    ensures r.Failure? <==> recs.None?
  {
    match recs
    case None => Failure("missing data/raw/recordings.jsonl")
    case Some(rs) => Success(Finish(AllRows(rs)))
  }

  /** The output is sorted, has one row per key, and holds only built
      rows. */
  lemma FinishShape(rows: seq<Row>)
    ensures SortedBy(Finish(rows), RowLe) && UniqueKeys(Finish(rows), Key)
    ensures forall x :: x in Finish(rows) ==> x in rows
  {
    if |rows| > 0 {
      RowLeTotalPreorder();
      var kept := KeepFirstBy(rows, Key);
      var out := SortBy(kept, RowLe);
      UniqueKeysPermutation(kept, out, Key);
      forall x | x in out ensures x in rows {
        assert x in multiset(kept);
      }
    }
  }

  /** Every key built survives, carried by its first row. */
  lemma FinishKeepsFirst(rows: seq<Row>, i: int)
    requires 0 <= i < |rows|
    ensures FirstOfKey(rows, Key, i) ==> rows[i] in Finish(rows)
    ensures exists x :: x in Finish(rows) && Key(x) == Key(rows[i])
  {
    RowLeTotalPreorder();
    var kept := KeepFirstBy(rows, Key);
    var out := SortBy(kept, RowLe);
    KeepFirstByKeeps(rows, Key, i);
    var k :| 0 <= k < |kept| && Key(kept[k]) == Key(rows[i]);
    assert kept[k] in multiset(out);
    if FirstOfKey(rows, Key, i) {
      assert rows[i] in multiset(out);
    }
  }

  /** `run()`: the loop over recordings, then dedup and sort unless no row
      was built. */
  method Run(recs: Option<seq<Json>>) returns (r: Result<seq<Row>, string>)
    ensures r == Output(recs)
  {
    if recs.None? {
      return Failure("missing data/raw/recordings.jsonl");
    }
    var rs := recs.value;
    var rows: seq<Row> := [];
    var i := 0;
    while i < |rs|
      invariant 0 <= i <= |rs|
      invariant rows == AllRows(rs[..i])
    {
      assert rs[..i + 1] == rs[..i] + [rs[i]];
      FlatMapSnoc(rs[..i], rs[i], RecordRows);
      var f := FieldsOf(rs[i]);
      rows := AppendCreditRows(rows, CreditParts(rs[i]), f);
      i := i + 1;
    }
    assert rs[..i] == rs;
    if |rows| == 0 {
      r := Success(rows);
    } else {
      RowLeTotalPreorder();
      var kept := KeepFirstBy(rows, Key);
      r := Success(SortBy(kept, RowLe));
    }
  }
}
