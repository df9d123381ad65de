/** The clean layer of `app/pipeline/clean.py`: rows extracted from the
    nested MusicBrainz payloads, an id-shape check whose failures go to a
    reject log, and tables written deduplicated on their primary key. */
module Clean {
  import opened Wrappers
  import opened PyJson
  import opened Seqs
  import CleanUtils

  // ---------------------------------------------------------------------
  // Cell normalisers applied to decoded values

  /** `str(i)` for an integer. */
  function IntStr(i: int): string {
    if i >= 0 then CleanUtils.NatStr(i) else "-" + CleanUtils.NatStr(-i)
  }

  /** `is_uuid(x)` for a decoded cell. Only strings and integers can give 36
      characters of `[0-9a-fA-F-]`: `str()` of `None`, a bool, a float, a
      list or a dict is too short or holds another character. */
  predicate IdOk(x: Json) {
    match x
    case JStr(s) => CleanUtils.IsUuid(Some(s))
    case JInt(i) => CleanUtils.IsUuid(Some(IntStr(i)))
    case _ => false
  }

  /** `parse_date(x)` for a decoded cell. */
  function DateOf(x: Json): Option<string> {
    CleanUtils.ParseDate(AsStr(x))
  }

  /** `norm_country(x)` for a decoded cell. */
  function CountryOf(x: Json): Option<string> {
    CleanUtils.NormCountry(AsStr(x))
  }

  /** `d.get(k) or []` and `d[k]`, iterated. */
  function Entries(d: Json, k: string): seq<Json> {
    Items(Get(d, k))
  }

  // ---------------------------------------------------------------------
  // Primary-key tables and the reject log

  /** The table written for rows checked by `ok`: `_write(df[ok], name,
      pk=key)` keeps the first passing row of every key. */
  function CleanTable<T(==,!new), K(==)>(rows: seq<T>, ok: T -> bool, key: T -> K): (r: seq<T>)
    ensures forall x :: x in r ==> x in rows && ok(x)
    ensures UniqueKeys(r, key)
    ensures forall x :: x in rows && ok(x) ==> HasKey(r, key, key(x))
    ensures forall i :: 0 <= i < |Filter(rows, ok)| && FirstOfKey(Filter(rows, ok), key, i) ==> Filter(rows, ok)[i] in r
  {
    var kept := Filter(rows, ok);
    assert forall i :: 0 <= i < |kept| ==> (HasKey(KeepFirstBy(kept, key), key, key(kept[i])) && (FirstOfKey(kept, key, i) ==> kept[i] in KeepFirstBy(kept, key))) by {
      forall i | 0 <= i < |kept| ensures HasKey(KeepFirstBy(kept, key), key, key(kept[i])) && (FirstOfKey(kept, key, i) ==> kept[i] in KeepFirstBy(kept, key)) {
        KeepFirstByKeeps(kept, key, i);
      }
    }
    assert forall x :: x in rows && ok(x) ==> HasKey(KeepFirstBy(kept, key), key, key(x)) by {
      forall x | x in rows && ok(x) ensures HasKey(KeepFirstBy(kept, key), key, key(x)) {
        var i :| 0 <= i < |kept| && kept[i] == x;
      }
    }
    KeepFirstBy(kept, key)
  }

  /** A row condition that reads only the row's key. */
  function OnKey<T, K>(key: T -> K, okKey: K -> bool): T -> bool {
    x => okKey(key(x))
  }

  /** When the condition reads only the key, deduplicating before the
      condition (as `clean_recordings_and_tracks` and `clean_labels` do)
      gives the same rows as deduplicating after it. */
  lemma {:induction false} KeepFirstThenFilter<T(!new), K(!new)>(s: seq<T>, key: T -> K, okKey: K -> bool)
    ensures Filter(KeepFirstBy(s, key), OnKey(key, okKey)) == KeepFirstBy(Filter(s, OnKey(key, okKey)), key)
    decreases |s|
  {
    var ok := OnKey(key, okKey);
    if |s| > 0 {
      var p := s[..|s| - 1];
      var last := s[|s| - 1];
      assert s == p + [last];
      KeepFirstThenFilter(p, key, okKey);
      var fp := Filter(p, ok);
      FilterSnoc(p, last, ok);
      KeepFirstBySnoc(p, last, key);
      FilterSnoc(KeepFirstBy(p, key), last, ok);
      if ok(last) {
        KeepFirstBySnoc(fp, last, key);
        OnKeyHasKey(p, key, okKey, key(last));
      }
    }
  }

  /** A filter on the key keeps every key it passes. */
  lemma OnKeyHasKey<T(!new), K>(p: seq<T>, key: T -> K, okKey: K -> bool, k: K)
    requires okKey(k)
    ensures HasKey(Filter(p, OnKey(key, okKey)), key, k) <==> HasKey(p, key, k)
  {
    var fp := Filter(p, OnKey(key, okKey));
    if HasKey(p, key, k) {
      var i :| 0 <= i < |p| && key(p[i]) == k;
      assert p[i] in fp;
      var j :| 0 <= j < |fp| && fp[j] == p[i];
    }
    if HasKey(fp, key, k) {
      var j :| 0 <= j < |fp| && key(fp[j]) == k;
      assert fp[j] in fp;
      var i :| 0 <= i < |p| && p[i] == fp[j];
    }
  }

  /** Rows of the rejected tables, as they are logged. */
  datatype Rejected = BadArtist(artist: ArtistRow) | BadRg(rg: RgRow) | BadRelease(release: ReleaseRow)

  /** `{"table": tbl, "reason": reason, **row}`. */
  datatype Reject = Reject(table: string, reason: string, row: Rejected)

  function RejectAs<T>(tbl: string, reason: string, wrap: T -> Rejected): T -> Reject {
    y => Reject(tbl, reason, wrap(y))
  }

  /** The log entries for the rows failing `ok`, in row order. */
  function RejectsOf<T(!new)>(rows: seq<T>, ok: T -> bool, wrap: T -> Rejected, tbl: string, reason: string): (r: seq<Reject>)
    ensures |r| + |Filter(rows, ok)| == |rows|
    ensures forall e :: e in r ==> e.table == tbl && e.reason == reason
    ensures forall y :: y in rows && !ok(y) ==> Reject(tbl, reason, wrap(y)) in r
    ensures forall e :: e in r ==> exists y :: y in rows && !ok(y) && e == Reject(tbl, reason, wrap(y))
  {
    var bad := Filter(rows, Not(ok));
    FilterPartition(rows, ok);
    var r := Map(bad, RejectAs(tbl, reason, wrap));
    assert forall y :: y in bad ==> Reject(tbl, reason, wrap(y)) in r by {
      forall y | y in bad ensures Reject(tbl, reason, wrap(y)) in r {
        var i :| 0 <= i < |bad| && bad[i] == y;
        assert r[i] == Reject(tbl, reason, wrap(y));
      }
    }
    assert forall e :: e in r ==> exists y :: y in bad && e == Reject(tbl, reason, wrap(y)) by {
      forall e | e in r ensures exists y :: y in bad && e == Reject(tbl, reason, wrap(y)) {
        var i :| 0 <= i < |r| && r[i] == e;
        assert bad[i] in bad;
      }
    }
    r
  }

  // ---------------------------------------------------------------------
  // clean_artists

  datatype ArtistRow = ArtistRow(
    artistMbid: Json,
    name: Json,
    sortName: Json,
    disambiguation: Json,
    kind: Json,
    gender: Json,
    areaMbid: Json,
    beginDate: Option<string>,
    endDate: Option<string>,
    ended: Json)

  /** The row of one artist object; `(a.get(k) or {}).get(k2)` is read as
      `Get(Get(a, k), k2)`. */
  function ArtistRowOf(a: Json): ArtistRow {
    var span := Get(a, "life-span");
    ArtistRow(Get(a, "id"), Get(a, "name"), Get(a, "sort-name"), Get(a, "disambiguation"), Get(a, "type"),
      Get(a, "gender"), Get(Get(a, "area"), "id"), DateOf(Get(span, "begin")), DateOf(Get(span, "end")),
      Get(span, "ended"))
  }

  /** An artist detail response: an object with a truthy id and name. */
  predicate IsDetail(data: Json) {
    data.JObj? && Truthy(Get(data, "id")) && Truthy(Get(data, "name"))
  }

  /** The artist rows of one payload: the detail itself, or else the
      entries of its `artists` array. */
  function PayloadArtists(data: Json): seq<ArtistRow> {
    if IsDetail(data) then [ArtistRowOf(data)]
    else if Has(data, "artists") then Map(Entries(data, "artists"), ArtistRowOf)
    else []
  }

  function ArtistRows(raw: seq<Json>): seq<ArtistRow> {
    FlatMap(raw, PayloadArtists)
  }

  predicate ArtistOk(x: ArtistRow) {
    IdOk(x.artistMbid)
  }

  function ArtistKey(x: ArtistRow): Json {
    x.artistMbid
  }

  function WrapArtist(x: ArtistRow): Rejected {
    BadArtist(x)
  }

  /** Where an artist row comes from: a detail payload, or an entry of the
      `artists` array of a payload that is not a detail. */
  predicate ArtistFrom(data: Json, x: ArtistRow) {
    (IsDetail(data) && x == ArtistRowOf(data)) ||
    (!IsDetail(data) && Has(data, "artists") && exists a :: a in Entries(data, "artists") && x == ArtistRowOf(a))
  }

  lemma PayloadArtistSound(data: Json, x: ArtistRow)
    requires x in PayloadArtists(data)
    ensures ArtistFrom(data, x)
  {
    if !IsDetail(data) {
      var i :| 0 <= i < |PayloadArtists(data)| && PayloadArtists(data)[i] == x;
      assert Entries(data, "artists")[i] in Entries(data, "artists");
    }
  }

  /** Every artist row comes from a payload as `ArtistFrom` says. */
  lemma ArtistRowsSound(raw: seq<Json>, x: ArtistRow)
    requires x in ArtistRows(raw)
    ensures exists data :: data in raw && ArtistFrom(data, x)
  {
    FlatMapPick(raw, PayloadArtists, x);
    var data :| data in raw && x in PayloadArtists(data);
    PayloadArtistSound(data, x);
  }

  /** A detail payload gives its own row, whatever its `artists` array
      holds. */
  lemma ArtistRowsDetail(raw: seq<Json>, data: Json)
    requires data in raw && IsDetail(data)
    ensures ArtistRowOf(data) in ArtistRows(raw)
    ensures PayloadArtists(data) == [ArtistRowOf(data)]
  {
    FlatMapMember(raw, PayloadArtists);
    assert ArtistRowOf(data) in PayloadArtists(data);
  }

  /** Any other payload with an `artists` key gives one row per entry. */
  lemma ArtistRowsListed(raw: seq<Json>, data: Json, a: Json)
    requires data in raw && !IsDetail(data) && Has(data, "artists") && a in Entries(data, "artists")
    ensures ArtistRowOf(a) in ArtistRows(raw)
    ensures |PayloadArtists(data)| == |Entries(data, "artists")|
  {
    var i :| 0 <= i < |Entries(data, "artists")| && Entries(data, "artists")[i] == a;
    assert PayloadArtists(data)[i] == ArtistRowOf(a);
    FlatMapMember(raw, PayloadArtists);
  }

  // ---------------------------------------------------------------------
  // clean_release_groups

  datatype RgRow = RgRow(rgMbid: Json, title: Json, primaryType: Json, firstReleaseDate: Option<string>, artistCredit: Json)

  function RgRowOf(g: Json): RgRow {
    RgRow(Get(g, "id"), Get(g, "title"), Get(g, "primary-type"), DateOf(Get(g, "first-release-date")),
      Get(g, "artist-credit-phrase"))
  }

  function PayloadRgs(data: Json): seq<RgRow> {
    if Has(data, "release-groups") then Map(Entries(data, "release-groups"), RgRowOf) else []
  }

  function RgRows(raw: seq<Json>): seq<RgRow> {
    FlatMap(raw, PayloadRgs)
  }

  predicate RgOk(x: RgRow) {
    IdOk(x.rgMbid)
  }

  function RgKey(x: RgRow): Json {
    x.rgMbid
  }

  function WrapRg(x: RgRow): Rejected {
    BadRg(x)
  }

  /** Every release-group row is an entry of a payload's `release-groups`
      array, with its date normalised by `parse_date`. */
  lemma RgRowsSound(raw: seq<Json>, x: RgRow)
    requires x in RgRows(raw)
    ensures exists data, g ::
      data in raw && Has(data, "release-groups") && g in Entries(data, "release-groups") && x == RgRowOf(g) && x.firstReleaseDate == DateOf(Get(g, "first-release-date"))
  {
    FlatMapPick(raw, PayloadRgs, x);
    var data :| data in raw && x in PayloadRgs(data);
    var i :| 0 <= i < |PayloadRgs(data)| && PayloadRgs(data)[i] == x;
    assert Entries(data, "release-groups")[i] in Entries(data, "release-groups");
  }

  /** ... and every entry gives a row. */
  lemma RgRowsComplete(raw: seq<Json>, data: Json, g: Json)
    requires data in raw && Has(data, "release-groups") && g in Entries(data, "release-groups")
    ensures RgRowOf(g) in RgRows(raw)
  {
    var i :| 0 <= i < |Entries(data, "release-groups")| && Entries(data, "release-groups")[i] == g;
    assert PayloadRgs(data)[i] == RgRowOf(g);
    FlatMapMember(raw, PayloadRgs);
  }

  // ---------------------------------------------------------------------
  // clean_releases

  datatype ReleaseRow = ReleaseRow(
    releaseMbid: Json,
    rgMbid: Json,
    title: Json,
    date: Option<string>,
    country: Option<string>,
    barcode: Json,
    status: Json)

  datatype ReleaseLabel = ReleaseLabel(releaseMbid: Json, labelMbid: Json, catalogNumber: Json)

  function ReleaseRowOf(r: Json): ReleaseRow {
    ReleaseRow(Get(r, "id"), Get(Get(r, "release-group"), "id"), Get(r, "title"), DateOf(Get(r, "date")),
      CountryOf(Get(r, "country")), Get(r, "barcode"), Get(r, "status"))
  }

  function LabelInfoOf(r: Json): Json -> ReleaseLabel {
    li => ReleaseLabel(Get(r, "id"), Get(Get(li, "label"), "id"), Get(li, "catalog-number"))
  }

  /** The `release_labels` rows of one release, one per `label-info`
      entry. */
  function ReleaseLabelsOf(r: Json): seq<ReleaseLabel> {
    Map(Entries(r, "label-info"), LabelInfoOf(r))
  }

  function PayloadReleases(data: Json): seq<ReleaseRow> {
    if Has(data, "releases") then Map(Entries(data, "releases"), ReleaseRowOf) else []
  }

  function PayloadReleaseLabels(data: Json): seq<ReleaseLabel> {
    if Has(data, "releases") then FlatMap(Entries(data, "releases"), ReleaseLabelsOf) else []
  }

  function ReleaseRows(raw: seq<Json>): seq<ReleaseRow> {
    FlatMap(raw, PayloadReleases)
  }

  function ReleaseLabelRows(raw: seq<Json>): seq<ReleaseLabel> {
    FlatMap(raw, PayloadReleaseLabels)
  }

  predicate ReleaseOk(x: ReleaseRow) {
    IdOk(x.releaseMbid)
  }

  function ReleaseKey(x: ReleaseRow): Json {
    x.releaseMbid
  }

  function WrapRelease(x: ReleaseRow): Rejected {
    BadRelease(x)
  }

  /** A release row's country has no lower-case letter. */
  lemma ReleaseCountryUpper(raw: seq<Json>, x: ReleaseRow)
    requires x in ReleaseRows(raw) && x.country.Some?
    ensures forall i :: 0 <= i < |x.country.value| ==> !('a' <= x.country.value[i] <= 'z')
  {
    FlatMapPick(raw, PayloadReleases, x);
    var data :| data in raw && x in PayloadReleases(data);
    var i :| 0 <= i < |PayloadReleases(data)| && PayloadReleases(data)[i] == x;
  }

  predicate Linked(x: ReleaseLabel) {
    x.releaseMbid != JNull && x.labelMbid != JNull
  }

  function LinkKey(x: ReleaseLabel): (Json, Json, Json) {
    (x.releaseMbid, x.labelMbid, x.catalogNumber)
  }

  /** The written `release_labels`: rows with both ids, duplicates dropped,
      then deduplicated once more on all three columns. */
  function ReleaseLabelTable(links: seq<ReleaseLabel>): (r: seq<ReleaseLabel>)
    ensures forall x :: x in r ==> x in links && Linked(x)
    ensures Distinct(r)
  {
    if |links| == 0 then []
    else
      var d := Dedup(Filter(links, Linked));
      KeepFirstDistinct(d);
      d
  }

  /** On rows without repeats every row is its own key, so the
      three-column deduplication keeps them all. */
  lemma KeepFirstDistinct(d: seq<ReleaseLabel>)
    requires Distinct(d)
    ensures KeepFirstBy(d, LinkKey) == d
  {
    KeepFirstByUnique(d, LinkKey);
  }

  /** Every label link with both ids is written. */
  lemma ReleaseLabelTableComplete(links: seq<ReleaseLabel>, x: ReleaseLabel)
    requires x in links && Linked(x)
    ensures x in ReleaseLabelTable(links)
  {
  }

  // ---------------------------------------------------------------------
  // clean_recordings_and_tracks

  /** A track with the release and the medium it is on. */
  datatype Placed = Placed(release: Json, medium: Json, track: Json)

  datatype TrackRow = TrackRow(
    trackMbid: Json,
    releaseMbid: Json,
    recordingMbid: Json,
    mediumIndex: Json,
    position: Json,
    title: Json,
    lengthMs: Option<int>)

  datatype RecordingRow = RecordingRow(recordingMbid: Json, title: Json, lengthMs: Option<int>, video: Json)

  function TrackRowOf(p: Placed): TrackRow {
    var t := p.track;
    TrackRow(Get(t, "id"), Get(p.release, "id"), Get(Get(t, "recording"), "id"), Get(p.medium, "position"),
      Get(t, "position"), Get(t, "title"), CleanUtils.ToMs(Get(t, "length")))
  }

  function RecordingRowOf(p: Placed): RecordingRow {
    var rec := Get(p.track, "recording");
    RecordingRow(Get(rec, "id"), Get(rec, "title"), CleanUtils.ToMs(Get(rec, "length")), Get(rec, "video"))
  }

  function PlaceIn(r: Json, m: Json): Json -> Placed {
    t => Placed(r, m, t)
  }

  function MediumTracks(r: Json): Json -> seq<Placed> {
    m => Map(Entries(m, "tracks"), PlaceIn(r, m))
  }

  function ReleaseTracks(r: Json): seq<Placed> {
    FlatMap(Entries(r, "media"), MediumTracks(r))
  }

  function PayloadTracks(data: Json): seq<Placed> {
    if Has(data, "releases") then FlatMap(Entries(data, "releases"), ReleaseTracks) else []
  }

  /** Every track of every medium of every release, in document order. */
  function PlacedTracks(raw: seq<Json>): seq<Placed> {
    FlatMap(raw, PayloadTracks)
  }

  /** A placed track sits on a medium of a release of a payload. */
  predicate PlacedIn(raw: seq<Json>, p: Placed) {
    exists data :: data in raw && Has(data, "releases") && p.release in Entries(data, "releases") &&
      p.medium in Entries(p.release, "media") && p.track in Entries(p.medium, "tracks")
  }

  lemma ReleaseTrackSound(r: Json, p: Placed)
    requires p in ReleaseTracks(r)
    ensures p.release == r && p.medium in Entries(r, "media") && p.track in Entries(p.medium, "tracks")
  {
    var m := FlatMapWitness(Entries(r, "media"), MediumTracks(r), p);
    var placed := MediumTracks(r)(m);
    var ts := Entries(m, "tracks");
    assert placed == Map(ts, PlaceIn(r, m));
    var i :| 0 <= i < |placed| && placed[i] == p;
    assert p == Placed(r, m, ts[i]);
    assert ts[i] in ts;
  }

  lemma PlacedWitness(raw: seq<Json>, data: Json, p: Placed)
    requires data in raw && Has(data, "releases") && p.release in Entries(data, "releases")
    requires p.medium in Entries(p.release, "media") && p.track in Entries(p.medium, "tracks")
    ensures PlacedIn(raw, p)
  {
  }

  /** Every emitted track (and its recording) comes from a track entry. */
  lemma PlacedTracksSound(raw: seq<Json>, p: Placed)
    requires p in PlacedTracks(raw)
    ensures PlacedIn(raw, p)
  {
    var data := FlatMapWitness(raw, PayloadTracks, p);
    var r := FlatMapWitness(Entries(data, "releases"), ReleaseTracks, p);
    ReleaseTrackSound(r, p);
    PlacedWitness(raw, data, p);
  }

  /** ... and every track entry is emitted. */
  lemma PlacedTracksComplete(raw: seq<Json>, data: Json, r: Json, m: Json, t: Json)
    requires data in raw && Has(data, "releases") && r in Entries(data, "releases")
    requires m in Entries(r, "media") && t in Entries(m, "tracks")
    ensures Placed(r, m, t) in PlacedTracks(raw)
  {
    var i :| 0 <= i < |Entries(m, "tracks")| && Entries(m, "tracks")[i] == t;
    assert MediumTracks(r)(m)[i] == Placed(r, m, t);
    FlatMapMember(Entries(r, "media"), MediumTracks(r));
    FlatMapMember(Entries(data, "releases"), ReleaseTracks);
    FlatMapMember(raw, PayloadTracks);
  }

  function TrackRows(raw: seq<Json>): seq<TrackRow> {
    Map(PlacedTracks(raw), TrackRowOf)
  }

  function RecordingRows(raw: seq<Json>): seq<RecordingRow> {
    Map(PlacedTracks(raw), RecordingRowOf)
  }

  function TrackKey(x: TrackRow): Json {
    x.trackMbid
  }

  predicate TrackOk(x: TrackRow) {
    IdOk(x.trackMbid)
  }

  function RecordingKey(x: RecordingRow): Json {
    x.recordingMbid
  }

  function IdOkOf(x: Json): bool {
    IdOk(x)
  }

  /** The returned recordings: deduplicated on the id, then checked. */
  function RecordingFrame(recs: seq<RecordingRow>): seq<RecordingRow> {
    Filter(KeepFirstBy(recs, RecordingKey), OnKey(RecordingKey, IdOkOf))
  }

  /** The written recordings table is the returned frame, and is the same
      as checking first and keeping the first row per id. */
  lemma RecordingTable(recs: seq<RecordingRow>)
    ensures KeepFirstBy(RecordingFrame(recs), RecordingKey) == RecordingFrame(recs)
    ensures RecordingFrame(recs) == CleanTable(recs, OnKey(RecordingKey, IdOkOf), RecordingKey)
  {
    FilterUniqueKeys(KeepFirstBy(recs, RecordingKey), OnKey(RecordingKey, IdOkOf), RecordingKey);
    KeepFirstByUnique(RecordingFrame(recs), RecordingKey);
    KeepFirstThenFilter(recs, RecordingKey, IdOkOf);
  }

  // ---------------------------------------------------------------------
  // clean_labels

  datatype LabelRow = LabelRow(labelMbid: Json, name: Json, kind: Json, disambiguation: Json)

  function LabelRowOf(li: Json): LabelRow {
    var lab := Get(li, "label");
    LabelRow(Get(lab, "id"), Get(lab, "name"), Get(lab, "type"), Get(lab, "disambiguation"))
  }

  function ReleaseLabelEntities(r: Json): seq<LabelRow> {
    Map(Entries(r, "label-info"), LabelRowOf)
  }

  function PayloadLabels(data: Json): seq<LabelRow> {
    if Has(data, "releases") then FlatMap(Entries(data, "releases"), ReleaseLabelEntities) else []
  }

  function LabelRows(raw: seq<Json>): seq<LabelRow> {
    FlatMap(raw, PayloadLabels)
  }

  function LabelKey(x: LabelRow): Json {
    x.labelMbid
  }

  /** The returned labels: deduplicated on the id, then checked. */
  function LabelFrame(rows: seq<LabelRow>): seq<LabelRow> {
    Filter(KeepFirstBy(rows, LabelKey), OnKey(LabelKey, IdOkOf))
  }

  lemma LabelTable(rows: seq<LabelRow>)
    ensures KeepFirstBy(LabelFrame(rows), LabelKey) == LabelFrame(rows)
    ensures LabelFrame(rows) == CleanTable(rows, OnKey(LabelKey, IdOkOf), LabelKey)
  {
    FilterUniqueKeys(KeepFirstBy(rows, LabelKey), OnKey(LabelKey, IdOkOf), LabelKey);
    KeepFirstByUnique(LabelFrame(rows), LabelKey);
    KeepFirstThenFilter(rows, LabelKey, IdOkOf);
  }

  // ---------------------------------------------------------------------
  // clean_genres_and_tags

  /** A row of `entity_genres` or `entity_tags`. */
  datatype Tagging = Tagging(entityType: string, entityMbid: Json, name: Json, votes: Json)

  /** A reader of `d.get(k)`. The tag rows are defined for any reader and
      used with `Get`; keeping the reader a parameter keeps the proofs about
      the two fields from unfolding every dictionary lookup. */
  type Reader = (Json, string) -> Json

  function TagOf(get: Reader, kind: string, id: Json): Json -> Tagging {
    g => Tagging(kind, id, get(g, "name"), get(g, "count"))
  }

  /** `emit`: one row per entry of `items or []`. */
  function Emitted(get: Reader, kind: string, id: Json, items: Json): seq<Tagging> {
    Map(Items(items), TagOf(get, kind, id))
  }

  function RgTaggings(get: Reader, field: string): Json -> seq<Tagging> {
    g => Emitted(get, "release-group", get(g, "id"), get(g, field))
  }

  /** The rows of one payload for `field` (`genres` or `tags`): its release
      groups' first, then the artist detail's; `has` reads `k in d`. */
  function PayloadTaggings(get: Reader, has: (Json, string) -> bool, field: string): Json -> seq<Tagging> {
    data =>
      (if has(data, "release-groups") then FlatMap(Items(get(data, "release-groups")), RgTaggings(get, field)) else []) +
      (if data.JObj? && Truthy(get(data, "id")) && Truthy(get(data, "name")) then Emitted(get, "artist", get(data, "id"), get(data, field)) else [])
  }

  function TaggingRows(raw: seq<Json>, field: string): seq<Tagging> {
    FlatMap(raw, PayloadTaggings(Get, Has, field))
  }

  predicate Named(x: Tagging) {
    x.entityMbid != JNull && x.name != JNull
  }

  function TagKey(x: Tagging): (string, Json, Json) {
    (x.entityType, x.entityMbid, x.name)
  }

  /** The written table: rows with an entity and a name, duplicates
      dropped, then the first row per (entity type, entity, name). */
  function TaggingTable(rows: seq<Tagging>): (r: seq<Tagging>)
    ensures forall x :: x in r ==> x in rows && Named(x)
    ensures UniqueKeys(r, TagKey)
    ensures forall x :: x in rows && Named(x) ==> HasKey(r, TagKey, TagKey(x))
  {
    var d := Dedup(Filter(rows, Named));
    assert forall x :: x in rows && Named(x) ==> HasKey(KeepFirstBy(d, TagKey), TagKey, TagKey(x)) by {
      forall x | x in rows && Named(x) ensures HasKey(KeepFirstBy(d, TagKey), TagKey, TagKey(x)) {
        var i :| 0 <= i < |d| && d[i] == x;
        KeepFirstByKeeps(d, TagKey, i);
      }
    }
    KeepFirstBy(d, TagKey)
  }

  // ---------------------------------------------------------------------
  // The clean layer as a whole

  datatype Tables = Tables(
    artists: seq<ArtistRow>,
    releaseGroups: seq<RgRow>,
    releases: seq<ReleaseRow>,
    releaseLabels: seq<ReleaseLabel>,
    recordings: seq<RecordingRow>,
    tracks: seq<TrackRow>,
    labels: seq<LabelRow>,
    entityGenres: seq<Tagging>,
    entityTags: seq<Tagging>)

  const NoTables := Tables([], [], [], [], [], [], [], [], [])

  /** The tables `main()` writes for payloads `raw`. */
  function CleanTables(raw: seq<Json>): Tables {
    Tables(
      CleanTable(ArtistRows(raw), ArtistOk, ArtistKey),
      CleanTable(RgRows(raw), RgOk, RgKey),
      CleanTable(ReleaseRows(raw), ReleaseOk, ReleaseKey),
      ReleaseLabelTable(ReleaseLabelRows(raw)),
      KeepFirstBy(RecordingFrame(RecordingRows(raw)), RecordingKey),
      CleanTable(TrackRows(raw), TrackOk, TrackKey),
      KeepFirstBy(LabelFrame(LabelRows(raw)), LabelKey),
      TaggingTable(TaggingRows(raw, "genres")),
      TaggingTable(TaggingRows(raw, "tags")))
  }

  /** The entries `main()` adds to the reject log: artists, then release
      groups, then releases. */
  function CleanRejects(raw: seq<Json>): seq<Reject> {
    RejectsOf(ArtistRows(raw), ArtistOk, WrapArtist, "artists", "bad_artist_mbid") +
    RejectsOf(RgRows(raw), RgOk, WrapRg, "release_groups", "bad_rg_mbid") +
    RejectsOf(ReleaseRows(raw), ReleaseOk, WrapRelease, "releases", "bad_release_mbid")
  }

  // ---------------------------------------------------------------------
  // The row loops

  method MapLoop<T, U>(items: seq<T>, f: T -> U) returns (rows: seq<U>)
    ensures rows == Map(items, f)
  {
    rows := [];
    var k := 0;
    while k < |items|
      invariant 0 <= k <= |items|
      invariant rows == Map(items[..k], f)
    {
      MapPrefix(items, k, f);
      rows := rows + [f(items[k])];
      k := k + 1;
    }
    assert items[..k] == items;
  }

  method ArtistRowsLoop(raw: seq<Json>) returns (rows: seq<ArtistRow>)
    ensures rows == ArtistRows(raw)
  {
    rows := [];
    var i := 0;
    while i < |raw|
      invariant 0 <= i <= |raw|
      invariant rows == FlatMap(raw[..i], PayloadArtists)
    {
      var data := raw[i];
      FlatMapPrefix(raw, i, PayloadArtists);
      if IsDetail(data) {
        rows := rows + [ArtistRowOf(data)];
      } else if Has(data, "artists") {
        var more := MapLoop(Entries(data, "artists"), ArtistRowOf);
        rows := rows + more;
      }
      i := i + 1;
    }
    assert raw[..i] == raw;
  }

  method RgRowsLoop(raw: seq<Json>) returns (rows: seq<RgRow>)
    ensures rows == RgRows(raw)
  {
    rows := [];
    var i := 0;
    while i < |raw|
      invariant 0 <= i <= |raw|
      invariant rows == FlatMap(raw[..i], PayloadRgs)
    {
      var data := raw[i];
      FlatMapPrefix(raw, i, PayloadRgs);
      if Has(data, "release-groups") {
        var more := MapLoop(Entries(data, "release-groups"), RgRowOf);
        rows := rows + more;
      }
      i := i + 1;
    }
    assert raw[..i] == raw;
  }

  /** The loop over one payload's releases, filling both lists. */
  method PayloadReleasesLoop(rels: seq<Json>) returns (rows: seq<ReleaseRow>, links: seq<ReleaseLabel>)
    ensures rows == Map(rels, ReleaseRowOf)
    ensures links == FlatMap(rels, ReleaseLabelsOf)
  {
    rows, links := [], [];
    var k := 0;
    while k < |rels|
      invariant 0 <= k <= |rels|
      invariant rows == Map(rels[..k], ReleaseRowOf)
      invariant links == FlatMap(rels[..k], ReleaseLabelsOf)
    {
      var r := rels[k];
      MapPrefix(rels, k, ReleaseRowOf);
      FlatMapPrefix(rels, k, ReleaseLabelsOf);
      rows := rows + [ReleaseRowOf(r)];
      var more := MapLoop(Entries(r, "label-info"), LabelInfoOf(r));
      links := links + more;
      k := k + 1;
    }
    assert rels[..k] == rels;
  }

  /** One payload's turn of `clean_releases`'s loop. */
  lemma ReleaseStep(raw: seq<Json>, i: int, more: seq<ReleaseRow>, moreLinks: seq<ReleaseLabel>)
    requires 0 <= i < |raw|
    requires more == PayloadReleases(raw[i]) && moreLinks == PayloadReleaseLabels(raw[i])
    ensures FlatMap(raw[..i + 1], PayloadReleases) == FlatMap(raw[..i], PayloadReleases) + more
    ensures FlatMap(raw[..i + 1], PayloadReleaseLabels) == FlatMap(raw[..i], PayloadReleaseLabels) + moreLinks
  {
    FlatMapPrefix(raw, i, PayloadReleases);
    FlatMapPrefix(raw, i, PayloadReleaseLabels);
  }

  method ReleaseRowsLoop(raw: seq<Json>) returns (rows: seq<ReleaseRow>, links: seq<ReleaseLabel>)
    ensures rows == ReleaseRows(raw)
    ensures links == ReleaseLabelRows(raw)
  {
    rows, links := [], [];
    var i := 0;
    while i < |raw|
      invariant 0 <= i <= |raw|
      invariant rows == FlatMap(raw[..i], PayloadReleases)
      invariant links == FlatMap(raw[..i], PayloadReleaseLabels)
    {
      var data := raw[i];
      var more: seq<ReleaseRow>, moreLinks: seq<ReleaseLabel> := [], [];
      if Has(data, "releases") {
        more, moreLinks := PayloadReleasesLoop(Entries(data, "releases"));
      }
      ReleaseStep(raw, i, more, moreLinks);
      rows := rows + more;
      links := links + moreLinks;
      i := i + 1;
    }
    assert raw[..i] == raw;
  }

  /** The loop over one medium's tracks, filling both lists. */
  method MediumLoop(r: Json, m: Json) returns (tracks: seq<TrackRow>, recs: seq<RecordingRow>)
    ensures tracks == Map(MediumTracks(r)(m), TrackRowOf)
    ensures recs == Map(MediumTracks(r)(m), RecordingRowOf)
  {
    var ts := Entries(m, "tracks");
    tracks, recs := [], [];
    var k := 0;
    while k < |ts|
      invariant 0 <= k <= |ts|
      invariant tracks == Map(Map(ts[..k], PlaceIn(r, m)), TrackRowOf)
      invariant recs == Map(Map(ts[..k], PlaceIn(r, m)), RecordingRowOf)
    {
      var p := Placed(r, m, ts[k]);
      MapPrefix(ts, k, PlaceIn(r, m));
      MapAppend(Map(ts[..k], PlaceIn(r, m)), [p], TrackRowOf);
      MapAppend(Map(ts[..k], PlaceIn(r, m)), [p], RecordingRowOf);
      tracks := tracks + [TrackRowOf(p)];
      recs := recs + [RecordingRowOf(p)];
      k := k + 1;
    }
    assert ts[..k] == ts;
  }

  /** The loop over one release's media. */
  method ReleaseTracksLoop(r: Json) returns (tracks: seq<TrackRow>, recs: seq<RecordingRow>)
    ensures tracks == Map(ReleaseTracks(r), TrackRowOf)
    ensures recs == Map(ReleaseTracks(r), RecordingRowOf)
  {
    var media := Entries(r, "media");
    tracks, recs := [], [];
    var k := 0;
    while k < |media|
      invariant 0 <= k <= |media|
      invariant tracks == Map(FlatMap(media[..k], MediumTracks(r)), TrackRowOf)
      invariant recs == Map(FlatMap(media[..k], MediumTracks(r)), RecordingRowOf)
    {
      var t, rc := MediumLoop(r, media[k]);
      FlatMapPrefix(media, k, MediumTracks(r));
      MapAppend(FlatMap(media[..k], MediumTracks(r)), MediumTracks(r)(media[k]), TrackRowOf);
      MapAppend(FlatMap(media[..k], MediumTracks(r)), MediumTracks(r)(media[k]), RecordingRowOf);
      tracks := tracks + t;
      recs := recs + rc;
      k := k + 1;
    }
    assert media[..k] == media;
  }

  /** The loop over one payload's releases. */
  method PayloadTracksLoop(rels: seq<Json>) returns (tracks: seq<TrackRow>, recs: seq<RecordingRow>)
    ensures tracks == Map(FlatMap(rels, ReleaseTracks), TrackRowOf)
    ensures recs == Map(FlatMap(rels, ReleaseTracks), RecordingRowOf)
  {
    tracks, recs := [], [];
    var k := 0;
    while k < |rels|
      invariant 0 <= k <= |rels|
      invariant tracks == Map(FlatMap(rels[..k], ReleaseTracks), TrackRowOf)
      invariant recs == Map(FlatMap(rels[..k], ReleaseTracks), RecordingRowOf)
    {
      var t, rc := ReleaseTracksLoop(rels[k]);
      FlatMapPrefix(rels, k, ReleaseTracks);
      MapAppend(FlatMap(rels[..k], ReleaseTracks), ReleaseTracks(rels[k]), TrackRowOf);
      MapAppend(FlatMap(rels[..k], ReleaseTracks), ReleaseTracks(rels[k]), RecordingRowOf);
      tracks := tracks + t;
      recs := recs + rc;
      k := k + 1;
    }
    assert rels[..k] == rels;
  }

  method TrackRowsLoop(raw: seq<Json>) returns (tracks: seq<TrackRow>, recs: seq<RecordingRow>)
    ensures tracks == TrackRows(raw)
    ensures recs == RecordingRows(raw)
  {
    tracks, recs := [], [];
    var i := 0;
    while i < |raw|
      invariant 0 <= i <= |raw|
      invariant tracks == Map(FlatMap(raw[..i], PayloadTracks), TrackRowOf)
      invariant recs == Map(FlatMap(raw[..i], PayloadTracks), RecordingRowOf)
    {
      var data := raw[i];
      FlatMapPrefix(raw, i, PayloadTracks);
      MapAppend(FlatMap(raw[..i], PayloadTracks), PayloadTracks(data), TrackRowOf);
      MapAppend(FlatMap(raw[..i], PayloadTracks), PayloadTracks(data), RecordingRowOf);
      if Has(data, "releases") {
        var t, rc := PayloadTracksLoop(Entries(data, "releases"));
        tracks := tracks + t;
        recs := recs + rc;
      }
      i := i + 1;
    }
    assert raw[..i] == raw;
  }

  method LabelRowsLoop(raw: seq<Json>) returns (rows: seq<LabelRow>)
    ensures rows == LabelRows(raw)
  {
    rows := [];
    var i := 0;
    while i < |raw|
      invariant 0 <= i <= |raw|
      invariant rows == FlatMap(raw[..i], PayloadLabels)
    {
      var data := raw[i];
      FlatMapPrefix(raw, i, PayloadLabels);
      if Has(data, "releases") {
        var rels := Entries(data, "releases");
        var k := 0;
        var more := [];
        while k < |rels|
          invariant 0 <= k <= |rels|
          invariant more == FlatMap(rels[..k], ReleaseLabelEntities)
        {
          FlatMapPrefix(rels, k, ReleaseLabelEntities);
          var some := MapLoop(Entries(rels[k], "label-info"), LabelRowOf);
          more := more + some;
          k := k + 1;
        }
        assert rels[..k] == rels;
        rows := rows + more;
      }
      i := i + 1;
    }
    assert raw[..i] == raw;
  }

  /** `emit` for one entity: its genre rows and its tag rows. */
  method EmitLoop(get: Reader, kind: string, id: Json, genres: Json, tags: Json) returns (gs: seq<Tagging>, ts: seq<Tagging>)
    ensures gs == Emitted(get, kind, id, genres) && ts == Emitted(get, kind, id, tags)
  {
    gs := MapLoop(Items(genres), TagOf(get, kind, id));
    ts := MapLoop(Items(tags), TagOf(get, kind, id));
  }

  /** The loop over the release groups of one payload, filling the lists
      of fields `gf` (genres) and `tf` (tags). */
  method RgTaggingsLoop(get: Reader, groups: seq<Json>, gf: string, tf: string) returns (gs: seq<Tagging>, ts: seq<Tagging>)
    ensures gs == FlatMap(groups, RgTaggings(get, gf))
    ensures ts == FlatMap(groups, RgTaggings(get, tf))
  {
    gs, ts := [], [];
    var k := 0;
    while k < |groups|
      invariant 0 <= k <= |groups|
      invariant gs == FlatMap(groups[..k], RgTaggings(get, gf))
      invariant ts == FlatMap(groups[..k], RgTaggings(get, tf))
    {
      var g := groups[k];
      var moreG, moreT := EmitLoop(get, "release-group", get(g, "id"), get(g, gf), get(g, tf));
      FlatMapPrefix(groups, k, RgTaggings(get, gf));
      FlatMapPrefix(groups, k, RgTaggings(get, tf));
      gs := gs + moreG;
      ts := ts + moreT;
      k := k + 1;
    }
    assert groups[..k] == groups;
  }

  /** The rows of one payload: its release groups', then the artist
      detail's. */
  method PayloadTaggingsLoop(get: Reader, has: (Json, string) -> bool, data: Json, gf: string, tf: string) returns (gs: seq<Tagging>, ts: seq<Tagging>)
    ensures gs == PayloadTaggings(get, has, gf)(data) && ts == PayloadTaggings(get, has, tf)(data)
  {
    var g0, t0 := [], [];
    if has(data, "release-groups") {
      g0, t0 := RgTaggingsLoop(get, Items(get(data, "release-groups")), gf, tf);
    }
    var g1, t1 := [], [];
    if data.JObj? && Truthy(get(data, "id")) && Truthy(get(data, "name")) {
      g1, t1 := EmitLoop(get, "artist", get(data, "id"), get(data, gf), get(data, tf));
    }
    gs, ts := g0 + g1, t0 + t1;
  }

  method TaggingRowsLoop(get: Reader, has: (Json, string) -> bool, raw: seq<Json>, gf: string, tf: string) returns (gs: seq<Tagging>, ts: seq<Tagging>)
    ensures gs == FlatMap(raw, PayloadTaggings(get, has, gf))
    ensures ts == FlatMap(raw, PayloadTaggings(get, has, tf))
  {
    gs, ts := [], [];
    var i := 0;
    while i < |raw|
      invariant 0 <= i <= |raw|
      invariant gs == FlatMap(raw[..i], PayloadTaggings(get, has, gf))
      invariant ts == FlatMap(raw[..i], PayloadTaggings(get, has, tf))
    {
      var moreG, moreT := PayloadTaggingsLoop(get, has, raw[i], gf, tf);
      FlatMapPrefix(raw, i, PayloadTaggings(get, has, gf));
      FlatMapPrefix(raw, i, PayloadTaggings(get, has, tf));
      gs := gs + moreG;
      ts := ts + moreT;
      i := i + 1;
    }
    assert raw[..i] == raw;
  }

  // ---------------------------------------------------------------------
  // The module state: the reject log and the written tables

  class CleanLayer {
    /** `REJECTS`, shared by every `clean_*` call. */
    var rejects: seq<Reject>
    /** `_rejects.parquet`, once written. */
    var rejectsFile: Option<seq<Reject>>
    /** The tables written under the output directory. */
    var tables: Tables

    constructor()
      ensures rejects == [] && rejectsFile == None && tables == NoTables
    {
      rejects := [];
      rejectsFile := None;
      tables := NoTables;
    }

    /** `_append_reject(reason, tbl, row)`. */
    method AppendReject(tbl: string, reason: string, row: Rejected)
      modifies this
      ensures rejects == old(rejects) + [Reject(tbl, reason, row)]
      ensures rejectsFile == old(rejectsFile) && tables == old(tables)
    {
      rejects := rejects + [Reject(tbl, reason, row)];
    }

    /** `for _, r in df[bad].iterrows(): _append_reject(...)`. */
    method AppendRejects<T(!new)>(rows: seq<T>, ok: T -> bool, wrap: T -> Rejected, tbl: string, reason: string)
      modifies this
      ensures rejects == old(rejects) + RejectsOf(rows, ok, wrap, tbl, reason)
      ensures rejectsFile == old(rejectsFile) && tables == old(tables)
    {
      var bad := Filter(rows, Not(ok));
      var k := 0;
      while k < |bad|
        invariant 0 <= k <= |bad|
        invariant rejects == old(rejects) + Map(bad[..k], RejectAs(tbl, reason, wrap))
        invariant rejectsFile == old(rejectsFile) && tables == old(tables)
      {
        MapPrefix(bad, k, RejectAs(tbl, reason, wrap));
        AppendReject(tbl, reason, wrap(bad[k]));
        k := k + 1;
      }
      assert bad[..k] == bad;
    }

    /** `_finalize_rejects()`: the log is written only when it holds an
        entry. */
    method FinalizeRejects()
      modifies this
      ensures rejectsFile == if |rejects| > 0 then Some(rejects) else old(rejectsFile)
      ensures rejects == old(rejects) && tables == old(tables)
    {
      if |rejects| > 0 {
        rejectsFile := Some(rejects);
      }
    }

    /** `clean_artists(raw)`: returns the checked rows, duplicates kept. */
    method CleanArtists(raw: seq<Json>) returns (df: seq<ArtistRow>)
      modifies this
      ensures df == Filter(ArtistRows(raw), ArtistOk)
      ensures rejects == old(rejects) + RejectsOf(ArtistRows(raw), ArtistOk, WrapArtist, "artists", "bad_artist_mbid")
      ensures rejectsFile == old(rejectsFile)
      ensures tables == old(tables).(artists := CleanTable(ArtistRows(raw), ArtistOk, ArtistKey))
    {
      var rows := ArtistRowsLoop(raw);
      AppendRejects(rows, ArtistOk, WrapArtist, "artists", "bad_artist_mbid");
      df := Filter(rows, ArtistOk);
      tables := tables.(artists := KeepFirstBy(df, ArtistKey));
    }

    /** `clean_release_groups(raw)`: returns the checked rows, duplicates
        kept. */
    method CleanReleaseGroups(raw: seq<Json>) returns (df: seq<RgRow>)
      modifies this
      ensures df == Filter(RgRows(raw), RgOk)
      ensures rejects == old(rejects) + RejectsOf(RgRows(raw), RgOk, WrapRg, "release_groups", "bad_rg_mbid")
      ensures rejectsFile == old(rejectsFile)
      ensures tables == old(tables).(releaseGroups := CleanTable(RgRows(raw), RgOk, RgKey))
    {
      var rows := RgRowsLoop(raw);
      AppendRejects(rows, RgOk, WrapRg, "release_groups", "bad_rg_mbid");
      df := Filter(rows, RgOk);
      tables := tables.(releaseGroups := KeepFirstBy(df, RgKey));
    }

    /** `clean_releases(raw)`: writes the releases and the release-label
        links. */
    method CleanReleases(raw: seq<Json>) returns (df: seq<ReleaseRow>)
      modifies this
      ensures df == Filter(ReleaseRows(raw), ReleaseOk)
      ensures rejects == old(rejects) + RejectsOf(ReleaseRows(raw), ReleaseOk, WrapRelease, "releases", "bad_release_mbid")
      ensures rejectsFile == old(rejectsFile)
      ensures tables == old(tables).(releases := CleanTable(ReleaseRows(raw), ReleaseOk, ReleaseKey),
        releaseLabels := ReleaseLabelTable(ReleaseLabelRows(raw)))
    {
      var rows, links := ReleaseRowsLoop(raw);
      AppendRejects(rows, ReleaseOk, WrapRelease, "releases", "bad_release_mbid");
      df := Filter(rows, ReleaseOk);
      tables := tables.(releases := KeepFirstBy(df, ReleaseKey));
      if |links| > 0 {
        var d := Dedup(Filter(links, Linked));
        KeepFirstDistinct(d);
        tables := tables.(releaseLabels := KeepFirstBy(d, LinkKey));
      } else {
        tables := tables.(releaseLabels := []);
      }
    }

    /** `clean_recordings_and_tracks(raw)`: ids that fail the check are
        dropped without a log entry. */
    method CleanRecordingsAndTracks(raw: seq<Json>) returns (dfr: seq<RecordingRow>, dft: seq<TrackRow>)
      modifies this
      ensures dfr == RecordingFrame(RecordingRows(raw))
      ensures dft == Filter(TrackRows(raw), TrackOk)
      ensures rejects == old(rejects) && rejectsFile == old(rejectsFile)
      ensures tables == old(tables).(recordings := KeepFirstBy(dfr, RecordingKey),
        tracks := CleanTable(TrackRows(raw), TrackOk, TrackKey))
    {
      var tracks, recs := TrackRowsLoop(raw);
      dfr := Filter(KeepFirstBy(recs, RecordingKey), OnKey(RecordingKey, IdOkOf));
      dft := Filter(tracks, TrackOk);
      tables := tables.(recordings := KeepFirstBy(dfr, RecordingKey), tracks := KeepFirstBy(dft, TrackKey));
    }

    /** `clean_labels(raw)`. */
    method CleanLabels(raw: seq<Json>) returns (df: seq<LabelRow>)
      modifies this
      ensures df == LabelFrame(LabelRows(raw))
      ensures rejects == old(rejects) && rejectsFile == old(rejectsFile)
      ensures tables == old(tables).(labels := KeepFirstBy(df, LabelKey))
    {
      var rows := LabelRowsLoop(raw);
      df := Filter(KeepFirstBy(rows, LabelKey), OnKey(LabelKey, IdOkOf));
      tables := tables.(labels := KeepFirstBy(df, LabelKey));
    }

    /** `clean_genres_and_tags(raw)`: returns the rows with an entity and a
        name, duplicates kept. */
    method CleanGenresAndTags(raw: seq<Json>) returns (dg: seq<Tagging>, dt: seq<Tagging>)
      modifies this
      ensures dg == Filter(TaggingRows(raw, "genres"), Named)
      ensures dt == Filter(TaggingRows(raw, "tags"), Named)
      ensures rejects == old(rejects) && rejectsFile == old(rejectsFile)
      ensures tables == old(tables).(entityGenres := TaggingTable(TaggingRows(raw, "genres")),
        entityTags := TaggingTable(TaggingRows(raw, "tags")))
    {
      var grows, trows := TaggingRowsLoop(Get, Has, raw, "genres", "tags");
      dg := Filter(grows, Named);
      dt := Filter(trows, Named);
      tables := tables.(entityGenres := KeepFirstBy(Dedup(dg), TagKey), entityTags := KeepFirstBy(Dedup(dt), TagKey));
    }

    /** `main()`: every table, then the reject log. */
    method Run(raw: seq<Json>)
      modifies this
      ensures rejects == old(rejects) + CleanRejects(raw)
      ensures rejectsFile == if |rejects| > 0 then Some(rejects) else old(rejectsFile)
      ensures tables == CleanTables(raw)
    {
      ghost var log := rejects;
      var artists := CleanArtists(raw);
      var rgs := CleanReleaseGroups(raw);
      var releases := CleanReleases(raw);
      AppendThree(log, RejectsOf(ArtistRows(raw), ArtistOk, WrapArtist, "artists", "bad_artist_mbid"),
        RejectsOf(RgRows(raw), RgOk, WrapRg, "release_groups", "bad_rg_mbid"),
        RejectsOf(ReleaseRows(raw), ReleaseOk, WrapRelease, "releases", "bad_release_mbid"));
      var recs, tracks := CleanRecordingsAndTracks(raw);
      var labels := CleanLabels(raw);
      var genres, tags := CleanGenresAndTags(raw);
      FinalizeRejects();
    }
  }
}
