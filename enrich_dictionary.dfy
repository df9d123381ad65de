/** `app/tools/enrich_dictionary.py`: filling the `unit` and `description`
    cells of the data dictionary, first from exact per-field notes, then
    from path heuristics, never overwriting a non-empty cell. */
module EnrichDictionary {
  import opened Wrappers
  import opened Seqs

  /** `FIELD_NOTES`: exact field name to (unit, description). */
  const FieldNotes: map<string, (string, string)> := map[
    "id" := ("uuid", "Primary MBID (MusicBrainz UUID)"),
    "artist_mbid" := ("uuid", "Artist MBID (FK)"),
    "rg_mbid" := ("uuid", "Release Group MBID (FK)"),
    "release_mbid" := ("uuid", "Release MBID (FK)"),
    "recording_mbid" := ("uuid", "Recording MBID (FK)"),
    "work_mbid" := ("uuid", "Work MBID (FK)"),
    "label_mbid" := ("uuid", "Label MBID (FK)"),
    "area_mbid" := ("uuid", "Area MBID (FK)"),
    "type" := ("", "Entity type from MusicBrainz (e.g., person, group, album)"),
    "type-id" := ("uuid", "Type UUID in MusicBrainz"),
    "name" := ("", "Display name or title"),
    "sort-name" := ("", "Name used for sorting"),
    "disambiguation" := ("", "Short comment to distinguish similar entities"),
    "gender" := ("", "Artist gender when applicable"),
    "country" := ("ISO-2", "Release country code"),
    "barcode" := ("", "Barcode for a release"),
    "status" := ("", "Release status (e.g., Official, Promotion)"),
    "first-release-date" := ("date", "First release date for the group (YYYY-MM-DD)"),
    "date" := ("date", "Release date (YYYY-MM-DD)"),
    "begin" := ("date", "Begin date (YYYY-MM-DD)"),
    "end" := ("date", "End date (YYYY-MM-DD)"),
    "begin-date" := ("date", "Begin date (YYYY-MM-DD)"),
    "end-date" := ("date", "End date (YYYY-MM-DD)"),
    "ended" := ("", "Whether the entity has ended"),
    "length" := ("ms", "Recording or track length in milliseconds"),
    "video" := ("", "Flag indicating a video recording"),
    "position" := ("", "Track position within medium"),
    "title" := ("", "Title"),
    "artist-credit-phrase" := ("", "Rendered artist credit string"),
    "primary-type" := ("", "Primary release-group type (Album/Single/EP/etc.)"),
    "genres[].name" := ("", "Genre label"),
    "genres[].count" := ("", "Genre vote count"),
    "tags[].name" := ("", "Free tag label"),
    "tags[].count" := ("", "Tag vote count"),
    "iswcs[]" := ("", "ISWC codes for a work"),
    "medium.position" := ("", "Medium index within release (disc number)"),
    "medium.track[].position" := ("", "Track position on medium"),
    "medium.track[].length" := ("ms", "Track length in milliseconds"),
    "medium.track[].id" := ("uuid", "Track MBID (distinct from recording MBID)"),
    "medium.track[].recording.id" := ("uuid", "Recording MBID for this track"),
    "relations[].type" := ("", "Relationship type (e.g., official homepage)"),
    "relations[].target-type" := ("", "Target entity type for relation"),
    "href" := ("", "Target URL")]

  // ---------------------------------------------------------------------
  // The heuristic patterns

  /** A heuristic: the pattern `(?:^|[\.\[\]])(w1|w2|...)` followed by `$`,
      or, when `suffixed`, by `(?:[\.\[].*)?$`; and the unit and
      description it proposes. */
  datatype Heuristic = Heuristic(words: seq<string>, suffixed: bool, unit: string, desc: string)

  /** `HEURISTICS`, in list order. */
  const Heuristics: seq<Heuristic> := [
    Heuristic(["id"], false, "uuid", "Primary or foreign key MBID (UUID)"),
    Heuristic(["length"], true, "ms", "Duration in milliseconds"),
    Heuristic(["date", "begin", "end", "first-release-date"], true, "date", "Date in YYYY-MM-DD when available"),
    Heuristic(["country"], false, "ISO-2", "Country code (ISO-3166-1 alpha-2)")]

  /** `[\.\[\]]`. */
  predicate IsSep(c: char) {
    c == '.' || c == '[' || c == ']'
  }

  /** Python's `$` at position `j`: the end of `s`, or just before a final
      newline. */
  predicate AtEnd(s: string, j: int) {
    j == |s| || (0 <= j == |s| - 1 && s[j] == '\n')
  }

  /** `.*$` from position `k`: no newline before the end of `s`, except a
      final one. */
  predicate RestOnLine(s: string, k: int) {
    forall q :: 0 <= q < |s| - 1 && k <= q ==> s[q] != '\n'
  }

  /** What may follow the word at position `j`. */
  predicate TailOk(s: string, j: int, suffixed: bool) {
    AtEnd(s, j) || (suffixed && 0 <= j < |s| && (s[j] == '.' || s[j] == '[') && RestOnLine(s, j + 1))
  }

  /** The pattern matches with word `w` starting at position `i`. */
  predicate WordAt(s: string, w: string, i: int, suffixed: bool) {
    0 <= i && i + |w| <= |s| && s[i..i + |w|] == w && (i == 0 || IsSep(s[i - 1])) && TailOk(s, i + |w|, suffixed)
  }

  /** `rx.search(field)`. */
  predicate Matches(h: Heuristic, field: string) {
    exists k, i :: 0 <= k < |h.words| && 0 <= i <= |field| && WordAt(field, h.words[k], i, h.suffixed)
  }

  /** The id pattern matches `id` and names ending in `.id`, `[id` or
      `]id`; a trailing newline is tolerated by `$`. */
  lemma IdPatternMatches(prefix: string, sep: char)
    requires IsSep(sep)
    ensures Matches(Heuristics[0], "id")
    ensures Matches(Heuristics[0], prefix + [sep] + "id")
    ensures Matches(Heuristics[0], "id\n")
  {
    var h := Heuristics[0];
    assert WordAt("id", h.words[0], 0, false);
    var s := prefix + [sep] + "id";
    assert s[|prefix| + 1..|prefix| + 3] == "id";
    assert WordAt(s, h.words[0], |prefix| + 1, false);
    assert WordAt("id\n", h.words[0], 0, false);
  }

  /** The id pattern does not match inside a word: `paid` is not an id. */
  lemma IdPatternRejectsPaid()
    ensures !Matches(Heuristics[0], "paid")
  {
    var s := "paid";
    forall i | 0 <= i <= |s| ensures !WordAt(s, "id", i, false) {
      if i == 2 {
        assert !IsSep(s[1]);
      }
    }
  }

  /** The length pattern reaches into sub-fields: `medium.track[].length`
      and `length.value` both match, `lengthy` does not. */
  lemma LengthPattern()
    ensures Matches(Heuristics[1], "medium.track[].length")
    ensures Matches(Heuristics[1], "length.value")
    ensures !Matches(Heuristics[1], "lengthy")
  {
    var h := Heuristics[1];
    var a := "medium.track[].length";
    assert a[15..21] == "length";
    assert WordAt(a, h.words[0], 15, true);
    var b := "length.value";
    assert b[0..6] == "length";
    assert RestOnLine(b, 7);
    assert WordAt(b, h.words[0], 0, true);
    var c := "lengthy";
    forall i | 0 <= i <= |c| ensures !WordAt(c, "length", i, true) {
      if i == 0 {
        assert !TailOk(c, 6, true);
      }
    }
  }

  // ---------------------------------------------------------------------
  // enrich

  /** Python's `a or b` on strings. */
  function Fill(a: string, b: string): (r: string)
    ensures r == "" <==> a == "" && b == ""
  {
    if a != "" then a else b
  }

  /** The exact-field step: `unit = unit or u; desc = desc or d` when the
      field has a note. */
  function NotesStep(notes: map<string, (string, string)>, field: string, ud: (string, string)): (string, string) {
    if field in notes then (Fill(ud.0, notes[field].0), Fill(ud.1, notes[field].1)) else ud
  }

  /** One pass of the heuristics loop. */
  function HeuristicStep(h: Heuristic, field: string, ud: (string, string)): (string, string) {
    if Matches(h, field) then (Fill(ud.0, h.unit), Fill(ud.1, h.desc)) else ud
  }

  /** The heuristics loop over `hs`, in order. */
  function HeuristicsFold(hs: seq<Heuristic>, field: string, ud: (string, string)): (string, string)
    decreases |hs|
  {
    if |hs| == 0 then ud else HeuristicStep(hs[|hs| - 1], field, HeuristicsFold(hs[..|hs| - 1], field, ud))
  }

  /** What `enrich(unit, desc, field)` returns for notes `notes` and
      heuristics `hs`. */
  function EnrichedWith(notes: map<string, (string, string)>, hs: seq<Heuristic>, unit: string, desc: string, field: string): (string, string) {
    if unit != "" && desc != "" then (unit, desc)
    else HeuristicsFold(hs, field, NotesStep(notes, field, (unit, desc)))
  }

  /** What `enrich(unit, desc, field)` returns. */
  function Enriched(unit: string, desc: string, field: string): (string, string) {
    EnrichedWith(FieldNotes, Heuristics, unit, desc, field)
  }

  /** `enrich`: keep filled cells, then the field's note, then every
      matching heuristic in order. */
  method Enrich(unit: string, desc: string, field: string) returns (u: string, d: string)
    ensures (u, d) == Enriched(unit, desc, field)
  {
    u, d := EnrichBy(FieldNotes, Heuristics, unit, desc, field);
  }

  method EnrichBy(notes: map<string, (string, string)>, hs: seq<Heuristic>, unit: string, desc: string, field: string) returns (u: string, d: string)
    ensures (u, d) == EnrichedWith(notes, hs, unit, desc, field)
  {
    if unit != "" && desc != "" {
      return unit, desc;
    }
    u, d := unit, desc;
    if field in notes {
      var (nu, nd) := notes[field];
      u := Fill(u, nu);
      d := Fill(d, nd);
    }
    ghost var start := (u, d);
    for k := 0 to |hs|
      invariant (u, d) == HeuristicsFold(hs[..k], field, start)
    {
      assert hs[..k + 1][..k] == hs[..k];
      if Matches(hs[k], field) {
        u := Fill(u, hs[k].unit);
        d := Fill(d, hs[k].desc);
      }
    }
    assert hs[..|hs|] == hs;
  }

  // ---------------------------------------------------------------------
  // The precedence rules

  /** The first non-empty string of `xs`, or `""`. */
  function FirstNonEmpty(xs: seq<string>): (r: string)
    ensures r == "" <==> forall i :: 0 <= i < |xs| ==> xs[i] == ""
    ensures r != "" ==> exists i :: 0 <= i < |xs| && xs[i] == r && forall j :: 0 <= j < i ==> xs[j] == ""
    decreases |xs|
  {
    if |xs| == 0 then ""
    else if xs[0] != "" then xs[0]
    else
      var r := FirstNonEmpty(xs[1..]);
      assert forall i :: 1 <= i < |xs| ==> xs[i] == xs[1..][i - 1];
      r
  }

  lemma {:induction false} FirstNonEmptySnoc(xs: seq<string>, y: string)
    ensures FirstNonEmpty(xs + [y]) == Fill(FirstNonEmpty(xs), y)
    decreases |xs|
  {
    if |xs| > 0 {
      assert (xs + [y])[1..] == xs[1..] + [y];
      FirstNonEmptySnoc(xs[1..], y);
    }
  }

  function MatchesField(field: string): Heuristic -> bool {
    h => Matches(h, field)
  }

  function UnitOf(h: Heuristic): string {
    h.unit
  }

  function DescOf(h: Heuristic): string {
    h.desc
  }

  /** The heuristics fill each slot with the first non-empty value among
      the slot itself and the matching heuristics, in list order. */
  lemma {:induction false} HeuristicsFirstMatch(hs: seq<Heuristic>, field: string, ud: (string, string))
    ensures HeuristicsFold(hs, field, ud).0 == FirstNonEmpty([ud.0] + Map(Filter(hs, MatchesField(field)), UnitOf))
    ensures HeuristicsFold(hs, field, ud).1 == FirstNonEmpty([ud.1] + Map(Filter(hs, MatchesField(field)), DescOf))
    decreases |hs|
  {
    if |hs| > 0 {
      var p := hs[..|hs| - 1];
      var h := hs[|hs| - 1];
      assert hs == p + [h];
      HeuristicsFirstMatch(p, field, ud);
      FilterSnoc(p, h, MatchesField(field));
      var f := Filter(p, MatchesField(field));
      if Matches(h, field) {
        MapAppend(f, [h], UnitOf);
        MapAppend(f, [h], DescOf);
        assert [ud.0] + Map(f + [h], UnitOf) == ([ud.0] + Map(f, UnitOf)) + [h.unit];
        assert [ud.1] + Map(f + [h], DescOf) == ([ud.1] + Map(f, DescOf)) + [h.desc];
        FirstNonEmptySnoc([ud.0] + Map(f, UnitOf), h.unit);
        FirstNonEmptySnoc([ud.1] + Map(f, DescOf), h.desc);
      }
    }
  }

  /** A cell that already holds a value is never replaced, and a row with
      both cells filled is returned as it is. */
  lemma EnrichKeepsFilled(notes: map<string, (string, string)>, hs: seq<Heuristic>, unit: string, desc: string, field: string)
    ensures unit != "" ==> EnrichedWith(notes, hs, unit, desc, field).0 == unit
    ensures desc != "" ==> EnrichedWith(notes, hs, unit, desc, field).1 == desc
    ensures unit != "" && desc != "" ==> EnrichedWith(notes, hs, unit, desc, field) == (unit, desc)
  {
    HeuristicsFirstMatch(hs, field, NotesStep(notes, field, (unit, desc)));
  }

  /** A field's note wins over the heuristics for every slot it fills; a
      slot neither the cell nor the note fills gets the first matching
      heuristic's value. */
  lemma EnrichPrecedence(notes: map<string, (string, string)>, hs: seq<Heuristic>, unit: string, desc: string, field: string)
    requires unit == "" || desc == ""
    ensures unit == "" && field in notes && notes[field].0 != "" ==> EnrichedWith(notes, hs, unit, desc, field).0 == notes[field].0
    ensures desc == "" && field in notes && notes[field].1 != "" ==> EnrichedWith(notes, hs, unit, desc, field).1 == notes[field].1
    ensures unit == "" && (field !in notes || notes[field].0 == "") ==>
      EnrichedWith(notes, hs, unit, desc, field).0 == FirstNonEmpty(Map(Filter(hs, MatchesField(field)), UnitOf))
    ensures desc == "" && (field !in notes || notes[field].1 == "") ==>
      EnrichedWith(notes, hs, unit, desc, field).1 == FirstNonEmpty(Map(Filter(hs, MatchesField(field)), DescOf))
  {
    var ud := NotesStep(notes, field, (unit, desc));
    HeuristicsFirstMatch(hs, field, ud);
    var us := Map(Filter(hs, MatchesField(field)), UnitOf);
    var ds := Map(Filter(hs, MatchesField(field)), DescOf);
    assert ([""] + us)[1..] == us;
    assert ([""] + ds)[1..] == ds;
  }

  /** `medium.track[].length` takes its note, not the length heuristic
      that also matches it. */
  lemma EnrichTrackLength()
    ensures Enriched("", "", "medium.track[].length") == ("ms", "Track length in milliseconds")
    ensures Matches(Heuristics[1], "medium.track[].length")
  {
    var field := "medium.track[].length";
    assert field in FieldNotes && FieldNotes[field] == ("ms", "Track length in milliseconds");
    EnrichPrecedence(FieldNotes, Heuristics, "", "", field);
    LengthPattern();
  }

  /** A field without a note that no heuristic matches keeps its cells. */
  lemma EnrichUnknownField(notes: map<string, (string, string)>, hs: seq<Heuristic>, unit: string, desc: string, field: string)
    requires field !in notes
    requires forall k :: 0 <= k < |hs| ==> !Matches(hs[k], field)
    ensures EnrichedWith(notes, hs, unit, desc, field) == (unit, desc)
  {
    HeuristicsFirstMatch(hs, field, (unit, desc));
    FilterAll(hs, Not(MatchesField(field)));
    FilterPartition(hs, MatchesField(field));
    assert Filter(hs, MatchesField(field)) == [];
    assert ([unit] + [])[1..] == [];
    assert ([desc] + [])[1..] == [];
  }

  // ---------------------------------------------------------------------
  // main: the header check and the row loop

  /** One data-dictionary row. */
  datatype DictRow = DictRow(table: string, field: string, kind: string, unit: string, description: string, sourceField: string)

  /** `want_cols`. */
  const WantCols: seq<string> := ["table", "field", "type", "unit", "description", "source_field"]

  /** The `SystemExit` for an unexpected header: what was read and what is
      wanted. */
  datatype UnexpectedHeader = UnexpectedHeader(got: Option<seq<string>>, want: seq<string>)

  function EnrichRow(r: DictRow): DictRow {
    r.(unit := Enriched(r.unit, r.description, r.field).0, description := Enriched(r.unit, r.description, r.field).1)
  }

  /** The rows `main` writes for a file with header `fieldnames` (`None`
      for an empty file) and rows `rows`, or the exit. */
  function EnrichedFile(fieldnames: Option<seq<string>>, rows: seq<DictRow>): Result<seq<DictRow>, UnexpectedHeader> {
    if fieldnames != Some(WantCols) then Failure(UnexpectedHeader(fieldnames, WantCols))
    else Success(Map(rows, EnrichRow))
  }

  /** `main`'s header check and row loop. */
  method EnrichFile(fieldnames: Option<seq<string>>, rows: seq<DictRow>) returns (r: Result<seq<DictRow>, UnexpectedHeader>)
    ensures r == EnrichedFile(fieldnames, rows)
  {
    if fieldnames != Some(WantCols) {
      return Failure(UnexpectedHeader(fieldnames, WantCols));
    }
    var out := [];
    for i := 0 to |rows|
      invariant out == Map(rows[..i], EnrichRow)
    {
      var row := rows[i];
      var u, d := Enrich(row.unit, row.description, row.field);
      MapPrefix(rows, i, EnrichRow);
      out := out + [row.(unit := u, description := d)];
    }
    assert rows[..|rows|] == rows;
    return Success(out);
  }

  /** `main` exits exactly when the header is not the wanted one;
      otherwise every row keeps its identifying cells and its filled
      cells. */
  lemma EnrichFileRows(fieldnames: Option<seq<string>>, rows: seq<DictRow>)
    ensures EnrichedFile(fieldnames, rows).Failure? <==> fieldnames != Some(WantCols)
    ensures EnrichedFile(fieldnames, rows).Success? ==>
      var out := EnrichedFile(fieldnames, rows).value;
      |out| == |rows| &&
      forall i :: 0 <= i < |rows| ==>
        out[i].table == rows[i].table && out[i].field == rows[i].field &&
        out[i].kind == rows[i].kind && out[i].sourceField == rows[i].sourceField &&
        (rows[i].unit != "" ==> out[i].unit == rows[i].unit) &&
        (rows[i].description != "" ==> out[i].description == rows[i].description)
  {
    forall i | 0 <= i < |rows| {
      EnrichKeepsFilled(FieldNotes, Heuristics, rows[i].unit, rows[i].description, rows[i].field);
    }
  }
}
