/** `app/schema.py`: the column-name canonicaliser the marts apply to the
    frames they read (known aliases, the id column, a few title/name
    fallbacks) and the required-column check that either returns the
    canonical frame, an empty frame, or raises `KeyError`. */
module Schema {
  import opened Wrappers
  import opened Seqs
  import opened PyText
  import opened Ordering

  /** A data frame as the resolver sees it: its column labels in order and
      its number of rows. Renaming never touches the cells. */
  datatype Frame = Frame(columns: seq<string>, rows: nat)

  /** `df is None or df.empty`; pandas calls a frame empty when it has no
      rows or no columns. */
  predicate Vacant(df: Option<Frame>) {
    df.None? || df.value.rows == 0 || |df.value.columns| == 0
  }

  /** `SINGULAR`. */
  const Singular: map<string, string> := map[
    "artists" := "artist",
    "recordings" := "recording",
    "release_groups" := "release_group",
    "releases" := "release",
    "tracks" := "track",
    "entity_genres" := "entity"]

  const ArtistAliases: map<string, string> := map[
    "mbid" := "artist_mbid",
    "gid" := "artist_mbid",
    "artist_id" := "artist_mbid",
    "id" := "artist_mbid",
    "artist_name" := "name",
    "title" := "name"]

  const RgAliases: map<string, string> := map[
    "release_group_mbid" := "rg_mbid",
    "release_group_id" := "rg_mbid",
    "mbid" := "rg_mbid",
    "gid" := "rg_mbid",
    "id" := "rg_mbid",
    "name" := "title",
    "first-release-date" := "first_release_date",
    "primary-type" := "primary_type",
    "artist-credit" := "artist_credit"]

  const RecordingAliases: map<string, string> := map[
    "mbid" := "recording_mbid",
    "gid" := "recording_mbid",
    "id" := "recording_mbid",
    "title" := "name",
    "artist-credit" := "artist_credit",
    "artist_credit_name" := "artist_name",
    "artist-credit[].name" := "artist_name"]

  const GenreAliases: map<string, string> := map[
    "entity-type" := "entity_type",
    "entity-mbid" := "entity_mbid"]

  /** `ALIAS.get(table, {})`. */
  function AliasMap(table: string): map<string, string> {
    if table == "artists" then ArtistAliases
    else if table == "release_groups" then RgAliases
    else if table == "recordings" then RecordingAliases
    else if table == "entity_genres" then GenreAliases
    else map[]
  }

  /** `EMPTY_SCHEMA.get(table, [])`. */
  function EmptySchema(table: string): seq<string> {
    if table == "artists" then ["artist_mbid", "name"]
    else if table == "release_groups" then ["rg_mbid", "title", "primary_type", "first_release_date", "artist_credit"]
    else if table == "recordings" then ["recording_mbid", "name", "artist_credit", "artist_name"]
    else if table == "entity_genres" then ["entity_type", "entity_mbid", "genre"]
    else []
  }

  /** The tables with an alias map, and those with an empty schema. */
  const AliasedTables: set<string> := {"artists", "release_groups", "recordings", "entity_genres"}

  /** `_target_mbid(table)`: the name the id column is given. */
  function TargetMbid(table: string): (r: string)
    ensures |r| >= 5 && r[|r| - 5..] == "_mbid"
    ensures table == "release_groups" ==> r == "rg_mbid"
    ensures table != "release_groups" && table !in Singular ==> r == table + "_mbid"
  {
    if table == "release_groups" then "rg_mbid"
    else (if table in Singular then Singular[table] else table) + "_mbid"
  }

  /** The id column the resolver aims for is the one the aliases produce
      and the one the empty schema declares, for every table that has
      both. */
  lemma TargetMbidAgrees(table: string)
    requires table in AliasedTables
    ensures TargetMbid(table) in AliasMap(table).Values
    ensures TargetMbid(table) in EmptySchema(table)
  {
    if table == "artists" {
      assert ArtistAliases["id"] == "artist_mbid" == TargetMbid(table);
    } else if table == "release_groups" {
      assert RgAliases["id"] == "rg_mbid" == TargetMbid(table);
    } else if table == "recordings" {
      assert RecordingAliases["id"] == "recording_mbid" == TargetMbid(table);
    } else {
      assert GenreAliases["entity-mbid"] == "entity_mbid" == TargetMbid(table);
    }
  }

  // ---------------------------------------------------------------------
  // _apply_aliases

  /** `c.replace("-", "_")`. */
  function Underscored(c: string): string {
    ReplaceChar(c, '-', '_')
  }

  /** The name `_apply_aliases` gives column `c` under alias map `m`: its
      own alias, else the alias of its underscore spelling, else `c`. */
  function AliasOf(m: map<string, string>, c: string): string {
    if c in m then m[c]
    else if Underscored(c) != c && Underscored(c) in m then m[Underscored(c)]
    else c
  }

  function AliasRenamer(m: map<string, string>): string -> string {
    c => AliasOf(m, c)
  }

  function Renamer(m: map<string, string>): string -> string {
    c => if c in m then m[c] else c
  }

  /** `df.rename(columns=m)`: every column that is a key of `m` gets its
      value, the others keep their name. */
  function Rename(f: Frame, m: map<string, string>): Frame {
    Frame(Map(f.columns, Renamer(m)), f.rows)
  }

  /** What `_apply_aliases` returns for alias map `m`. */
  function AliasesAppliedWith(m: map<string, string>, df: Option<Frame>): Option<Frame> {
    if Vacant(df) then df
    else Some(Frame(Map(df.value.columns, AliasRenamer(m)), df.value.rows))
  }

  /** What `_apply_aliases(table, df)` returns. */
  function AliasesApplied(table: string, df: Option<Frame>): Option<Frame> {
    AliasesAppliedWith(AliasMap(table), df)
  }

  /** `_apply_aliases(table, df)`. */
  method ApplyAliases(table: string, df: Option<Frame>) returns (r: Option<Frame>)
    ensures r == AliasesApplied(table, df)
  {
    r := ApplyAliasMap(AliasMap(table), df);
  }

  /** The body of `_apply_aliases` for `mapping == ALIAS.get(table, {})`:
      the direct aliases of the present columns, then the underscore
      spellings of columns not yet scheduled; one rename at the end when
      anything was scheduled. */
  method ApplyAliasMap(mapping: map<string, string>, df: Option<Frame>) returns (r: Option<Frame>)
    ensures r == AliasesAppliedWith(mapping, df)
  {
    if Vacant(df) {
      return df;
    }
    var cols := df.value.columns;
    var toRename := RenamePlan(mapping, cols);
    PlanRenames(cols, toRename, mapping);
    if |toRename| > 0 {
      r := Some(Rename(df.value, toRename));
    } else {
      r := df;
    }
  }

  /** The `to_rename` dict: the direct aliases of the present columns,
      then, column by column, the alias of the underscore spelling of a
      column not yet scheduled. */
  method RenamePlan(mapping: map<string, string>, cols: seq<string>) returns (toRename: map<string, string>)
    ensures forall c :: c in toRename ==> c in cols && Scheduled(toRename, mapping, c)
    ensures forall j :: 0 <= j < |cols| ==> cols[j] in toRename || AliasOf(mapping, cols[j]) == cols[j]
  {
    toRename := map c | c in mapping && c in cols :: mapping[c];
    for k := 0 to |cols|
      invariant forall c :: c in toRename ==> c in cols && Scheduled(toRename, mapping, c)
      invariant forall c :: c in cols && c in mapping ==> c in toRename
      invariant forall j :: 0 <= j < k ==> cols[j] in toRename || AliasOf(mapping, cols[j]) == cols[j]
    {
      var c := cols[k];
      var cu := ReplaceChar(c, '-', '_');
      if cu != c && cu in mapping && c !in toRename {
        toRename := toRename[c := mapping[cu]];
      }
    }
  }

  /** A rename plan that maps each scheduled column to its alias, and
      schedules every column whose alias differs from it, renames the
      columns to their aliases; an empty plan leaves them as they are. */
  lemma PlanRenames(cols: seq<string>, plan: map<string, string>, m: map<string, string>)
    requires forall c :: c in plan ==> Scheduled(plan, m, c)
    requires forall j :: 0 <= j < |cols| ==> cols[j] in plan || AliasOf(m, cols[j]) == cols[j]
    ensures Map(cols, Renamer(plan)) == Map(cols, AliasRenamer(m))
    ensures |plan| == 0 ==> Map(cols, AliasRenamer(m)) == cols
  {
    if |plan| == 0 {
      assert Map(cols, AliasRenamer(m)) == cols;
    }
  }

  predicate Scheduled(plan: map<string, string>, m: map<string, string>, c: string)
    requires c in plan
  {
    plan[c] == AliasOf(m, c)
  }

  /** A column keeps its name unless it or its underscore spelling is an
      alias; otherwise it is renamed to an alias target, its own alias
      taking precedence. Rows and the number of columns are unchanged. */
  lemma AliasesRename(table: string, df: Option<Frame>, i: int)
    requires !Vacant(df) && 0 <= i < |df.value.columns|
    ensures AliasesApplied(table, df).Some?
    ensures |AliasesApplied(table, df).value.columns| == |df.value.columns|
    ensures AliasesApplied(table, df).value.rows == df.value.rows
    ensures
      var m := AliasMap(table);
      var c := df.value.columns[i];
      var d := AliasesApplied(table, df).value.columns[i];
      (c in m ==> d == m[c]) &&
      (c !in m && Underscored(c) in m ==> d == m[Underscored(c)]) &&
      (c !in m && Underscored(c) !in m ==> d == c)
  {
    var c := df.value.columns[i];
    if c !in AliasMap(table) && Underscored(c) == c {
      assert Underscored(c) !in AliasMap(table);
    }
  }

  predicate NoDash(c: string) {
    forall i :: 0 <= i < |c| ==> c[i] != '-'
  }

  /** No alias target is itself an alias key, or has a dash. */
  predicate CanonicalTargets(m: map<string, string>) {
    forall k :: k in m ==> m[k] !in m && NoDash(m[k])
  }

  /** Every table's alias map has canonical targets. */
  lemma AliasMapCanonical(table: string)
    ensures CanonicalTargets(AliasMap(table))
  {
    if table == "artists" {
      ArtistAliasesCanonical();
      assert AliasMap(table) == ArtistAliases;
    } else if table == "release_groups" {
      RgAliasesCanonical();
      assert AliasMap(table) == RgAliases;
    } else if table == "recordings" {
      RecordingAliasesCanonical();
      assert AliasMap(table) == RecordingAliases;
    } else if table == "entity_genres" {
      assert NoDash("entity_type") && NoDash("entity_mbid");
      assert AliasMap(table) == GenreAliases;
    } else {
      assert AliasMap(table) == map[];
    }
  }

  lemma ArtistAliasesCanonical()
    ensures CanonicalTargets(ArtistAliases)
  {
    assert NoDash("artist_mbid") && NoDash("name");
  }

  lemma RgAliasesCanonical()
    ensures CanonicalTargets(RgAliases)
  {
    assert NoDash("rg_mbid") && NoDash("title") && NoDash("first_release_date");
    assert NoDash("primary_type") && NoDash("artist_credit");
  }

  lemma RecordingAliasesCanonical()
    ensures CanonicalTargets(RecordingAliases)
  {
    assert NoDash("recording_mbid") && NoDash("name") && NoDash("artist_credit") && NoDash("artist_name");
  }

  /** A name without a dash is its own underscore spelling. */
  lemma UnderscoredNoDash(c: string)
    requires NoDash(c)
    ensures Underscored(c) == c
  {
  }

  /** Canonical names are fixed points: applying the aliases to their
      result changes nothing. */
  lemma AliasesIdempotent(table: string, df: Option<Frame>)
    ensures AliasesApplied(table, AliasesApplied(table, df)) == AliasesApplied(table, df)
  {
    AliasMapCanonical(table);
    AliasesIdempotentWith(AliasMap(table), df);
  }

  lemma AliasesIdempotentWith(m: map<string, string>, df: Option<Frame>)
    requires CanonicalTargets(m)
    ensures AliasesAppliedWith(m, AliasesAppliedWith(m, df)) == AliasesAppliedWith(m, df)
  {
    if !Vacant(df) {
      var once := AliasesAppliedWith(m, df).value.columns;
      forall i | 0 <= i < |once| ensures AliasOf(m, once[i]) == once[i] {
        var c := df.value.columns[i];
        var k := if c in m then c else Underscored(c);
        if k in m && once[i] == m[k] {
          UnderscoredNoDash(m[k]);
        }
      }
      assert Map(once, AliasRenamer(m)) == once;
    }
  }

  // ---------------------------------------------------------------------
  // _ensure_id

  /** The columns `_ensure_id` tries, in order. */
  function Candidates(table: string): seq<string> {
    if table == "release_groups" then ["rg_mbid", "release_group_mbid", "release_group_id", "mbid", "gid", "id"]
    else if table == "artists" then ["artist_mbid", "artist_id", "mbid", "gid", "id"]
    else if table == "recordings" then ["recording_mbid", "mbid", "gid", "id"]
    else [(if table in Singular then Singular[table] else table) + "_mbid", "mbid", "gid", "id"]
  }

  /** The position of the first of `cands` that is among `cols`. */
  function FirstPresent(cands: seq<string>, cols: seq<string>): (r: Option<nat>)
    ensures r.Some? ==> r.value < |cands| && cands[r.value] in cols
    ensures r.Some? ==> forall j :: 0 <= j < r.value ==> cands[j] !in cols
    ensures r.None? <==> forall j :: 0 <= j < |cands| ==> cands[j] !in cols
    decreases |cands|
  {
    if |cands| == 0 then None
    else if cands[0] in cols then Some(0)
    else
      match FirstPresent(cands[1..], cols)
      case Some(i) => Some(i + 1)
      case None => None
  }

  /** What `_ensure_id` returns for id column `target` and candidates
      `cands`. */
  function IdEnsuredWith(target: string, cands: seq<string>, df: Option<Frame>): Option<Frame> {
    if Vacant(df) || target in df.value.columns then df
    else
      match FirstPresent(cands, df.value.columns)
      case None => df
      case Some(i) => Some(Rename(df.value, map[cands[i] := target]))
  }

  /** What `_ensure_id(table, df)` returns. */
  function IdEnsured(table: string, df: Option<Frame>): Option<Frame> {
    IdEnsuredWith(TargetMbid(table), Candidates(table), df)
  }

  /** `_ensure_id`: nothing to do when the id column exists; otherwise the
      first candidate present is renamed to it. */
  method EnsureId(table: string, df: Option<Frame>) returns (r: Option<Frame>)
    ensures r == IdEnsured(table, df)
  {
    r := EnsureIdWith(TargetMbid(table), Candidates(table), df);
  }

  /** The body of `_ensure_id` once the id column and the candidates are
      chosen: the scan over the candidates with its early return. */
  method EnsureIdWith(target: string, candidates: seq<string>, df: Option<Frame>) returns (r: Option<Frame>)
    ensures r == IdEnsuredWith(target, candidates, df)
  {
    if Vacant(df) {
      return df;
    }
    var cols := df.value.columns;
    if target in cols {
      return df;
    }
    for k := 0 to |candidates|
      invariant forall j :: 0 <= j < k ==> candidates[j] !in cols
    {
      if candidates[k] in cols {
        return Some(Rename(df.value, map[candidates[k] := target]));
      }
    }
    return df;
  }

  /** After `_ensure_id` a non-empty frame has the id column exactly when
      it had it already or had one of the candidates. */
  lemma EnsureIdTarget(table: string, df: Option<Frame>)
    requires !Vacant(df)
    ensures IdEnsured(table, df).Some?
    ensures IdEnsured(table, df).value.rows == df.value.rows
    ensures TargetMbid(table) in IdEnsured(table, df).value.columns <==>
      TargetMbid(table) in df.value.columns || exists j :: 0 <= j < |Candidates(table)| && Candidates(table)[j] in df.value.columns
  {
    EnsureIdTargetWith(TargetMbid(table), Candidates(table), df);
  }

  lemma EnsureIdTargetWith(target: string, cands: seq<string>, df: Option<Frame>)
    requires !Vacant(df)
    ensures IdEnsuredWith(target, cands, df).Some?
    ensures IdEnsuredWith(target, cands, df).value.rows == df.value.rows
    ensures |IdEnsuredWith(target, cands, df).value.columns| == |df.value.columns|
    ensures target in IdEnsuredWith(target, cands, df).value.columns <==>
      target in df.value.columns || exists j :: 0 <= j < |cands| && cands[j] in df.value.columns
  {
    var cols := df.value.columns;
    if target !in cols {
      match FirstPresent(cands, cols)
      case Some(i) =>
        var c := cands[i];
        var k :| 0 <= k < |cols| && cols[k] == c;
        assert IdEnsuredWith(target, cands, df).value.columns[k] == target;
      case None =>
    }
  }

  /** Renaming to the id column replaces only the chosen candidate. */
  lemma EnsureIdRenamesCandidate(table: string, df: Option<Frame>, i: int)
    requires !Vacant(df) && TargetMbid(table) !in df.value.columns
    requires FirstPresent(Candidates(table), df.value.columns) == Some(i)
    ensures |IdEnsured(table, df).value.columns| == |df.value.columns|
    ensures forall k :: 0 <= k < |df.value.columns| ==>
      IdEnsured(table, df).value.columns[k] == (if df.value.columns[k] == Candidates(table)[i] then TargetMbid(table) else df.value.columns[k])
  {
    EnsureIdRenamesWith(TargetMbid(table), Candidates(table), df, i);
  }

  lemma EnsureIdRenamesWith(target: string, cands: seq<string>, df: Option<Frame>, i: int)
    requires !Vacant(df) && target !in df.value.columns
    requires FirstPresent(cands, df.value.columns) == Some(i)
    ensures |IdEnsuredWith(target, cands, df).value.columns| == |df.value.columns|
    ensures forall k :: 0 <= k < |df.value.columns| ==>
      IdEnsuredWith(target, cands, df).value.columns[k] == (if df.value.columns[k] == cands[i] then target else df.value.columns[k])
  {
  }

  // ---------------------------------------------------------------------
  // canonicalize

  /** The title/name fallbacks `canonicalize` applies to a non-empty frame. */
  function Fallbacks(table: string, f: Frame): Frame {
    if table == "release_groups" && "title" !in f.columns && "name" in f.columns then Rename(f, map["name" := "title"])
    else if table == "artists" && "name" !in f.columns && "artist_name" in f.columns then Rename(f, map["artist_name" := "name"])
    else if table == "recordings" && "name" !in f.columns && "title" in f.columns then Rename(f, map["title" := "name"])
    else f
  }

  /** What `canonicalize(table, df)` returns. */
  function Canonical(table: string, df: Option<Frame>): Option<Frame> {
    var d := IdEnsured(table, AliasesApplied(table, df));
    if Vacant(d) then d else Some(Fallbacks(table, d.value))
  }

  /** `canonicalize`: aliases, then the id column, then the fallbacks. */
  method Canonicalize(table: string, df: Option<Frame>) returns (r: Option<Frame>)
    ensures r == Canonical(table, df)
  {
    r := ApplyAliases(table, df);
    r := EnsureId(table, r);
    if !Vacant(r) {
      r := Some(Fallbacks(table, r.value));
    }
  }

  /** A missing or empty frame passes through every step unchanged. */
  lemma CanonicalKeepsVacant(table: string, df: Option<Frame>)
    requires Vacant(df)
    ensures AliasesApplied(table, df) == df && IdEnsured(table, df) == df
    ensures Canonical(table, df) == df
  {
  }

  /** A non-empty frame stays non-empty, with its rows. */
  lemma CanonicalKeepsShape(table: string, df: Option<Frame>)
    requires !Vacant(df)
    ensures !Vacant(Canonical(table, df))
    ensures Canonical(table, df).value.rows == df.value.rows
    ensures |Canonical(table, df).value.columns| == |df.value.columns|
  {
    var a := AliasesApplied(table, df);
    EnsureIdTarget(table, a);
    var d := IdEnsured(table, a);
    assert |d.value.columns| == |a.value.columns|;
    var f := Fallbacks(table, d.value);
    assert |f.columns| == |d.value.columns| && f.rows == d.value.rows;
    assert Canonical(table, df) == Some(f);
  }

  /** The fallbacks never fire: the name each of them would rename is an
      alias key of its table, so `_apply_aliases` has already renamed it
      and `_ensure_id` only introduces the id column. */
  lemma FallbacksInert(table: string, df: Option<Frame>)
    ensures Canonical(table, df) == IdEnsured(table, AliasesApplied(table, df))
  {
    var d := IdEnsured(table, AliasesApplied(table, df));
    if !Vacant(d) {
      if table == "release_groups" {
        RgAliasesCanonical();
        assert AliasMap(table) == RgAliases && "name" in RgAliases;
        AliasedAway(table, df, "name");
        assert Fallbacks(table, d.value) == d.value;
      } else if table == "artists" {
        ArtistAliasesCanonical();
        assert AliasMap(table) == ArtistAliases && "artist_name" in ArtistAliases;
        AliasedAway(table, df, "artist_name");
        assert Fallbacks(table, d.value) == d.value;
      } else if table == "recordings" {
        RecordingAliasesCanonical();
        assert AliasMap(table) == RecordingAliases && "title" in RecordingAliases;
        AliasedAway(table, df, "title");
        assert Fallbacks(table, d.value) == d.value;
      }
    }
  }

  /** An alias key that is not the id column never survives the first two
      steps of `canonicalize`. */
  lemma AliasedAway(table: string, df: Option<Frame>, name: string)
    requires !Vacant(df) && CanonicalTargets(AliasMap(table)) && name in AliasMap(table)
    requires name != TargetMbid(table)
    ensures name !in IdEnsured(table, AliasesApplied(table, df)).value.columns
  {
    AliasedAwayWith(AliasMap(table), TargetMbid(table), Candidates(table), df, name);
  }

  lemma AliasedAwayWith(m: map<string, string>, target: string, cands: seq<string>, df: Option<Frame>, name: string)
    requires !Vacant(df) && CanonicalTargets(m) && name in m && name != target
    ensures AliasesAppliedWith(m, df).Some?
    ensures name !in IdEnsuredWith(target, cands, AliasesAppliedWith(m, df)).value.columns
  {
    var a := AliasesAppliedWith(m, df);
    assert name !in a.value.columns by {
      forall i | 0 <= i < |a.value.columns| ensures a.value.columns[i] != name {
        var c := df.value.columns[i];
        var k := if c in m then c else Underscored(c);
        if !(k in m && a.value.columns[i] == m[k]) {
          assert a.value.columns[i] == c;
        }
      }
    }
    EnsureIdTargetWith(target, cands, a);
    if target !in a.value.columns {
      match FirstPresent(cands, a.value.columns)
      case Some(i) =>
        EnsureIdRenamesWith(target, cands, a, i);
      case None =>
    }
  }

  // ---------------------------------------------------------------------
  // empty, require, _raise

  /** `empty(table, required)`: a frame without rows whose columns are
      `required` when it is given and non-empty, else the table's empty
      schema. */
  function EmptyFrame(table: string, required: Option<seq<string>>): (r: Frame)
    ensures r.rows == 0
    ensures required.Some? && |required.value| > 0 ==> r.columns == required.value
    ensures (required.None? || |required.value| == 0) ==> r.columns == EmptySchema(table)
  {
    Frame(if required.Some? && |required.value| > 0 then required.value else EmptySchema(table), 0)
  }

  /** The `KeyError` `_raise` raises: the table, the sorted missing
      columns and the columns present. */
  datatype MissingColumns = MissingColumns(table: string, missing: seq<string>, present: seq<string>)

  function NotIn(cols: seq<string>): string -> bool {
    c => c !in cols
  }

  /** `_raise(table, present, required)`: names `sorted(set(required) -
      set(present))`. */
  function Raise(table: string, present: seq<string>, required: seq<string>): (e: MissingColumns)
    ensures e.table == table && e.present == present
    ensures StrictlySorted(e.missing)
    ensures forall c :: c in e.missing <==> c in required && c !in present
  {
    MissingColumns(table, SortedDistinct(Filter(required, NotIn(present))), present)
  }

  /** What `require(table, df, required, allow_empty=allowEmpty)` returns
      or raises. */
  function Required(table: string, df: Option<Frame>, required: seq<string>, allowEmpty: bool): Result<Frame, MissingColumns> {
    Checked(table, Canonical(table, df), required, allowEmpty)
  }

  /** The part of `require` after `canonicalize` produced `d`. */
  function Checked(table: string, d: Option<Frame>, required: seq<string>, allowEmpty: bool): Result<Frame, MissingColumns> {
    if Vacant(d) then
      if allowEmpty then Success(EmptyFrame(table, Some(required))) else Failure(Raise(table, [], required))
    else if |Filter(required, NotIn(d.value.columns))| > 0 then Failure(Raise(table, d.value.columns, required))
    else Success(d.value)
  }

  /** `require`: the canonical frame, an empty one, or the `KeyError`. */
  method Require(table: string, df: Option<Frame>, required: seq<string>, allowEmpty: bool) returns (r: Result<Frame, MissingColumns>)
    ensures r == Required(table, df, required, allowEmpty)
  {
    var d := Canonicalize(table, df);
    if Vacant(d) {
      if allowEmpty {
        return Success(EmptyFrame(table, Some(required)));
      }
      return Failure(Raise(table, [], required));
    }
    var missing := Filter(required, NotIn(d.value.columns));
    if |missing| > 0 {
      return Failure(Raise(table, d.value.columns, required));
    }
    return Success(d.value);
  }

  /** A frame `require` hands back has every required column: the
      canonical frame itself, or an empty frame built from `required`. */
  lemma RequiredHasColumns(table: string, d: Option<Frame>, required: seq<string>, allowEmpty: bool)
    requires Checked(table, d, required, allowEmpty).Success?
    ensures |required| > 0 ==> forall c :: c in required ==> c in Checked(table, d, required, allowEmpty).value.columns
    ensures !Vacant(d) ==> Checked(table, d, required, allowEmpty).value == d.value
    ensures Vacant(d) ==> Checked(table, d, required, allowEmpty).value.rows == 0
  {
  }

  /** `require` raises exactly when the frame is missing or empty and that
      is not allowed, or when a required column is still absent after
      canonicalisation; the error names the sorted missing columns. */
  lemma RequiredFails(table: string, d: Option<Frame>, required: seq<string>, allowEmpty: bool)
    ensures Checked(table, d, required, allowEmpty).Failure? <==>
      (Vacant(d) && !allowEmpty) || (!Vacant(d) && exists c :: c in required && c !in d.value.columns)
    ensures
      var r := Checked(table, d, required, allowEmpty);
      r.Failure? ==>
        r.error.table == table && StrictlySorted(r.error.missing) &&
        r.error.present == (if Vacant(d) then [] else d.value.columns) &&
        forall c :: c in r.error.missing <==> c in required && c !in r.error.present
  {
    if !Vacant(d) {
      var missing := Filter(required, NotIn(d.value.columns));
      if |missing| > 0 {
        assert missing[0] in missing;
      }
      if exists c :: c in required && c !in d.value.columns {
        var c :| c in required && c !in d.value.columns;
        assert c in missing;
      }
    }
  }

  /** An artists frame with columns `id` and `name` satisfies the artists
      requirement: `id` is renamed to `artist_mbid`. */
  lemma RequireArtistsById(rows: nat)
    requires rows > 0
    ensures Required("artists", Some(Frame(["id", "name"], rows)), ["artist_mbid", "name"], true) ==
      Success(Frame(["artist_mbid", "name"], rows))
  {
    var cols := ["artist_mbid", "name"];
    ArtistsAliasById(rows);
    assert IdEnsured("artists", Some(Frame(cols, rows))) == Some(Frame(cols, rows)) by {
      assert TargetMbid("artists") == cols[0];
    }
    assert Fallbacks("artists", Frame(cols, rows)) == Frame(cols, rows) by {
      assert "name" == cols[1];
    }
    assert Filter(cols, NotIn(cols)) == [];
  }

  lemma ArtistsAliasById(rows: nat)
    requires rows > 0
    ensures AliasesApplied("artists", Some(Frame(["id", "name"], rows))) == Some(Frame(["artist_mbid", "name"], rows))
  {
    UnderscoredNoDash("name");
    assert "id" in ArtistAliases && "name" !in ArtistAliases;
    var once := Map(["id", "name"], AliasRenamer(ArtistAliases));
    assert once[0] == "artist_mbid" && once[1] == "name";
    assert once == ["artist_mbid", "name"];
  }
}
