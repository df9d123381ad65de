# music-explorer batch transform, modelled in Dafny

This project models the batch transform of the music-explorer repository: MusicBrainz JSON payloads become clean tables, clean tables become marts, and the data dictionary is scaffolded and enriched. Each transform is modelled in Dafny, and the properties the code promises are proved about the model. The models of the seven core files are:

- `clean_utils.dfy` (`CleanUtils`): the field normalisers `parse_date`, `to_ms`, `is_uuid` and `norm_country`. It includes a model of `datetime.strptime` for the three formats `parse_date` tries and of `strftime("%Y-%m-%d")`.
- `clean.dfy` (`Clean`): the clean layer. It holds the row extraction from nested payloads, the id-shape check and the keep-first primary-key deduplication of `_write`. The module-level reject log and the written tables are the fields of the class `CleanLayer`, whose methods are the `clean_*` functions.
- `schema.dfy` (`Schema`): the column-name canonicaliser `SchemaResolver`. It covers alias renaming, id-column discovery, the title/name fallbacks, `empty` and `require`.
- `build.dfy`, `build_marts.dfy`, `build_edges.dfy` and `build_pipeline.dfy` (`Build`, `BuildMarts`, `BuildEdges`, `BuildPipeline`): the marts builder of `app/pipeline/build.py`.
  - It covers `split_credit`, the whole-word matcher and `name_to_id`, and the discography resolution loop with its token fallback.
  - It also covers the artists, primary-artist, year and decade marts, and the id- and name-based collaboration edges.
  - Finally it covers `collabs_from_recordings` and the fallback to it, and `build()` as one method.
- `build_discog.dfy` (`BuildDiscog`): the recording-based discography of `app/pipeline/build_discog.py`. It covers `_yr`, the release-group field fallback chain, the row derivation and deduplication, and the stable sort with nulls last.
- `marts_relations.dfy` (`MartsRelations`): `_safe`, artist roles, the producer-performer network, label affiliations, releases by country and year, and the genre co-occurrence matrix.
- `enrich_dictionary.dfy` and `emit_dictionary.dfy` (`EnrichDictionary`, `EmitDictionary`): the data-dictionary tools.
  - `enrich` fills cells by note, then by heuristic.
  - `main` checks the header.
  - `infer_table_from_filename`, `walk` and `emit_rows` are modelled. `walk` is a method of the class `PathTypes`, whose field is the dictionary it mutates.
  - The root selection and the per-table loop of `process_file` are modelled.

Support modules:

- `Wrappers`: Option and Result.
- `PyJson`: decoded JSON and `dict.get`, `in`, truthiness, `or` and `type().__name__`.
- `PyText`: `str.strip`, ASCII case mapping, substring search, `split`, `join` and `int()`.
- `Seqs`: filter, map, flat-map, count and keep-first deduplication.
- `Ordering`: Python string order, `sorted(set(...))`, the `i < j` pair loops and a sort.

The model follows the source's form:
- Loops in the source are methods with `while`/`for` loops. Each is proved equal to a specification function, and the promised properties are proved about that function.
- State the source mutates is the field of a class: the reject log and the written tables in `Clean.CleanLayer`, and `acc` in `EmitDictionary.PathTypes`.
- Pure code is functions and lemmas.

The model keeps three behaviours of the code as they are:
- Name-based collaboration edges compare names as they are. There is no case folding, accent stripping or white-space collapsing.
- No edge table drops pairs below a minimum weight.
- `split_credit("A, B, and C")` gives `["A", "B", "and C"]`, because the separator `" and "` needs a leading space.

Two more modelling notes:
- `SchemaResolver.require` raises `KeyError`. The model returns that error as the `Failure` of a Result, carrying the table, the present columns and the sorted missing columns.
- The pandas merge in `build_producer_network` pairs rows whose `target_id` is null with each other, as pandas does, and the model keeps that.

## Model

| member | source | states |
|---|---|---|
| Build.FirstReleaseYear | app/pipeline/build.py:94-96 | the derived year of the clean `YYYY-MM-DD` date, null when the date does not exist; any year is within 1..9999 |
| Build.SplitTokensNonEmpty | app/pipeline/build.py:100-117 | none of the sixteen separators is empty, so every `split` in the cascade is defined |
| Build.SplitEach | app/pipeline/build.py:122 | one round of the cascade leaves no fragment containing the round's separator |
| Build.CascadeKeepsAbsence | app/pipeline/build.py:121-122 | a string absent from the fragments stays absent through the later rounds |
| Build.CascadeRemoves | app/pipeline/build.py:121-122 | after all rounds no fragment contains any of the sixteen separators |
| Build.CascadeOfClean | app/pipeline/build.py:121-122 | a credit containing no separator passes the cascade as the single fragment |
| Build.StrippedPieces | app/pipeline/build.py:123 | the result holds exactly the stripped forms of the non-blank fragments |
| Build.SplitCredit | app/pipeline/build.py:119-125 | the loop that rebinds `parts` once per separator computes the tokens of the credit |
| Build.TokensClean | app/pipeline/build.py:119-125 | every token is non-empty, has no leading or trailing white space, contains none of the separators and is not a blocked name |
| Build.TokensOfOneName | app/pipeline/build.py:119-125 | a credit without separators yields its stripped self, or nothing when that is blank or blocked ("Various Artists") |
| Build.NoHitInsideWord | app/pipeline/build.py:132 | a name found only inside a longer run of word characters is not a hit ("Ora" in "Aurora") |
| Build.HitOfWholeCredit | app/pipeline/build.py:132 | a credit equal to the name in any letter case is a hit |
| Build.HitIgnoresCase | app/pipeline/build.py:132 | the matcher finds a name exactly when it finds its lower-case form |
| Build.Patterns | app/pipeline/build.py:128-136 | an `(id, name)` entry exists exactly for each artist whose name is a string that is not blank |
| Build.NameToId | app/pipeline/build.py:137-141 | a name is a key exactly when some artist carries it |
| Build.NameToIdLast | app/pipeline/build.py:137-141 | the id stored for a name is that of the last artist with that name |
| Build.Hits | app/pipeline/build.py:146 | the hits are the pattern entries whose matcher finds the credit, in table order |
| Build.Ids | app/pipeline/build.py:147-152 | `seen` holds exactly the ids of the entries kept so far |
| Build.Extend | app/pipeline/build.py:154-159 | the token fallback keeps the entries already found as a prefix, appends only known non-empty ids of tokens, and never repeats an id |
| Build.ResolveFrom | app/pipeline/build.py:146-159 | the resolved entries never repeat an id |
| Build.Resolve | app/pipeline/build.py:145-159 | the artists a credit resolves to never repeat an id |
| Build.ResolveFromShape | app/pipeline/build.py:146-159 | the deduplicated hits come first; with two or more of them nothing is added; anything added is a known non-empty id of a token |
| Build.ResolveFromKeepsHits | app/pipeline/build.py:146-152 | every hit's id is resolved, and the first hit carrying an id is kept as it is |
| Build.ResolveShape | app/pipeline/build.py:145-159 | the same shape for a credit: regex hits in table order first, the token fallback only below two hits |
| Build.ResolveKeepsHits | app/pipeline/build.py:146-152 | every matched artist is resolved, by the entry of its first hit |
| Build.KeepFirstHasKey | app/pipeline/build.py:149-152 | the `seen` loop keeps an id exactly when some hit has it |
| Build.DedupHits | app/pipeline/build.py:147-152 | the loop over the hits keeps the first entry per id, and `seen` ends as the set of kept ids |
| Build.ExtendByTokens | app/pipeline/build.py:154-159 | the loop over the credit's tokens computes the token fallback |
| Build.ResolveCredit | app/pipeline/build.py:145-159 | the resolution step of the discography loop computes the resolved entries of the credit |
| BuildMarts.RawRgs | app/pipeline/build.py:91-96 | `rgs_raw` keeps every release group, in order, each with its derived year |
| BuildMarts.RowsForMember | app/pipeline/build.py:160-171 | a row is appended exactly for each resolved entry of the release group |
| BuildMarts.DiscogRowsMember | app/pipeline/build.py:143-171 | a row is appended exactly for a release group with a non-null credit and an entry its credit resolves to |
| BuildMarts.Discography | app/pipeline/build.py:172-183 | the discography never holds two rows with the same `(artist_mbid, rg_mbid)` |
| BuildMarts.DiscographyByRows | app/pipeline/build.py:172-183 | the deduplication keeps only appended rows and keeps a row for every appended key |
| BuildMarts.DiscographySound | app/pipeline/build.py:143-183 | every discography row comes from a credited release group and an artist its credit resolves to |
| BuildMarts.DiscographyComplete | app/pipeline/build.py:143-183 | every artist a credited release group resolves to has its `(artist, release group)` row |
| BuildMarts.AppendRows | app/pipeline/build.py:160-171 | the inner loop appends the rows of the resolved entries |
| BuildMarts.AppendResolved | app/pipeline/build.py:145-171 | one iteration resolves the credit and appends its rows |
| BuildMarts.BuildDiscography | app/pipeline/build.py:143-183 | the discography loop followed by the deduplication computes the discography |
| BuildMarts.ArtistsMart | app/pipeline/build.py:187-189 | the artists mart has no duplicate row and only rows of the artist table |
| BuildMarts.ArtistsMartKeepsAll | app/pipeline/build.py:187-189 | deduplication loses no artist row |
| BuildMarts.FirstKnownFinds | app/pipeline/build.py:197-201 | the fallback finds nothing exactly when no token is a known name, and otherwise returns the id of the first known token |
| BuildMarts.ExtendKeepsKnown | app/pipeline/build.py:154-159 | a known token with a non-empty id has that id among the resolved entries |
| BuildMarts.PrimaryFromResolved | app/pipeline/build.py:192-201 | a non-empty primary artist is one of the artists the discography resolves the same credit to |
| BuildMarts.PrimaryInDiscography | app/pipeline/build.py:192-201 | the same, for a credit and the artist patterns |
| BuildMarts.PrimaryFromFirst | app/pipeline/build.py:195-196 | with a matching entry, the pick is the id of the first matching entry in table order |
| BuildMarts.PrimaryArtistFirstMatch | app/pipeline/build.py:195-196 | when some pattern matches, the primary artist is the first matching artist in table order |
| BuildMarts.PrimaryArtistFallback | app/pipeline/build.py:196-203 | without a match the primary artist is the first known token's id; there is none exactly when nothing matches and no token is known |
| BuildMarts.PrimaryTableByRows | app/pipeline/build.py:192-215 | the mart holds exactly one row per release group whose credit has a primary artist, in input order, with that release group's id, title and year and that artist |
| BuildMarts.PrimaryTableBySound | app/pipeline/build.py:192-215 | each mart row comes from a release group whose credit has that primary artist, and the mart is no longer than the input |
| BuildMarts.PrimaryTableByComplete | app/pipeline/build.py:192-215 | a release group whose credit has a primary artist gets its row |
| BuildMarts.FirstKnownId | app/pipeline/build.py:197-201 | the loop that breaks at the first known token returns the fallback's id |
| BuildMarts.PrimaryOf | app/pipeline/build.py:194-203 | the primary-artist step computes the primary artist of the credit |
| BuildMarts.BuildPrimary | app/pipeline/build.py:192-215 | the loop over all release groups builds the release-group mart |
| BuildMarts.PrimaryLoop | app/pipeline/build.py:193-211 | the loop appends one row per release group with a primary artist, in order |
| BuildMarts.YearsCount | app/pipeline/build.py:222-228 | each year occurs in the year column as often as release groups carry it |
| BuildMarts.YearCountsMeaning | app/pipeline/build.py:222-228 | a year is listed exactly when some release group has it, with the number of such release groups |
| BuildMarts.Decade | app/pipeline/build.py:241 | the decade is a multiple of ten at most the year and within ten of it |
| BuildMarts.MatchedYearsMember | app/pipeline/build.py:231-236 | the left merge pairs a genre row with a year exactly when a release group of its id has that year |
| BuildMarts.KnownDecadesMember | app/pipeline/build.py:238-241 | a decade is listed exactly for a non-null year in it |
| BuildMarts.WithGenre | app/pipeline/build.py:243 | each decade with the genre, and nothing else |
| BuildMarts.GenreRowsMember | app/pipeline/build.py:231-242 | one genre row yields `(d, g)` exactly when it is a release-group row of genre `g` for a release group dated in decade `d` |
| BuildMarts.GenreDecadesSound | app/pipeline/build.py:231-246 | a `(decade, genre)` row comes from a release-group genre row joined to a release group dated in that decade |
| BuildMarts.GenreDecadesComplete | app/pipeline/build.py:231-246 | every genre row of a dated release group gives its `(decade, genre)` row |
| BuildMarts.WithGenreCount | app/pipeline/build.py:243 | pairing decades with a genre yields `(d, g)` as often as `d` occurs, when the genre is `g`, and never otherwise |
| BuildMarts.MatchedDecadesCount | app/pipeline/build.py:231-241 | a genre row's joined, non-null years give decade `d` once per release group of its id dated in `d` |
| BuildMarts.GenreRowsCount | app/pipeline/build.py:231-243 | one genre row yields `(d, g)` once per release group it joins in decade `d` under genre `g` |
| BuildMarts.GenreDecadesCount | app/pipeline/build.py:231-243 | `(d, g)` occurs among the rows once per pair of a release-group genre row of genre `g` and a release group of its id dated in decade `d` |
| BuildMarts.DecadeCountsMeaning | app/pipeline/build.py:237-246 | an entry exists exactly for such a joined pair, its `size()` is the number of such pairs, and every decade is a multiple of ten |
| BuildPipeline.BuildAll | app/pipeline/build.py:83-295 | `build()` writes the marts computed by the loops in source order; the recordings fallback runs only when both collaboration tables are empty |
| BuildEdges.TogetherPositive | app/pipeline/build.py:254-258 | two participants share a group exactly when some group holds both |
| BuildEdges.EdgeRowsCount | app/pipeline/build.py:255-258 | the pair loops emit `(a, b)` once per group holding both, and only when `a` sorts before `b` |
| BuildEdges.EdgesWeight | app/pipeline/build.py:254-265 | an edge exists exactly for two participants in sorted order that share a group, and its weight is the number of groups they share |
| BuildEdges.EdgesOriented | app/pipeline/build.py:255-258 | no edge joins a participant to itself and no edge also appears reversed |
| BuildEdges.EdgesEmpty | app/pipeline/build.py:259-265 | the table is empty exactly when no group holds two different participants |
| BuildEdges.TogetherOf | app/pipeline/build.py:254-258 | the shared-group count equals the number of elements whose group holds both participants |
| BuildEdges.CollectEdgeRows | app/pipeline/build.py:254-258 | the nested loops over the groups append exactly the pair rows |
| BuildEdges.AggregateEdges | app/pipeline/build.py:259-265 | the rows followed by the summing group-by give the edge table |
| BuildEdges.RgColumn | app/pipeline/build.py:251-253 | the `release_group_id` column, one entry per discography row |
| BuildEdges.MembersMember | app/pipeline/build.py:254-255 | an artist is in the group of a release group exactly when some discography row joins them |
| BuildEdges.IdEdgesWeight | app/pipeline/build.py:250-265 | an id edge joins two artists in order that share a release group, weighted by the number of release groups they share |
| BuildEdges.BuildIdEdges | app/pipeline/build.py:250-265 | the id-edge loop over the grouped discography computes the id edges |
| BuildEdges.NameFilterRedundant | app/pipeline/build.py:270-276 | the "various" filter removes nothing, because `split_credit` already drops those names |
| BuildEdges.NameEdgesWeight | app/pipeline/build.py:268-286 | a name edge joins two names in order that occur together in a credited release group, weighted by the number of such release groups |
| BuildEdges.NameGroupFor | app/pipeline/build.py:270-276 | one credit's participant list: its tokens after the "various" filter |
| BuildEdges.BuildNameEdges | app/pipeline/build.py:268-286 | the name-edge loop computes the name edges |
| BuildEdges.NameGroupsLoop | app/pipeline/build.py:269-276 | the loop over credited release groups builds one participant list per release group |
| BuildEdges.FoundMember | app/pipeline/build.py:42-49 | a value is collected exactly when some credit part yields it |
| BuildEdges.CreditLists | app/pipeline/build.py:40-51 | the loop over one recording's credit parts collects its truthy ids and names |
| BuildEdges.RecordingCollabsWeight | app/pipeline/build.py:29-80 | a recording edge joins two credited ids (names) in order, weighted by the number of recordings crediting both |
| BuildEdges.CollabsFromRecordings | app/pipeline/build.py:29-80 | the loop over recordings, the two pair loops and the two group-bys compute the recording edges; a missing file gives two empty tables |
| BuildEdges.Fallback | app/pipeline/build.py:289-295 | the written tables are the primary ones unless both are empty; then each non-empty recording table replaces its counterpart |
| BuildDiscog.Yr | app/pipeline/build_discog.py:12-18 | a missing string or one shorter than four characters has no year |
| BuildDiscog.YrOfDigits | app/pipeline/build_discog.py:12-18 | four leading digits give their value, whatever follows |
| BuildDiscog.YrOfSigned | app/pipeline/build_discog.py:15-16 | `int()` accepts a sign, so a prefix such as "-199" gives -199 |
| BuildDiscog.YrRejects | app/pipeline/build_discog.py:15-18 | a prefix starting with a character `int()` cannot read gives no year |
| BuildDiscog.Fields | app/pipeline/build_discog.py:30-46 | the releases are consulted only without a truthy direct id |
| BuildDiscog.OverlayLast | app/pipeline/build_discog.py:40-46 | under `x or prev`, the last truthy candidate wins |
| BuildDiscog.OverlayNone | app/pipeline/build_discog.py:40-46 | without a truthy candidate the value is unchanged |
| BuildDiscog.FoldOverlays | app/pipeline/build_discog.py:40-46 | id, primary type and date each follow the overwrite-if-truthy rule over the releases |
| BuildDiscog.FoldIdLast | app/pipeline/build_discog.py:42 | the release-group id is that of the last release naming one |
| BuildDiscog.FoldDateLast | app/pipeline/build_discog.py:46 | the date is the last truthy candidate date, the release group's date first within a release |
| BuildDiscog.FoldKeeps | app/pipeline/build_discog.py:42-46 | with no release naming an id, type or date, that field keeps its step-1 value |
| BuildDiscog.FoldTitleLast | app/pipeline/build_discog.py:43 | the title of the last release group naming one wins |
| BuildDiscog.FoldTitleKept | app/pipeline/build_discog.py:43 | without release-group titles, a title already found is kept |
| BuildDiscog.FoldTitleFromRelease | app/pipeline/build_discog.py:43 | without any release-group title, the first truthy release title is taken |
| BuildDiscog.FoldTitleFalsy | app/pipeline/build_discog.py:43 | before any truthy title shows up, the title stays falsy |
| BuildDiscog.FieldsIdFromReleases | app/pipeline/build_discog.py:39-42 | without a direct id the id is that of the last release naming a release group |
| BuildDiscog.FieldsOf | app/pipeline/build_discog.py:30-46 | steps 1 and 2 of the loop body compute the release-group fields |
| BuildDiscog.RowsTruthy | app/pipeline/build_discog.py:51-66 | every row has truthy artist and release-group ids and the year of its own date |
| BuildDiscog.AppendCreditRows | app/pipeline/build_discog.py:51-66 | the credit-entry loop appends the rows of the credit parts |
| BuildDiscog.CreditRow | app/pipeline/build_discog.py:52-66 | a row only when both ids are truthy |
| BuildDiscog.StrBeforeTransitive | app/pipeline/build_discog.py:72-74 | the nulls-last order on one key column is transitive |
| BuildDiscog.KeyBeforeTrichotomy | app/pipeline/build_discog.py:72-74 | any two sort keys are equal or ordered one way |
| BuildDiscog.RowLeTotalPreorder | app/pipeline/build_discog.py:72-74 | the three-column nulls-last comparison is a total preorder, a legal sort order |
| BuildDiscog.NullsLast | app/pipeline/build_discog.py:73 | a row with a known artist name sorts strictly before one with a missing name |
| Ordering.SortByStable | app/pipeline/build_discog.py:72-74 | the sort is stable: the rows tied with any row under the sort keys keep their input order, as pandas' multi-column `sort_values` (a lexicographic sort, which is stable) keeps them |
| Ordering.InsertByTies | app/pipeline/build_discog.py:72-74 | inserting a row into sorted rows places it after every row tied with it |
| BuildDiscog.UniqueKeysPermutation | app/pipeline/build_discog.py:72-74 | reordering a table with unique keys keeps them unique |
| BuildDiscog.Output | app/pipeline/build_discog.py:21-78 | the run fails exactly when the recordings file is missing |
| BuildDiscog.FinishShape | app/pipeline/build_discog.py:68-74 | the output is sorted, has one row per `(artist_mbid, rg_mbid)` and holds only built rows |
| BuildDiscog.FinishKeepsFirst | app/pipeline/build_discog.py:72 | every built key survives, carried by its first row |
| BuildDiscog.Run | app/pipeline/build_discog.py:21-78 | the loop over recordings, then dedup and sort unless no row was built, computes the written table |
| MartsRelations.SafeCompose | app/pipeline/marts_relations.py:20-26 | following `a + b` is following `a`, then `b` |
| MartsRelations.SafeStops | app/pipeline/marts_relations.py:22-25 | once an intermediate value is not an object the result is `None` |
| MartsRelations.Safe | app/pipeline/marts_relations.py:20-26 | the loop with its early return on `None` follows the key path; no keys give the value itself |
| MartsRelations.TargetId | app/pipeline/marts_relations.py:63-71 | a target id is found only for the target types artist, work, recording and release group (either spelling) |
| MartsRelations.TagNames | app/pipeline/marts_relations.py:48-49 | at most one name per tag item |
| MartsRelations.Joined | app/pipeline/marts_relations.py:80-81 | the joined column is `None` exactly when there are no names |
| MartsRelations.JoinedSplits | app/pipeline/marts_relations.py:80-81 | the joined column splits back into the names when no name holds a `;` |
| MartsRelations.ArtistRoleRowsCount | app/pipeline/marts_relations.py:51-83 | one row per role relation of the artist |
| MartsRelations.ArtistRolesSound | app/pipeline/marts_relations.py:29-86 | every row comes from a role relation of an input artist, with one of the seven roles |
| MartsRelations.ArtistRolesComplete | app/pipeline/marts_relations.py:29-86 | every role relation of an input artist gives its row |
| MartsRelations.ArtistRolesEmpty | app/pipeline/marts_relations.py:40-86 | the table always has the eight declared columns, and is empty exactly when no input artist has a role relation |
| MartsRelations.ArtistRoleLoop | app/pipeline/marts_relations.py:51-83 | the loop over one artist's relations computes its rows |
| MartsRelations.BuildArtistRoles | app/pipeline/marts_relations.py:29-86 | `build_artist_roles` computes the role table |
| MartsRelations.ProducerNetworkSound | app/pipeline/marts_relations.py:89-119 | every link pairs a producer row with a performer row on the same target, and carries both artist ids |
| MartsRelations.ProducerNetworkComplete | app/pipeline/marts_relations.py:98-118 | every such pair with both ids present gives a link |
| MartsRelations.ProducerNetworkDistinct | app/pipeline/marts_relations.py:118 | the network has no duplicate rows |
| MartsRelations.LabelAffiliationsSound | app/pipeline/marts_relations.py:122-174 | every output row has artist and label ids, comes from an artist's label relation or from a credited artist of a release group with one, and occurs once |
| MartsRelations.LabelAffiliationsFromArtist | app/pipeline/marts_relations.py:136-151 | an artist's label relation with both ids present is in the output |
| MartsRelations.LabelAffiliationsFromRg | app/pipeline/marts_relations.py:153-169 | every credited artist, with both ids present, of a release group with a label relation is in the output |
| MartsRelations.ArtistLabelLoop | app/pipeline/marts_relations.py:137-151 | the loop over one artist's relations |
| MartsRelations.CreditLabelLoop | app/pipeline/marts_relations.py:157-169 | the loop over the credits for one label relation |
| MartsRelations.RgLabelLoop | app/pipeline/marts_relations.py:154-169 | the loop over one release group's relations |
| MartsRelations.ArtistLabelsLoop | app/pipeline/marts_relations.py:136-151 | the first row loop, over the artists |
| MartsRelations.RgLabelsLoop | app/pipeline/marts_relations.py:153-169 | the second row loop, over the release groups |
| MartsRelations.BuildLabelAffiliations | app/pipeline/marts_relations.py:122-174 | the two row loops, then the clean-up, compute the affiliation table |
| MartsRelations.Country | app/pipeline/marts_relations.py:188-191 | the country is `None` or truthy |
| MartsRelations.CountryLast | app/pipeline/marts_relations.py:188-191 | the country is that of the last release with a truthy one, and `None` exactly when there is none |
| MartsRelations.ReleasesByCountryYear | app/pipeline/marts_relations.py:203-204 | with no rows the frame has no `year` column and the call fails; otherwise every row has a year |
| MartsRelations.ReleasesByCountryYearSound | app/pipeline/marts_relations.py:177-204 | every output row is a credit entry of an input release group, with that group's id, year and country |
| MartsRelations.ReleasesByCountryYearComplete | app/pipeline/marts_relations.py:177-204 | every credit entry of a release group with a year is in the output |
| MartsRelations.CountryLoop | app/pipeline/marts_relations.py:188-191 | the loop over a release group's releases computes the country |
| MartsRelations.RgYearLoop | app/pipeline/marts_relations.py:181-202 | one release group's year, country and credit rows |
| MartsRelations.BuildReleasesByCountryYear | app/pipeline/marts_relations.py:177-204 | the row loop and the `dropna` compute the table |
| MartsRelations.GenreNames | app/pipeline/marts_relations.py:211-217 | only truthy genre names are kept |
| MartsRelations.MatrixRowsCount | app/pipeline/marts_relations.py:221-223 | `(a, b)` is emitted once for every release group holding both genres, either order and the diagonal included |
| MartsRelations.TogetherSymmetric | app/pipeline/marts_relations.py:221-223 | co-occurrence counted over release groups is symmetric |
| MartsRelations.TogetherBounded | app/pipeline/marts_relations.py:221-223 | a pair never occurs in more release groups than its first genre |
| MartsRelations.CollabMatrixWeight | app/pipeline/marts_relations.py:207-227 | a cell exists exactly for two genres sharing a release group, and holds the number of release groups carrying both |
| MartsRelations.CollabMatrixSymmetric | app/pipeline/marts_relations.py:207-227 | the matrix is symmetric |
| MartsRelations.CollabMatrixDiagonal | app/pipeline/marts_relations.py:220-223 | the diagonal counts the release groups carrying a genre and bounds that genre's row |
| MartsRelations.MatrixRowsSkip | app/pipeline/marts_relations.py:218-219 | a release group without named genres adds nothing |
| MartsRelations.BuildCollabMatrix | app/pipeline/marts_relations.py:207-227 | the row loops, skipping release groups without genres, then the group-by compute the matrix |
| CleanUtils.MatchYear | app/pipeline/_clean_utils.py:6-8 | `%Y` reads exactly four digits, a year within 0..9999 |
| CleanUtils.MatchMonth | app/pipeline/_clean_utils.py:6-8 | `%m` reads a month within 1..12 |
| CleanUtils.MatchDay | app/pipeline/_clean_utils.py:6-8 | `%d` reads a day within 1..31 |
| CleanUtils.MatchDash | app/pipeline/_clean_utils.py:6-8 | a literal `-` in the format consumes exactly one dash |
| CleanUtils.MatchFormat | app/pipeline/_clean_utils.py:6-8 | the pattern match ends inside the string; a missing month and day default to 1 |
| CleanUtils.Strptime | app/pipeline/_clean_utils.py:7-11 | a successful `strptime` gives a date that exists, with the missing fields set to 1 |
| CleanUtils.NatStr | app/pipeline/_clean_utils.py:9 | the decimal rendering is a non-empty digit string |
| CleanUtils.Pad2 | app/pipeline/_clean_utils.py:9 | `%m` and `%d` render two digits |
| CleanUtils.ParseAny | app/pipeline/_clean_utils.py:6-11 | the first format that accepts gives a date that exists |
| CleanUtils.ParseDate | app/pipeline/_clean_utils.py:3-12 | a missing, empty or blank value has no date; a date is produced only when a format accepts |
| CleanUtils.ParseDateFields | app/pipeline/_clean_utils.py:6-12 | the formats are tried in order and the output carries the fields read, with a missing month or day written 01 |
| CleanUtils.StrptimeOfFormat | app/pipeline/_clean_utils.py:8-9 | the rendering of a date with a four-digit year reads back as the same date |
| CleanUtils.ParseDateOfFormat | app/pipeline/_clean_utils.py:3-12 | the rendering of a date with a four-digit year parses to itself |
| CleanUtils.ParseDateIdempotent | app/pipeline/_clean_utils.py:3-12 | `parse_date` is idempotent on its own output for years 1000-9999 |
| CleanUtils.YearDigits | app/pipeline/_clean_utils.py:8-9 | four digits not starting with 0 read as a year that renders back to the same characters |
| CleanUtils.ParseDateYearOnly | app/pipeline/_clean_utils.py:6-9 | a bare year becomes the first of January of that year |
| CleanUtils.ParseDateYearMonth | app/pipeline/_clean_utils.py:6-9 | a year and a two-digit month become the first day of that month |
| CleanUtils.ParseDateYearMonthUnpadded | app/pipeline/_clean_utils.py:6-9 | a month without its leading zero gives the same output |
| CleanUtils.ParseDateNonexistentDay | app/pipeline/_clean_utils.py:6-12 | a day the month does not have (2021-02-30) gives `None`, not an error |
| CleanUtils.ParseDateShortYear | app/pipeline/_clean_utils.py:6-12 | year 0000 does not parse; a year 0001-0999 parses, but its output has fewer than four year digits and does not parse again |
| CleanUtils.ToMs | app/pipeline/_clean_utils.py:14-20 | a duration is never negative; null and "" give `None`; an integer is kept exactly when it is at least 0 |
| CleanUtils.ToMsIdempotent | app/pipeline/_clean_utils.py:14-20 | normalising a normalised duration changes nothing |
| CleanUtils.ToMsOfDigits | app/pipeline/_clean_utils.py:17 | a decimal string, optionally padded by white space, gives its value |
| CleanUtils.ToMsOfString | app/pipeline/_clean_utils.py:15-20 | for a non-empty string `to_ms` is `int()` restricted to values at or above zero |
| CleanUtils.ToMsNegative | app/pipeline/_clean_utils.py:18 | a negative decimal string gives `None` |
| CleanUtils.ToMsFloat | app/pipeline/_clean_utils.py:17 | a float truncates toward zero, so a negative fraction reads as 0 |
| CleanUtils.IsUuidAcceptsCanonical | app/pipeline/_clean_utils.py:22-23 | every canonical UUID passes |
| CleanUtils.IsUuidLooseness | app/pipeline/_clean_utils.py:22-23 | 36 dashes pass although they are no UUID; null and "" fail |
| CleanUtils.IsUuidTrailingNewline | app/pipeline/_clean_utils.py:22 | `$` lets a canonical UUID followed by one newline pass |
| CleanUtils.NormCountry | app/pipeline/_clean_utils.py:25-26 | a value is produced exactly for a non-empty string, of the same length and without lower-case ASCII letters |
| CleanUtils.NormCountryIdempotent | app/pipeline/_clean_utils.py:25-26 | normalising twice is normalising once |
| Clean.CleanTable | app/pipeline/clean.py:19-23 | `_write(df[ok], name, pk=key)` keeps only passing rows, one per key, loses no key, and keeps the first passing row of every key |
| Clean.KeepFirstThenFilter | app/pipeline/clean.py:262-265 | when the check reads only the key, deduplicating before the check gives the same rows as deduplicating after it |
| Clean.RejectsOf | app/pipeline/clean.py:95-97 | one log entry per failing row, carrying the table and reason, for exactly the failing rows |
| Clean.ArtistRowsSound | app/pipeline/clean.py:38-75 | every artist row comes from a detail payload or from an entry of a payload's `artists` array |
| Clean.ArtistRowsDetail | app/pipeline/clean.py:42-57 | a detail payload (truthy `id` and `name`) gives exactly its own row, whatever its `artists` array holds |
| Clean.ArtistRowsListed | app/pipeline/clean.py:58-75 | any other payload with an `artists` key gives one row per entry |
| Clean.RgRowsSound | app/pipeline/clean.py:104-116 | every release-group row is an entry of a payload's `release-groups` array, its date normalised by `parse_date` |
| Clean.RgRowsComplete | app/pipeline/clean.py:104-116 | every such entry gives its row |
| Clean.ReleaseCountryUpper | app/pipeline/clean.py:147 | a release's country has no lower-case letter |
| Clean.ReleaseLabelTable | app/pipeline/clean.py:181-192 | the written links have both ids, come from the built links and have no repeats |
| Clean.KeepFirstDistinct | app/pipeline/clean.py:183-187 | on rows without repeats the three-column deduplication keeps every row |
| Clean.ReleaseLabelTableComplete | app/pipeline/clean.py:181-187 | every link with both ids is written |
| Clean.PlacedTracksSound | app/pipeline/clean.py:199-214 | every emitted track and its recording come from a track entry of a release's medium |
| Clean.PlacedTracksComplete | app/pipeline/clean.py:199-214 | every track entry is emitted |
| Clean.RecordingTable | app/pipeline/clean.py:224-241 | the written recordings table is the returned frame, and equals checking first and keeping the first row per id |
| Clean.LabelTable | app/pipeline/clean.py:262-266 | likewise for the labels table |
| Clean.TaggingTable | app/pipeline/clean.py:301-314 | the written genre and tag tables keep only rows with an entity and a name, one per key, losing no key |
| Clean.MapLoop | app/pipeline/clean.py:140-151 | a row-building loop appends one row per item |
| Clean.ArtistRowsLoop | app/pipeline/clean.py:39-75 | the loop over the payloads builds the artist rows |
| Clean.RgRowsLoop | app/pipeline/clean.py:104-116 | the loop over the payloads builds the release-group rows |
| Clean.PayloadReleasesLoop | app/pipeline/clean.py:140-160 | the loop over one payload's releases fills both lists |
| Clean.ReleaseRowsLoop | app/pipeline/clean.py:136-160 | the loop over the payloads builds the releases and their label links |
| Clean.MediumLoop | app/pipeline/clean.py:204-223 | the loop over one medium's tracks fills both lists |
| Clean.ReleaseTracksLoop | app/pipeline/clean.py:203-223 | the loop over one release's media |
| Clean.PayloadTracksLoop | app/pipeline/clean.py:202-223 | the loop over one payload's releases |
| Clean.TrackRowsLoop | app/pipeline/clean.py:197-223 | the loop over the payloads builds the tracks and recordings |
| Clean.LabelRowsLoop | app/pipeline/clean.py:247-261 | the loop over the payloads builds the label rows |
| Clean.EmitLoop | app/pipeline/clean.py:274-292 | `emit` for one entity appends its genre rows and its tag rows |
| Clean.RgTaggingsLoop | app/pipeline/clean.py:295-297 | the loop over one payload's release groups |
| Clean.PayloadTaggingsLoop | app/pipeline/clean.py:295-300 | the rows of one payload: its release groups' first, then the artist detail's |
| Clean.TaggingRowsLoop | app/pipeline/clean.py:294-300 | the loop over the payloads builds the genre and tag rows |
| Clean.CleanLayer.constructor | app/pipeline/clean.py:11-12 | no reject logged, no log written, no table written |
| Clean.CleanLayer.AppendReject | app/pipeline/clean.py:15-16 | appends one entry to the log and changes nothing else |
| Clean.CleanLayer.AppendRejects | app/pipeline/clean.py:95-97 | appends the entries of the failing rows, in order |
| Clean.CleanLayer.FinalizeRejects | app/pipeline/clean.py:26-28 | the log file is written only when the log holds an entry |
| Clean.CleanLayer.CleanArtists | app/pipeline/clean.py:38-100 | returns the passing rows with duplicates kept, logs every failing row, and writes the deduplicated artists table |
| Clean.CleanLayer.CleanReleaseGroups | app/pipeline/clean.py:103-132 | the same for the release groups |
| Clean.CleanLayer.CleanReleases | app/pipeline/clean.py:135-193 | the same for the releases, and writes the release-label links |
| Clean.CleanLayer.CleanRecordingsAndTracks | app/pipeline/clean.py:196-243 | failing ids are dropped without a log entry; writes recordings and tracks |
| Clean.CleanLayer.CleanLabels | app/pipeline/clean.py:246-267 | writes the labels table; logs nothing |
| Clean.CleanLayer.CleanGenresAndTags | app/pipeline/clean.py:270-315 | returns the named genre and tag rows and writes the two deduplicated tables |
| Clean.CleanLayer.Run | app/pipeline/clean.py:318-327 | `main()` writes every table, appends the rejects of artists, release groups and releases, then writes the log when it is not empty |
| Schema.TargetMbid | app/schema.py:72-77 | the id column always ends in `_mbid`; it is `rg_mbid` for release groups and `<table>_mbid` for a table without a singular form |
| Schema.TargetMbidAgrees | app/schema.py:19-62 | for every aliased table the id column is an alias target and is declared by the empty schema |
| Schema.ApplyAliases | app/schema.py:79-91 | `_apply_aliases` with the table's alias map |
| Schema.ApplyAliasMap | app/schema.py:80-91 | the body of `_apply_aliases` for a given map computes the renamed frame |
| Schema.RenamePlan | app/schema.py:83-88 | `to_rename` schedules only present columns, each to its alias, and every column whose alias differs from it is scheduled |
| Schema.PlanRenames | app/schema.py:89-90 | such a plan renames every column to its alias; an empty plan leaves the columns as they are |
| Schema.AliasesRename | app/schema.py:79-91 | a column keeps its name unless it or its underscore spelling is an alias key, its own alias taking precedence; rows and number of columns are unchanged |
| Schema.AliasMapCanonical | app/schema.py:19-49 | every alias target is free of dashes and is not itself an alias key |
| Schema.AliasesIdempotent | app/schema.py:79-91 | applying the aliases to their own result changes nothing |
| Schema.AliasesIdempotentWith | app/schema.py:79-91 | the same for any alias map with canonical targets |
| Schema.FirstPresent | app/schema.py:114-116 | the first candidate present among the columns, and none exactly when no candidate is present |
| Schema.EnsureId | app/schema.py:93-117 | `_ensure_id` computes the frame with its id column ensured |
| Schema.EnsureIdTarget | app/schema.py:93-117 | a non-empty frame keeps its rows and has the id column afterwards exactly when it had it or had one of the candidates |
| Schema.EnsureIdRenamesCandidate | app/schema.py:114-116 | renaming to the id column replaces only the first candidate present |
| Schema.EnsureIdWith | app/schema.py:93-117 | the scan over the candidates, with its early return, renames the first candidate present to the id column and otherwise leaves the frame alone |
| Schema.EnsureIdTargetWith | app/schema.py:93-117 | for any id column and candidate list, the result keeps the rows and the column count, and has the id column exactly when the input had it or one of the candidates |
| Schema.Canonicalize | app/schema.py:119-141 | aliases, then the id column, then the fallbacks |
| Schema.CanonicalKeepsVacant | app/schema.py:119-122 | a missing or empty frame passes through every step unchanged |
| Schema.CanonicalKeepsShape | app/schema.py:119-141 | a non-empty frame stays non-empty with its rows and its number of columns |
| Schema.FallbacksInert | app/schema.py:122-140 | the three fallback renames never fire: the aliases have already renamed the name each would rename |
| Schema.AliasedAway | app/schema.py:119-121 | an alias key other than the id column never survives the first two steps |
| Schema.AliasedAwayWith | app/schema.py:119-121 | for any alias map whose targets are canonical, a renamed key other than the id column is absent after the aliases and the id step |
| Schema.EmptyFrame | app/schema.py:143-145 | a frame without rows whose columns are `required` when given and non-empty, else the table's empty schema |
| Schema.Raise | app/schema.py:167-172 | the error names the table, the present columns and the sorted required columns missing from them |
| Schema.Require | app/schema.py:147-165 | `require` computes the canonical frame, an empty frame or the error |
| Schema.RequiredHasColumns | app/schema.py:155-165 | a frame handed back has every required column, and is the canonical frame itself unless it was missing or empty |
| Schema.RequiredFails | app/schema.py:155-165 | `require` raises exactly when the frame is missing or empty and that is not allowed, or a required column is absent after canonicalisation |
| Schema.RequireArtistsById | tests/test_schemas.py:41-45 | an artists frame with columns `id` and `name` satisfies the artists requirement, `id` renamed to `artist_mbid` |
| EnrichDictionary.IdPatternMatches | app/tools/enrich_dictionary.py:53 | the id pattern matches `id` and names ending in `.id`, `[id` or `]id`, and tolerates a trailing newline |
| EnrichDictionary.IdPatternRejectsPaid | app/tools/enrich_dictionary.py:53 | the id pattern does not match inside a word |
| EnrichDictionary.LengthPattern | app/tools/enrich_dictionary.py:54-57 | the length pattern reaches into sub-fields but not into longer words |
| EnrichDictionary.Fill | app/tools/enrich_dictionary.py:77-78 | `a or b` is empty exactly when both are |
| EnrichDictionary.Enrich | app/tools/enrich_dictionary.py:69-86 | `enrich` with the project's notes and heuristics |
| EnrichDictionary.EnrichBy | app/tools/enrich_dictionary.py:69-86 | the early return, the note and the heuristic loop compute the enriched cells |
| EnrichDictionary.FirstNonEmpty | app/tools/enrich_dictionary.py:81-84 | the first non-empty string, and empty exactly when all are |
| EnrichDictionary.HeuristicsFirstMatch | app/tools/enrich_dictionary.py:81-84 | each cell gets the first non-empty value among itself and the matching heuristics, in list order |
| EnrichDictionary.EnrichKeepsFilled | app/tools/enrich_dictionary.py:71-84 | a filled cell is never replaced, and a row with both cells filled is returned as it is |
| EnrichDictionary.EnrichPrecedence | app/tools/enrich_dictionary.py:75-84 | a field's note wins over the heuristics; a cell neither the row nor the note fills gets the first matching heuristic's value |
| EnrichDictionary.EnrichTrackLength | app/tools/enrich_dictionary.py:43 | `medium.track[].length` takes its note, not the length heuristic that also matches it |
| EnrichDictionary.EnrichUnknownField | app/tools/enrich_dictionary.py:69-86 | a field without a note that no heuristic matches keeps its cells |
| EnrichDictionary.EnrichFile | app/tools/enrich_dictionary.py:97-106 | the header check and the row loop compute the enriched rows |
| EnrichDictionary.EnrichFileRows | app/tools/enrich_dictionary.py:97-106 | the run exits exactly when the header is not the wanted one; otherwise every row keeps its identifying and filled cells |
| EmitDictionary.FirstPattern | app/tools/emit_dictionary.py:5-11 | the table of the first fragment occurring in the file name, and none exactly when no fragment occurs |
| EmitDictionary.InferTable | app/tools/emit_dictionary.py:22-26 | the loop that returns at the first fragment found computes the announced table |
| EmitDictionary.InferredTables | app/tools/emit_dictionary.py:5-11 | a file name can announce only artists, release groups, releases or recordings |
| EmitDictionary.Find | app/tools/emit_dictionary.py:31 | the position of a key, the first one holding it, and none exactly when no entry holds it |
| EmitDictionary.PutValue | app/tools/emit_dictionary.py:31-39 | after `acc[k] = v` the key reads `v` and every other key reads as before |
| EmitDictionary.PathsValued | app/tools/emit_dictionary.py:44 | a key is listed exactly when it reads a value |
| EmitDictionary.UnderChild | app/tools/emit_dictionary.py:34 | a path under a field's path is under the object's path |
| EmitDictionary.ChildUnder | app/tools/emit_dictionary.py:34 | a field's path lies under the object's path |
| EmitDictionary.SiblingsApart | app/tools/emit_dictionary.py:33-34 | distinct sibling keys give paths neither equal nor below one another when the first key is plain |
| EmitDictionary.WalkedStaysUnder | app/tools/emit_dictionary.py:29-39 | a walk under a non-empty prefix changes no path other than the prefix and the paths below it |
| EmitDictionary.WalkedFieldsStayUnder | app/tools/emit_dictionary.py:32-34 | the field walks of an object change no path outside the object's, the object's own path included |
| EmitDictionary.WalkedRecordsRoot | app/tools/emit_dictionary.py:30-31 | the walk leaves the node's own type name at a non-empty prefix |
| EmitDictionary.WalkedEmptyList | app/tools/emit_dictionary.py:35-39 | an empty list is recorded as `list`, with `list(empty)` at `prefix[]` |
| EmitDictionary.WalkedFirstElement | app/tools/emit_dictionary.py:36-37 | only the first element of a list is walked: lists that agree on it give the same dictionary |
| EmitDictionary.SiblingsAllApart | app/tools/emit_dictionary.py:33-34 | a plain key that no later sibling repeats has a path apart from every later sibling's path |
| EmitDictionary.LaterFieldsKeepAt | app/tools/emit_dictionary.py:33-34 | the walks of later fields leave unchanged a path that is none of theirs and below none of them |
| EmitDictionary.WalkedField | app/tools/emit_dictionary.py:29-39 | each field of an object is recorded at `prefix.key` with its own type, for a plain key not repeated later |
| EmitDictionary.PathTypes.constructor | app/tools/emit_dictionary.py:67 | the dictionary starts empty |
| EmitDictionary.PathTypes.Walk | app/tools/emit_dictionary.py:29-39 | the recursive walk updates the dictionary in place to the walked dictionary |
| EmitDictionary.FieldOfStrips | app/tools/emit_dictionary.py:47 | for a table name without a dot the field is the path with `table.` cut off |
| EmitDictionary.FilterSorted | app/tools/emit_dictionary.py:44-46 | skipping paths keeps the order strictly increasing |
| EmitDictionary.EmittedRowsSpec | app/tools/emit_dictionary.py:42-49 | one row per key other than `$`, in strictly increasing path order, with the key's field and recorded type |
| EmitDictionary.EmitRows | app/tools/emit_dictionary.py:42-49 | `emit_rows` computes the emitted rows |
| EmitDictionary.EmitPaths | app/tools/emit_dictionary.py:44-48 | the loop appends one row per path other than `$`, in the order given |
| EmitDictionary.ScanRootRow | app/tools/emit_dictionary.py:79-80 | a table's rows include the root record itself, under the table's own name |
| EmitDictionary.ScanTable | app/tools/emit_dictionary.py:79-80 | a fresh dictionary, the walk of the root and its rows |
| EmitDictionary.HintedSnoc | app/tools/emit_dictionary.py:61-63 | one more hint adds its table exactly when its key holds a list |
| EmitDictionary.ScanTables | app/tools/emit_dictionary.py:56-63 | the scanned set is the file's own table plus each hinted table whose key holds a list |
| EmitDictionary.HintRoot | app/tools/emit_dictionary.py:72-77 | no hint for the table with a list under its key gives no root; otherwise the first such hint decides alone: its list's first record (`{}` for an empty list), or no root when that record is null; a root is never null |
| EmitDictionary.RootFor | app/tools/emit_dictionary.py:68-77 | a root exists exactly when the table is the file's own and the payload has a truthy id, or a hint for it holds a list whose first record is not null; it is never null, and outside the first case it is the first record of such a list |
| EmitDictionary.RootOf | app/tools/emit_dictionary.py:68-77 | the root selection with its early `break` and the `None` check computes the root |
| EmitDictionary.ScannedHasRoot | app/tools/emit_dictionary.py:56-77 | a scanned table is skipped exactly when it is not the file's own table with a truthy id and either it is the file's own table with no list for it or its hinted list starts with a null record |
| EmitDictionary.AliasRows | app/tools/emit_dictionary.py:82-87 | the alias lookup fails exactly when the artist root is not an object; otherwise `artist_aliases` is added exactly when `aliases` is a non-empty list, holding the walk of its first alias |
| EmitDictionary.TrackRows | app/tools/emit_dictionary.py:89-94 | fails exactly when the root is not an object, when `media` is a non-empty list whose first element is not an object, or when that medium's `tracks` is truthy and an object, a number or a bool; otherwise `tracks` is added exactly when the first medium's `tracks` is truthy, holding the walk of its first element |
| EmitDictionary.ContributionKeys | app/tools/emit_dictionary.py:66-94 | a table contributes its own rows exactly when it has a root, those rows being its scan, and besides them only its derived table |
| EmitDictionary.NullFirstRecordSkipped | app/tools/emit_dictionary.py:72-77 | a table whose hinted list starts with a null record, unless it is the file's own table with a truthy id, contributes nothing and raises nothing |
| EmitDictionary.ContributionOwned | app/tools/emit_dictionary.py:80-94 | every key a scanned table contributes belongs to that table |
| EmitDictionary.ScannedNotDerived | app/tools/emit_dictionary.py:56-63 | the scanned tables are never the two derived tables |
| EmitDictionary.MergedAdd | app/tools/emit_dictionary.py:65-94 | scanning one more table adds exactly its contribution, whatever the order |
| EmitDictionary.ScannedOwned | app/tools/emit_dictionary.py:56-94 | the scanned tables contribute only keys they own, so no two of them write the same key |
| EmitDictionary.Contribute | app/tools/emit_dictionary.py:67-94 | one pass of the loop computes the table's contribution: nothing when the table has no root (a null first record included), else its scan plus the alias or track rows, or the error those raise |
| EmitDictionary.ScanAll | app/tools/emit_dictionary.py:65-96 | the loop over the set of tables, in whatever order the set yields them, computes the merged result |
| EmitDictionary.ProcessFile | app/tools/emit_dictionary.py:52-96 | `process_file` computes the file's tables: the merged contributions of every scanned table, or none when one of them raises |
| EmitDictionary.ScannedAllOwnKey | app/tools/emit_dictionary.py:65-96 | with every table clean, each scanned table's own key holds exactly what it contributed |
| EmitDictionary.FileTablesOwnRows | app/tools/emit_dictionary.py:65-96 | every scanned table with a root has exactly its scan in the result, and one without a root adds nothing |
| EmitDictionary.FileTablesAliasRows | app/tools/emit_dictionary.py:82-87 | the file's `artist_aliases` entry exists exactly when the scanned `artists` root is an object with a non-empty `aliases` list, and is the walk of its first alias |
| EmitDictionary.FileTablesTrackRows | app/tools/emit_dictionary.py:89-94 | the file's `tracks` entry exists exactly when the scanned `releases` root's first medium has truthy `tracks`, and is the walk of `media[0]["tracks"][0]` |
| EmitDictionary.ArtistRootNotObject | app/tools/emit_dictionary.py:76-83 | an `artists` root that is not an object (a null record being no root, so skipped) makes the file fail |

## Left out

- File I/O is not modelled: parquet, CSV, JSON and JSONL reading and writing, `glob` over `data/raw`, directory creation, `print` and the `SystemExit` messages. Tables are sequences of records and JSON values are the `Json` datatype. What a run writes is a value of the model: `Clean.CleanLayer`'s fields, `BuildPipeline.Marts` and the results of the builders.
- `read()` in `app/pipeline/build.py` is not modelled. The clean tables `build()` reads are parameters of `BuildPipeline.BuildAll`, already restricted to the columns it selects.
- The figures `build()` draws after writing the marts (`app/pipeline/build.py:299-319`) are not modelled: they are calls into plotting libraries.
- The `run()` of `app/pipeline/marts_relations.py` and its `_read_jsonl` are not modelled: they only read two files and write five. The five builders they call are modelled.
- The argument parsing and CSV reading and writing of the `main()` of `app/tools/enrich_dictionary.py` are not modelled. Its header check and row loop are modelled as `EnrichDictionary.EnrichFile`.
- The `main()` of `app/tools/emit_dictionary.py` is not modelled: its `os.walk`, per-file warning, aggregation across files and CSV writing are file handling. The file open and `json.load` of `process_file` are not modelled either: the decoded document is a parameter.
- `process_file` iterates a Python set, whose order is not modelled. `EmitDictionary.ScanAll` takes the tables in an arbitrary order, and the result is proved to be the same for every order.
- `EmitDictionary.ProcessFile` only says that a file fails (`None`), not which exception it raises. The caller treats every exception alike.
- `EmitDictionary.WalkedField` requires plain object keys, without `.` or `[`, that are not repeated. With such a key a later sibling's walk can overwrite the field's path, and the lemma does not cover that case.
- JSON objects are lists of bindings in document order. A lookup reads the last binding of a key, as `json.loads` does. `EmitDictionary.Walked` visits every binding, while Python's `dict.items()` visits each key once with its last value. The two agree on documents without repeated keys.
- Python's `.get` on a value that is not a dict raises `AttributeError` in the clean layer, the discography builders and the relation marts. The model reads the key as null there. `EmitDictionary` models the error.
- Iterating a present but null or non-list value raises `TypeError` in Python. Examples are ``data["release-groups"]`` in `clean.py` and `rg.get("artist-credit", [])` in `marts_relations.py`. The model iterates nothing there.
- A field passed to `parse_date`, `norm_country`, `split_credit`, `_yr` or `str.join` is read as a string. A non-string value reads as null, where Python would convert it or raise. MusicBrainz sends those fields as strings.
- `BuildEdges.IdOf` and `BuildEdges.NameOf` read the credited artist's `id` and name as strings only (`app/pipeline/build.py:42-49`). Python appends any truthy value, so an integer artist id would give recording edges, where the model drops it.
- `MartsRelations.GenreNames` keeps only string genre names (`app/pipeline/marts_relations.py:209-214`). Python keeps any truthy name, of any type.
- `BuildDiscog.SortKey` reads `artist_name` and `rg_title` as strings only (`app/pipeline/build_discog.py:72-74`). A non-string value sorts as null, so last, where pandas would compare it with the strings or raise `TypeError`.
- `PyText.ParseInt`, used by `to_ms` and `_yr`, and the `%Y`, `%m` and `%d` matchers of `strptime` accept ASCII digits only. Python's `int()` and the `\d` of `_strptime` accept every Unicode decimal digit.
- pandas dtype coercion is not modelled: integers turned into floats by nulls, and NaN against None. A missing cell is null, and `drop_duplicates` and `groupby` treat nulls as equal keys, as pandas does.
- `pd.to_datetime(...).dt.year` at `app/pipeline/build.py:94-96` is modelled as the year of the clean layer's `YYYY-MM-DD` string. Other strings give no year. The clean layer writes its dates in that form, apart from years below 1000.
- The regex `\w` and `(?i)` are ASCII only: letters, digits and underscore, with ASCII case folding. `str.lower` and `str.upper` also map only ASCII letters, so `norm_country` and the blocklist do not fold non-ASCII letters.
- `datetime.strptime` is modelled for the three formats `parse_date` uses. It follows CPython's patterns: `%Y` is four digits, and `%m` and `%d` accept one or two digits (and a space-padded day). For `strftime`, the model renders a year below 1000 without zero padding (`999-01-01`), which is glibc's `%Y`. CPython passes `%Y` to the platform's `strftime` in some versions and pads it to four digits itself in others; under a padding CPython such a date is written `0999-01-01`, and `CleanUtils.ParseDateShortYear` does not describe that interpreter.
- `to_ms` cannot receive NaN or an infinite float, because `Json` floats are real numbers. So the `float("nan")` test of `to_ms` never applies.
- `CleanUtils.IsUuid` is stated on strings. `Clean.IdOk` extends it to integers via `str()`; every other decoded type fails the check, because its `str()` is too short or contains another character.
- A reject entry carries the rejected row as one value, `Clean.Rejected`, not flattened into columns as `{**row}` does.
- The `dd` field that `SchemaResolver.__init__` reads from `DATA_DICTIONARY.csv` is not modelled, because none of the resolver's methods uses it.
- The rest of the repository is not part of this model:
  - HTTP pulling (`app/pull`, `pull_sample.py`, `pull_recordings.py`);
  - the Streamlit UI, figures, network visualisation and the PDF report;
  - `profile_dictionary.py`, configuration and captions;
  - the tests, which serve only as evidence for properties.
  These are network clients, rendering, floating-point statistics and environment reads.
