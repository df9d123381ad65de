/** `build()` of `app/pipeline/build.py`: every mart computed from the clean
    tables, with the recordings fallback for the collaboration tables. */
module BuildPipeline {
  import opened Wrappers
  import opened PyJson
  import opened Build
  import opened BuildMarts
  import opened BuildEdges

  /** The marts `build()` writes. */
  datatype Marts = Marts(
    discography: seq<DiscogRow>,
    artists: seq<Artist>,
    releaseGroups: seq<PrimaryRow>,
    byYear: map<int, nat>,
    byDecade: map<(int, string), nat>,
    collabs: map<(string, string), nat>,
    collabNames: map<(string, string), nat>)

  /** The marts as functions of the clean tables; `recs` is the recordings
      file, `None` when it does not exist. */
  function AllMarts(artists: seq<Artist>, rgs: seq<ReleaseGroup>, eg: seq<EntityGenre>, recs: Option<seq<Json>>): Marts {
    var raw := RawRgs(rgs);
    var patt := Patterns(artists);
    var n2i := NameToId(artists);
    var discog := Discography(raw, patt, n2i);
    var edges := Fallback(IdEdges(discog), NameEdges(raw), RecordingCollabs(recs));
    Marts(discog, ArtistsMart(artists), PrimaryTable(raw, patt, n2i), YearCounts(raw), DecadeCounts(eg, raw), edges.0, edges.1)
  }

  /** `build()`: the loops in source order; the recordings file is read only
      when both collaboration tables came out empty. */
  method BuildAll(artists: seq<Artist>, rgs: seq<ReleaseGroup>, eg: seq<EntityGenre>, recs: Option<seq<Json>>) returns (m: Marts)
    ensures m == AllMarts(artists, rgs, eg, recs)
  {
    var raw := RawRgs(rgs);
    var patt := Patterns(artists);
    var n2i := NameToId(artists);
    var discog := BuildDiscography(raw, patt, n2i);
    var mart := ArtistsMart(artists);
    var prim := BuildPrimary(raw, patt, n2i);
    var byYear := YearCounts(raw);
    var byDecade := DecadeCounts(eg, raw);
    var collabs := BuildIdEdges(discog);
    var collabNames := BuildNameEdges(raw);
    if |collabs| == 0 && |collabNames| == 0 {
      var recId, recName := CollabsFromRecordings(recs);
      if |recId| != 0 {
        collabs := recId;
      }
      if |recName| != 0 {
        collabNames := recName;
      }
    }
    m := Marts(discog, mart, prim, byYear, byDecade, collabs, collabNames);
  }
}
