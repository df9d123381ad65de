/** The collaboration marts of `app/pipeline/build.py`: id-based edges from
    the discography, name-based edges from the split credits, the same two
    tables derived from recording artist credits, and the fallback that
    uses those only when both primary tables are empty. */
module BuildEdges {
  import opened Wrappers
  import opened PyText
  import opened PyJson
  import opened Seqs
  import opened Ordering
  import opened Build
  import opened BuildMarts

  // ---------------------------------------------------------------------
  // Pairwise aggregation shared by every edge table

  /** The weight-1 rows the nested `i < j` loops append over
      `sorted(set(group))`, group after group. */
  function EdgeRows(groups: seq<seq<string>>): seq<(string, string)>
    decreases |groups|
  {
    if |groups| == 0 then []
    else EdgeRows(groups[..|groups| - 1]) + Pairs(SortedDistinct(groups[|groups| - 1]))
  }

  lemma EdgeRowsSnoc(groups: seq<seq<string>>, g: seq<string>)
    ensures EdgeRows(groups + [g]) == EdgeRows(groups) + Pairs(SortedDistinct(g))
  {
    assert (groups + [g])[..|groups|] == groups;
  }

  /** How many groups list both `a` and `b`. */
  function Together(groups: seq<seq<string>>, a: string, b: string): nat
    decreases |groups|
  {
    if |groups| == 0 then 0
    else
      var g := groups[|groups| - 1];
      Together(groups[..|groups| - 1], a, b) + (if a in g && b in g then 1 else 0)
  }

  lemma {:induction false} TogetherPositive(groups: seq<seq<string>>, a: string, b: string)
    ensures Together(groups, a, b) > 0 <==> exists k :: 0 <= k < |groups| && a in groups[k] && b in groups[k]
    decreases |groups|
  {
    if |groups| > 0 {
      var q := groups[..|groups| - 1];
      TogetherPositive(q, a, b);
      assert forall k :: 0 <= k < |q| ==> q[k] == groups[k];
    }
  }

  /** `(a, b)` is emitted once per group holding both, and only in the order
      `a < b`. */
  lemma {:induction false} EdgeRowsCount(groups: seq<seq<string>>, a: string, b: string)
    ensures Count(EdgeRows(groups), (a, b)) == if Less(a, b) then Together(groups, a, b) else 0
    decreases |groups|
  {
    if |groups| > 0 {
      var q := groups[..|groups| - 1];
      var g := groups[|groups| - 1];
      EdgeRowsCount(q, a, b);
      CountAppend(EdgeRows(q), Pairs(SortedDistinct(g)), (a, b));
      PairsCount(SortedDistinct(g), a, b);
    }
  }

  /** `groupby([first, second])["weight"].sum()` over the rows; an empty row
      list gives the empty table. */
  function Edges(groups: seq<seq<string>>): map<(string, string), nat> {
    Tally(EdgeRows(groups))
  }

  /** An edge exists exactly for two participants in order that share a
      group, weighted by the number of groups they share. */
  lemma EdgesWeight(groups: seq<seq<string>>, a: string, b: string)
    ensures (a, b) in Edges(groups) <==> Less(a, b) && Together(groups, a, b) > 0
    ensures (a, b) in Edges(groups) ==> Edges(groups)[(a, b)] == Together(groups, a, b)
  {
    EdgeRowsCount(groups, a, b);
    CountPositive(EdgeRows(groups), (a, b));
  }

  /** No self-loops and no reversed duplicates. */
  lemma EdgesOriented(groups: seq<seq<string>>, a: string, b: string)
    requires (a, b) in Edges(groups)
    ensures a != b && (b, a) !in Edges(groups)
  {
    EdgesWeight(groups, a, b);
    EdgesWeight(groups, b, a);
    LessIrreflexive(a);
    LessAsymmetric(a, b);
  }

  /** A group with two different participants. */
  predicate Shared(g: seq<string>) {
    exists a, b :: a in g && b in g && a != b
  }

  /** The table is empty exactly when no group has two different
      participants. */
  lemma EdgesEmpty(groups: seq<seq<string>>)
    ensures |Edges(groups)| == 0 <==> forall k :: 0 <= k < |groups| ==> !Shared(groups[k])
  {
    var m := Edges(groups);
    if |m| != 0 {
      assert |m.Keys| != 0;
      var e :| e in m.Keys;
      EdgesWeight(groups, e.0, e.1);
      TogetherPositive(groups, e.0, e.1);
      var k :| 0 <= k < |groups| && e.0 in groups[k] && e.1 in groups[k];
      LessIrreflexive(e.0);
      assert Shared(groups[k]);
    }
    if exists k :: 0 <= k < |groups| && Shared(groups[k]) {
      var k :| 0 <= k < |groups| && Shared(groups[k]);
      var a, b :| a in groups[k] && b in groups[k] && a != b;
      LessTotal(a, b);
      if Less(a, b) {
        TogetherPositive(groups, a, b);
        EdgesWeight(groups, a, b);
        assert (a, b) in m.Keys;
      } else {
        TogetherPositive(groups, b, a);
        EdgesWeight(groups, b, a);
        assert (b, a) in m.Keys;
      }
    }
  }

  /** The elements whose group lists both `a` and `b`. */
  function Both<X>(grp: X -> seq<string>, a: string, b: string): X -> bool {
    x => a in grp(x) && b in grp(x)
  }

  /** Shared groups counted over the elements they come from. */
  lemma {:induction false} TogetherOf<X(!new)>(xs: seq<X>, grp: X -> seq<string>, a: string, b: string)
    ensures Together(Map(xs, grp), a, b) == |Filter(xs, Both(grp, a, b))|
    decreases |xs|
  {
    if |xs| > 0 {
      var q := xs[..|xs| - 1];
      TogetherOf(q, grp, a, b);
      assert Map(xs, grp)[..|xs| - 1] == Map(q, grp);
    }
  }

  /** The nested loops over a list of groups, appending the pair rows of
      each. */
  method CollectEdgeRows(groups: seq<seq<string>>) returns (rows: seq<(string, string)>)
    ensures rows == EdgeRows(groups)
  {
    rows := [];
    var k := 0;
    while k < |groups|
      invariant 0 <= k <= |groups|
      invariant rows == EdgeRows(groups[..k])
    {
      var ids := SortedDistinct(groups[k]);
      var pairs := PairRows(ids);
      EdgeRowsSnoc(groups[..k], groups[k]);
      assert groups[..k + 1] == groups[..k] + [groups[k]];
      rows := rows + pairs;
      k := k + 1;
    }
    assert groups[..k] == groups;
  }

  /** The rows, then the summing group-by. */
  method AggregateEdges(groups: seq<seq<string>>) returns (edges: map<(string, string), nat>)
    ensures edges == Edges(groups)
  {
    var rows := CollectEdgeRows(groups);
    edges := Tally(rows);
  }

  // ---------------------------------------------------------------------
  // artist_collaborations: id edges over the discography

  /** The `release_group_id` column. */
  function RgColumn(discog: seq<DiscogRow>): (r: seq<string>)
    ensures |r| == |discog| && forall i :: 0 <= i < |discog| ==> r[i] == discog[i].rgMbid
  {
    seq(|discog|, i requires 0 <= i < |discog| => discog[i].rgMbid)
  }

  /** `grp["artist_id"]` for the group of release group `r`. */
  function Members(discog: seq<DiscogRow>, r: string): seq<string>
    decreases |discog|
  {
    if |discog| == 0 then []
    else
      var x := discog[|discog| - 1];
      Members(discog[..|discog| - 1], r) + (if x.rgMbid == r then [x.artistMbid] else [])
  }

  lemma {:induction false} MembersMember(discog: seq<DiscogRow>, r: string, a: string)
    ensures a in Members(discog, r) <==> exists i :: 0 <= i < |discog| && discog[i].rgMbid == r && discog[i].artistMbid == a
    decreases |discog|
  {
    if |discog| > 0 {
      var q := discog[..|discog| - 1];
      MembersMember(q, r, a);
      assert forall i :: 0 <= i < |q| ==> q[i] == discog[i];
    }
  }

  function MembersOf(discog: seq<DiscogRow>): string -> seq<string> {
    r => Members(discog, r)
  }

  /** `g.groupby("release_group_id")`: one group per distinct release group,
      in key order. */
  function IdGroups(discog: seq<DiscogRow>): seq<seq<string>> {
    Map(SortedDistinct(RgColumn(discog)), MembersOf(discog))
  }

  function IdEdges(discog: seq<DiscogRow>): map<(string, string), nat> {
    Edges(IdGroups(discog))
  }

  /** The release groups on which both `a` and `b` have a discography row. */
  function SharedRgs(discog: seq<DiscogRow>, a: string, b: string): set<string> {
    set r | r in RgColumn(discog) && a in Members(discog, r) && b in Members(discog, r)
  }

  /** An id edge joins two artists in order that share a release group; its
      weight is the number of release groups they share. */
  lemma IdEdgesWeight(discog: seq<DiscogRow>, a: string, b: string)
    ensures (a, b) in IdEdges(discog) <==> Less(a, b) && |SharedRgs(discog, a, b)| > 0
    ensures (a, b) in IdEdges(discog) ==> IdEdges(discog)[(a, b)] == |SharedRgs(discog, a, b)|
  {
    var ids := SortedDistinct(RgColumn(discog));
    var both := Both(MembersOf(discog), a, b);
    TogetherOf(ids, MembersOf(discog), a, b);
    var f := Filter(ids, both);
    StrictlySortedDistinct(ids);
    FilterDistinct(ids, both);
    DistinctCard(f);
    assert (set x | x in f) == SharedRgs(discog, a, b);
    EdgesWeight(IdGroups(discog), a, b);
  }

  /** The id-edge loop over the grouped discography. */
  method BuildIdEdges(discog: seq<DiscogRow>) returns (edges: map<(string, string), nat>)
    ensures edges == IdEdges(discog)
  {
    edges := AggregateEdges(IdGroups(discog));
  }

  // ---------------------------------------------------------------------
  // artist_collaborations_names: name edges over the split credits

  /** The names the name-edge filter drops; the test is on the lower-cased
      name. */
  predicate Various(n: string) {
    Lower(n) == "various" || Lower(n) == "various artists"
  }

  predicate Named(n: string) {
    !Various(n)
  }

  /** The participants of one release group: its credit tokens without
      "various" names. No case folding: "Ann" and "ann" are two names. */
  function NameGroupOf(rg: RawRg): seq<string> {
    Filter(Tokens(CreditOf(rg)), Named)
  }

  /** The filter never removes anything: `split_credit` already drops those
      names. */
  lemma NameFilterRedundant(rg: RawRg)
    ensures NameGroupOf(rg) == Tokens(CreditOf(rg))
  {
    var c := CreditOf(rg);
    var toks := Tokens(c);
    forall t | t in toks ensures !Blocked(t) {
      TokensClean(c, t);
    }
    UnblockedNamed(toks);
  }

  lemma UnblockedNamed(toks: seq<string>)
    requires forall t :: t in toks ==> !Blocked(t)
    ensures Filter(toks, Named) == toks
  {
    FilterAll(toks, Named);
  }

  /** One group per release group with a non-null credit. */
  function NameGroups(rgs: seq<RawRg>): seq<seq<string>> {
    Map(Filter(rgs, Credited), NameGroupOf)
  }

  function NameEdges(rgs: seq<RawRg>): map<(string, string), nat> {
    Edges(NameGroups(rgs))
  }

  /** A name edge joins two names in order that both occur in some credited
      release group; its weight is the number of such release groups. */
  lemma NameEdgesWeight(rgs: seq<RawRg>, a: string, b: string)
    ensures (a, b) in NameEdges(rgs) <==> Less(a, b) && |Filter(Filter(rgs, Credited), Both(NameGroupOf, a, b))| > 0
    ensures (a, b) in NameEdges(rgs) ==> NameEdges(rgs)[(a, b)] == |Filter(Filter(rgs, Credited), Both(NameGroupOf, a, b))|
  {
    TogetherOf(Filter(rgs, Credited), NameGroupOf, a, b);
    EdgesWeight(NameGroups(rgs), a, b);
  }

  /** `split_credit` of one credit, then the "various" filter. */
  method NameGroupFor(rg: RawRg) returns (names: seq<string>)
    ensures names == NameGroupOf(rg)
  {
    var toks := SplitCredit(CreditOf(rg));
    names := Filter(toks, Named);
  }

  /** The name-edge loop over the credited release groups. */
  method BuildNameEdges(rgs: seq<RawRg>) returns (edges: map<(string, string), nat>)
    ensures edges == NameEdges(rgs)
  {
    var groups := NameGroupsLoop(Filter(rgs, Credited), NameGroupOf);
    edges := AggregateEdges(groups);
  }

  /** The participant lists, one release group at a time; `grp` names the
      specification of one step. */
  method NameGroupsLoop(credited: seq<RawRg>, ghost grp: RawRg -> seq<string>) returns (groups: seq<seq<string>>)
    requires forall k :: 0 <= k < |credited| ==> grp(credited[k]) == NameGroupOf(credited[k])
    ensures groups == Map(credited, grp)
  {
    groups := [];
    var i := 0;
    while i < |credited|
      invariant 0 <= i <= |credited|
      invariant groups == Map(credited[..i], grp)
    {
      var names := NameGroupFor(credited[i]);
      MapPrefix(credited, i, grp);
      groups := groups + [names];
      i := i + 1;
    }
    assert credited[..i] == credited;
  }

  // ---------------------------------------------------------------------
  // collabs_from_recordings

  /** `part.get("artist") or {}`. */
  function ArtistOf(part: Json): Json {
    Or(Get(part, "artist"), JObj([]))
  }

  /** The artist id of a credit part, when it is a non-empty string. */
  function IdOf(part: Json): Option<string> {
    match Get(ArtistOf(part), "id")
    case JStr(s) => if s != "" then Some(s) else None
    case _ => None
  }

  /** `art.get("name") or art.get("sort-name")`, when that is a non-empty
      string. */
  function NameOf(part: Json): Option<string> {
    var art := ArtistOf(part);
    match Or(Get(art, "name"), Get(art, "sort-name"))
    case JStr(s) => if s != "" then Some(s) else None
    case _ => None
  }

  /** The values `f` finds, in part order. */
  function Found(parts: seq<Json>, f: Json -> Option<string>): seq<string>
    decreases |parts|
  {
    if |parts| == 0 then []
    else
      var prev := Found(parts[..|parts| - 1], f);
      match f(parts[|parts| - 1])
      case Some(v) => prev + [v]
      case None => prev
  }

  lemma {:induction false} FoundMember(parts: seq<Json>, f: Json -> Option<string>, v: string)
    ensures v in Found(parts, f) <==> exists i :: 0 <= i < |parts| && f(parts[i]) == Some(v)
    decreases |parts|
  {
    if |parts| > 0 {
      var q := parts[..|parts| - 1];
      FoundMember(q, f, v);
      assert forall i :: 0 <= i < |q| ==> q[i] == parts[i];
    }
  }

  /** `rec.get("artist-credit", [])`. */
  function CreditParts(rec: Json): seq<Json> {
    Items(Get(rec, "artist-credit"))
  }

  function CreditIds(rec: Json): seq<string> {
    Found(CreditParts(rec), IdOf)
  }

  function CreditNames(rec: Json): seq<string> {
    Found(CreditParts(rec), NameOf)
  }

  /** The loop over the credit parts of one recording. */
  method CreditLists(rec: Json) returns (ids: seq<string>, names: seq<string>)
    ensures ids == CreditIds(rec) && names == CreditNames(rec)
  {
    var parts := CreditParts(rec);
    ids, names := [], [];
    var k := 0;
    while k < |parts|
      invariant 0 <= k <= |parts|
      invariant ids == Found(parts[..k], IdOf) && names == Found(parts[..k], NameOf)
    {
      assert parts[..k + 1][..k] == parts[..k];
      var aid := IdOf(parts[k]);
      var nm := NameOf(parts[k]);
      if aid.Some? {
        ids := ids + [aid.value];
      }
      if nm.Some? {
        names := names + [nm.value];
      }
      k := k + 1;
    }
    assert parts[..k] == parts;
  }

  /** Both edge tables from the recordings file; `None` stands for a missing
      file, which gives two empty tables. */
  function RecordingCollabs(recs: Option<seq<Json>>): (map<(string, string), nat>, map<(string, string), nat>) {
    match recs
    case None => (map[], map[])
    case Some(rs) => (Edges(Map(rs, CreditIds)), Edges(Map(rs, CreditNames)))
  }

  /** A recording edge joins two credited ids (names) in order, weighted by
      the number of recordings crediting both. */
  lemma RecordingCollabsWeight(rs: seq<Json>, a: string, b: string)
    ensures (a, b) in RecordingCollabs(Some(rs)).0 <==> Less(a, b) && |Filter(rs, Both(CreditIds, a, b))| > 0
    ensures (a, b) in RecordingCollabs(Some(rs)).0 ==> RecordingCollabs(Some(rs)).0[(a, b)] == |Filter(rs, Both(CreditIds, a, b))|
    ensures (a, b) in RecordingCollabs(Some(rs)).1 <==> Less(a, b) && |Filter(rs, Both(CreditNames, a, b))| > 0
    ensures (a, b) in RecordingCollabs(Some(rs)).1 ==> RecordingCollabs(Some(rs)).1[(a, b)] == |Filter(rs, Both(CreditNames, a, b))|
  {
    TogetherOf(rs, CreditIds, a, b);
    EdgesWeight(Map(rs, CreditIds), a, b);
    TogetherOf(rs, CreditNames, a, b);
    EdgesWeight(Map(rs, CreditNames), a, b);
  }

  /** `collabs_from_recordings`: the loop over recordings with the two
      nested pair loops, then the two summing group-bys. */
  method CollabsFromRecordings(recs: Option<seq<Json>>) returns (idEdges: map<(string, string), nat>, nameEdges: map<(string, string), nat>)
    ensures (idEdges, nameEdges) == RecordingCollabs(recs)
  {
    if recs.None? {
      return map[], map[];
    }
    var rs := recs.value;
    var rowsId: seq<(string, string)> := [];
    var rowsName: seq<(string, string)> := [];
    var i := 0;
    while i < |rs|
      invariant 0 <= i <= |rs|
      invariant rowsId == EdgeRows(Map(rs[..i], CreditIds))
      invariant rowsName == EdgeRows(Map(rs[..i], CreditNames))
    {
      var ids, names := CreditLists(rs[i]);
      var idPairs := PairRows(SortedDistinct(ids));
      var namePairs := PairRows(SortedDistinct(names));
      MapPrefix(rs, i, CreditIds);
      MapPrefix(rs, i, CreditNames);
      EdgeRowsSnoc(Map(rs[..i], CreditIds), ids);
      EdgeRowsSnoc(Map(rs[..i], CreditNames), names);
      rowsId := rowsId + idPairs;
      rowsName := rowsName + namePairs;
      i := i + 1;
    }
    assert rs[..i] == rs;
    idEdges := Tally(rowsId);
    nameEdges := Tally(rowsName);
  }

  // ---------------------------------------------------------------------
  // The fallback to recordings

  /** The two written tables: each recording table is written over its
      empty counterpart only when both primary tables are empty and it is
      not empty itself. */
  function Fallback(ids: map<(string, string), nat>, names: map<(string, string), nat>,
                    rec: (map<(string, string), nat>, map<(string, string), nat>)): (r: (map<(string, string), nat>, map<(string, string), nat>))
    ensures |ids| != 0 || |names| != 0 ==> r == (ids, names)
    ensures |ids| == 0 && |names| == 0 ==> r == rec
  {
    if |ids| == 0 && |names| == 0 then
      ((if |rec.0| != 0 then rec.0 else ids), (if |rec.1| != 0 then rec.1 else names))
    else (ids, names)
  }
}
