/** The relation marts of `app/pipeline/marts_relations.py`: artist roles,
    the producer-performer network, label affiliations, release groups by
    year and country, and the genre co-occurrence matrix. The inputs are the
    decoded lines of the artist and release-group relation files. */
module MartsRelations {
  import opened Wrappers
  import opened PyText
  import opened PyJson
  import opened Seqs
  import opened Ordering
  import BuildDiscog
  import BuildEdges

  /** A table with its declared column names. */
  datatype Frame<R> = Frame(columns: seq<string>, rows: seq<R>)

  /** `(x.get(key) or [])`, iterated; by `ItemsOrEmpty` the `or []` changes
      nothing. */
  function ListAt(x: Json, key: string): seq<Json> {
    Items(Get(x, key))
  }

  /** `(x.get(key) or {}).get(field)`; by `GetOrEmpty` the `or {}` changes
      nothing. */
  function SubGet(x: Json, key: string, field: string): Json {
    Get(Get(x, key), field)
  }

  // ---------------------------------------------------------------------
  // _safe

  /** `_safe(x, *keys)`: the value reached by following `keys`; a step from
      anything but an object gives `None`. */
  function SafePath(x: Json, keys: seq<string>): Json
    decreases |keys|
  {
    if |keys| == 0 then x
    else if x.JObj? then SafePath(Get(x, keys[0]), keys[1..])
    else JNull
  }

  /** Following `a + b` is following `a`, then `b`. */
  lemma {:induction false} SafeCompose(x: Json, a: seq<string>, b: seq<string>)
    ensures SafePath(x, a + b) == SafePath(SafePath(x, a), b)
    decreases |a|
  {
    if |a| == 0 {
      assert a + b == b;
    } else if x.JObj? {
      assert (a + b)[1..] == a[1..] + b;
      SafeCompose(Get(x, a[0]), a[1..], b);
    }
  }

  /** Once an intermediate value is not an object the result is `None`. */
  lemma SafeStops(x: Json, keys: seq<string>, i: int)
    requires 0 <= i < |keys| && !SafePath(x, keys[..i]).JObj?
    ensures SafePath(x, keys) == JNull
  {
    SafeCompose(x, keys[..i], keys[i..]);
    assert keys[..i] + keys[i..] == keys;
  }

  /** The loop of `_safe`, with its early return on `None`. */
  method Safe(x: Json, keys: seq<string>) returns (r: Json)
    ensures r == SafePath(x, keys)
    ensures |keys| == 0 ==> r == x
  {
    var cur := x;
    var i := 0;
    while i < |keys|
      invariant 0 <= i <= |keys|
      invariant SafePath(cur, keys[i..]) == SafePath(x, keys)
    {
      if cur == JNull {
        return JNull;
      }
      assert keys[i..][1..] == keys[i + 1..];
      cur := if cur.JObj? then Get(cur, keys[i]) else JNull;
      i := i + 1;
    }
    return cur;
  }

  // ---------------------------------------------------------------------
  // build_artist_roles

  const Roles: set<string> := {"producer", "remixer", "engineer", "composer", "lyricist", "vocal supporting", "performer"}

  const RoleColumns: seq<string> := ["artist_id", "artist_name", "role_type", "target_type", "target_id", "area", "tags", "genres"]

  datatype RoleRow = RoleRow(
    artistId: Json,
    artistName: Json,
    roleType: string,
    targetType: Json,
    targetId: Json,
    area: Json,
    tags: Option<string>,
    genres: Option<string>)

  /** A relation whose `type` is one of the seven roles. */
  predicate IsRole(rel: Json) {
    Get(rel, "type").JStr? && Get(rel, "type").s in Roles
  }

  /** The id of the sub-object the relation's `target-type` names; `None`
      for any other target type. */
  function TargetId(rel: Json): (r: Json)
    ensures r != JNull ==>
      Get(rel, "target-type") in {JStr("artist"), JStr("work"), JStr("recording"), JStr("release_group"), JStr("release-group")}
  {
    var t := Get(rel, "target-type");
    if t == JStr("artist") then SubGet(rel, "artist", "id")
    else if t == JStr("work") then SubGet(rel, "work", "id")
    else if t == JStr("recording") then SubGet(rel, "recording", "id")
    else if t == JStr("release_group") || t == JStr("release-group") then SubGet(rel, "release-group", "id")
    else JNull
  }

  /** `[t.get("name") for t in items if isinstance(t, dict)]`, for the names
      that are strings. */
  function TagNames(items: seq<Json>): (r: seq<string>)
    ensures |r| <= |items|
    decreases |items|
  {
    if |items| == 0 then []
    else
      var t := items[|items| - 1];
      TagNames(items[..|items| - 1]) + (if t.JObj? && Get(t, "name").JStr? then [Get(t, "name").s] else [])
  }

  /** `";".join(names) if names else None`. */
  function Joined(names: seq<string>): (r: Option<string>)
    ensures r.None? <==> |names| == 0
  {
    if |names| == 0 then None else Some(Join(names, ";"))
  }

  /** The tags column splits back into the tag names when none of them
      holds a `;`. */
  lemma JoinedSplits(names: seq<string>)
    requires forall n :: n in names ==> !Contains(n, ";")
    ensures Joined(names).Some? ==> Split(Joined(names).value, ";") == names
  {
    if |names| > 0 {
      SplitJoin(names, ';');
    }
  }

  /** The row appended for relation `rel` of artist `a`. */
  function RoleRowOf(a: Json, rel: Json): RoleRow
    requires IsRole(rel)
  {
    RoleRow(Get(a, "id"), Get(a, "name"), Get(rel, "type").s, Get(rel, "target-type"), TargetId(rel),
      SubGet(a, "area", "name"), Joined(TagNames(ListAt(a, "tags"))), Joined(TagNames(ListAt(a, "genres"))))
  }

  function RelRoleRows(a: Json): Json -> seq<RoleRow> {
    rel => if IsRole(rel) then [RoleRowOf(a, rel)] else []
  }

  /** The rows of one artist, one per role relation, in order. */
  function ArtistRoleRows(a: Json): seq<RoleRow> {
    FlatMap(ListAt(a, "relations"), RelRoleRows(a))
  }

  function RoleRows(objs: seq<Json>): seq<RoleRow> {
    FlatMap(objs, ArtistRoleRows)
  }

  /** `build_artist_roles`: always the eight declared columns. */
  function ArtistRoles(objs: seq<Json>): Frame<RoleRow> {
    Frame(RoleColumns, RoleRows(objs))
  }

  /** One row per role relation of the artist. */
  lemma {:induction false} ArtistRoleRowsCount(a: Json, rels: seq<Json>)
    ensures |FlatMap(rels, RelRoleRows(a))| == |Filter(rels, IsRole)|
    decreases |rels|
  {
    if |rels| > 0 {
      ArtistRoleRowsCount(a, rels[..|rels| - 1]);
    }
  }

  /** Every row comes from a role relation of an input artist. */
  lemma ArtistRolesSound(objs: seq<Json>, x: RoleRow)
    requires x in ArtistRoles(objs).rows
    ensures exists a, rel :: a in objs && rel in ListAt(a, "relations") && IsRole(rel) && x == RoleRowOf(a, rel)
    ensures x.roleType in Roles
  {
    FlatMapMember(objs, ArtistRoleRows);
    var a :| a in objs && x in ArtistRoleRows(a);
    FlatMapMember(ListAt(a, "relations"), RelRoleRows(a));
    var rel :| rel in ListAt(a, "relations") && x in RelRoleRows(a)(rel);
  }

  /** Every role relation of an input artist gives a row. */
  lemma ArtistRolesComplete(objs: seq<Json>, a: Json, rel: Json)
    requires a in objs && rel in ListAt(a, "relations") && IsRole(rel)
    ensures RoleRowOf(a, rel) in ArtistRoles(objs).rows
  {
    FlatMapMember(ListAt(a, "relations"), RelRoleRows(a));
    assert RoleRowOf(a, rel) in RelRoleRows(a)(rel);
    FlatMapMember(objs, ArtistRoleRows);
  }

  /** No input, or no role relation, gives the empty table, still with the
      declared columns. */
  lemma ArtistRolesEmpty(objs: seq<Json>)
    ensures ArtistRoles(objs).columns == RoleColumns && |RoleColumns| == 8
    ensures |ArtistRoles(objs).rows| == 0 <==>
      forall a, rel :: a in objs && rel in ListAt(a, "relations") ==> !IsRole(rel)
  {
    var rows := ArtistRoles(objs).rows;
    if |rows| > 0 {
      ArtistRolesSound(objs, rows[0]);
    }
    forall a, rel | a in objs && rel in ListAt(a, "relations") && IsRole(rel) ensures |rows| > 0 {
      ArtistRolesComplete(objs, a, rel);
    }
  }

  /** The loop over one artist's relations. */
  method ArtistRoleLoop(a: Json) returns (rows: seq<RoleRow>)
    ensures rows == ArtistRoleRows(a)
  {
    var aId, aName := Get(a, "id"), Get(a, "name");
    var area := SubGet(a, "area", "name");
    var tags := TagNames(ListAt(a, "tags"));
    var genres := TagNames(ListAt(a, "genres"));
    var rels := ListAt(a, "relations");
    rows := [];
    var k := 0;
    while k < |rels|
      invariant 0 <= k <= |rels|
      invariant rows == FlatMap(rels[..k], RelRoleRows(a))
    {
      var rel := rels[k];
      FlatMapPrefix(rels, k, RelRoleRows(a));
      var rtype, ttype := Get(rel, "type"), Get(rel, "target-type");
      if rtype.JStr? && rtype.s in Roles {
        var tid := TargetId(rel);
        rows := rows + [RoleRow(aId, aName, rtype.s, ttype, tid, area, Joined(tags), Joined(genres))];
      }
      k := k + 1;
    }
    assert rels[..k] == rels;
  }

  /** `build_artist_roles`: the row loops over every artist. */
  method BuildArtistRoles(objs: seq<Json>) returns (f: Frame<RoleRow>)
    ensures f == ArtistRoles(objs)
  {
    if |objs| == 0 {
      return Frame(RoleColumns, []);
    }
    var rows := [];
    var i := 0;
    while i < |objs|
      invariant 0 <= i <= |objs|
      invariant rows == FlatMap(objs[..i], ArtistRoleRows)
    {
      var more := ArtistRoleLoop(objs[i]);
      FlatMapPrefix(objs, i, ArtistRoleRows);
      rows := rows + more;
      i := i + 1;
    }
    assert objs[..i] == objs;
    f := Frame(RoleColumns, rows);
  }

  // ---------------------------------------------------------------------
  // build_producer_network

  datatype Link = Link(sourceId: Json, sourceName: Json, targetIdArtist: Json, targetName: Json, targetId: Json)

  /** `role_type.str.contains("producer")`. */
  predicate Producing(r: RoleRow) {
    Contains(r.roleType, "producer")
  }

  /** `role_type.str.contains("performer|vocal")`. */
  predicate Performing(r: RoleRow) {
    Contains(r.roleType, "performer") || Contains(r.roleType, "vocal")
  }

  /** The merged row of a producer row and a performer row, renamed. */
  function LinkOf(p: RoleRow, q: RoleRow): Link {
    Link(p.artistId, p.artistName, q.artistId, q.artistName, p.targetId)
  }

  function LinksWith(p: RoleRow): RoleRow -> seq<Link> {
    (q: RoleRow) => if q.targetId == p.targetId then [LinkOf(p, q)] else []
  }

  function LinksTo(perfs: seq<RoleRow>): RoleRow -> seq<Link> {
    (p: RoleRow) => FlatMap(perfs, LinksWith(p))
  }

  /** `producers.merge(performers, on="target_id")`: an inner join in which
      equal keys match, null keys included. */
  function MergeOnTarget(prods: seq<RoleRow>, perfs: seq<RoleRow>): seq<Link> {
    FlatMap(prods, LinksTo(perfs))
  }

  /** Neither `source_id` nor `target_id_artist` is null. */
  predicate BothIds(l: Link) {
    l.sourceId != JNull && l.targetIdArtist != JNull
  }

  /** `build_producer_network`. */
  function ProducerNetwork(roles: seq<RoleRow>): seq<Link> {
    var prods := Filter(roles, Producing);
    var perfs := Filter(roles, Performing);
    if |roles| == 0 || |prods| == 0 || |perfs| == 0 then []
    else Dedup(Filter(MergeOnTarget(prods, perfs), BothIds))
  }

  /** Every link pairs a producer row with a performer row on the same
      target, and carries both artist ids. */
  lemma ProducerNetworkSound(roles: seq<RoleRow>, x: Link)
    requires x in ProducerNetwork(roles)
    ensures exists p, q :: p in roles && q in roles && Producing(p) && Performing(q) && p.targetId == q.targetId && x == LinkOf(p, q)
    ensures BothIds(x)
  {
    var prods := Filter(roles, Producing);
    var perfs := Filter(roles, Performing);
    FlatMapMember(prods, LinksTo(perfs));
    var p :| p in prods && x in LinksTo(perfs)(p);
    FlatMapMember(perfs, LinksWith(p));
    var q :| q in perfs && x in LinksWith(p)(q);
  }

  /** Every such pair with both ids present gives a link. */
  lemma ProducerNetworkComplete(roles: seq<RoleRow>, p: RoleRow, q: RoleRow)
    requires p in roles && q in roles && Producing(p) && Performing(q) && p.targetId == q.targetId
    requires BothIds(LinkOf(p, q))
    ensures LinkOf(p, q) in ProducerNetwork(roles)
  {
    var prods := Filter(roles, Producing);
    var perfs := Filter(roles, Performing);
    FlatMapMember(perfs, LinksWith(p));
    assert LinkOf(p, q) in LinksWith(p)(q);
    FlatMapMember(prods, LinksTo(perfs));
  }

  /** The network has no duplicate rows. */
  lemma ProducerNetworkDistinct(roles: seq<RoleRow>)
    ensures Distinct(ProducerNetwork(roles))
  {
  }

  // ---------------------------------------------------------------------
  // build_label_affiliations

  datatype Affiliation = Affiliation(
    artistId: Json,
    artistName: Json,
    labelId: Json,
    labelName: Json,
    relationType: Json,
    begin: Json,
    end: Json)

  predicate LabelRel(rel: Json) {
    Get(rel, "target-type") == JStr("label")
  }

  /** The row for artist (or credited artist) `art` and label relation
      `rel`. */
  function AffOf(art: Json, rel: Json): Affiliation {
    var lab := Get(rel, "label");
    Affiliation(Get(art, "id"), Get(art, "name"), Get(lab, "id"), Get(lab, "name"),
      Get(rel, "type"), Get(rel, "begin"), Get(rel, "end"))
  }

  function ArtistLabelRel(a: Json): Json -> seq<Affiliation> {
    rel => if LabelRel(rel) then [AffOf(a, rel)] else []
  }

  /** The rows of one artist's label relations. */
  function ArtistLabelRows(a: Json): seq<Affiliation> {
    FlatMap(ListAt(a, "relations"), ArtistLabelRel(a))
  }

  /** `(ac.get("artist") or {})` for a credit entry, read through `Get`. */
  function CreditArtist(ac: Json): Json {
    Get(ac, "artist")
  }

  function CreditAff(rel: Json): Json -> seq<Affiliation> {
    ac => [AffOf(CreditArtist(ac), rel)]
  }

  /** One row per credited artist, for a label relation. */
  function CreditAffs(credits: seq<Json>, rel: Json): seq<Affiliation> {
    FlatMap(credits, CreditAff(rel))
  }

  function RgLabelRel(credits: seq<Json>): Json -> seq<Affiliation> {
    rel => if LabelRel(rel) then CreditAffs(credits, rel) else []
  }

  /** `rg.get("relations") or []` and `rg.get("artist-credit") or []`. */
  function Relations(rg: Json): seq<Json> {
    ListAt(rg, "relations")
  }

  function Credits(rg: Json): seq<Json> {
    ListAt(rg, "artist-credit")
  }

  /** The rows of one release group: every label relation crossed with
      every credited artist, for lists read by `relsOf` and `credsOf`. */
  function RgLabelRowsBy(relsOf: Json -> seq<Json>, credsOf: Json -> seq<Json>): Json -> seq<Affiliation> {
    rg => FlatMap(relsOf(rg), RgLabelRel(credsOf(rg)))
  }

  /** The appended rows: the artist part, then the release-group part. */
  function LabelRows(artists: seq<Json>, rgs: seq<Json>): seq<Affiliation> {
    FlatMap(artists, ArtistLabelRows) + FlatMap(rgs, RgLabelRowsBy(Relations, Credits))
  }

  predicate Identified(x: Affiliation) {
    x.artistId != JNull && x.labelId != JNull
  }

  /** `build_label_affiliations`: nulls dropped, then duplicates. */
  function LabelAffiliations(artists: seq<Json>, rgs: seq<Json>): seq<Affiliation> {
    var rows := LabelRows(artists, rgs);
    if |rows| == 0 then [] else Dedup(Filter(rows, Identified))
  }

  /** A built row is an artist's label relation or a credited artist of a
      release group with a label relation. */
  predicate FromArtist(artists: seq<Json>, x: Affiliation) {
    exists a, rel :: a in artists && rel in ListAt(a, "relations") && LabelRel(rel) && x == AffOf(a, rel)
  }

  predicate FromRgBy(rgs: seq<Json>, relsOf: Json -> seq<Json>, credsOf: Json -> seq<Json>, x: Affiliation) {
    exists rg, rel, ac :: rg in rgs && rel in relsOf(rg) && LabelRel(rel) && ac in credsOf(rg) &&
      x == AffOf(CreditArtist(ac), rel)
  }

  predicate FromRg(rgs: seq<Json>, x: Affiliation) {
    FromRgBy(rgs, Relations, Credits, x)
  }

  lemma ArtistLabelSound(artists: seq<Json>, x: Affiliation)
    requires x in FlatMap(artists, ArtistLabelRows)
    ensures FromArtist(artists, x)
  {
    FlatMapMember(artists, ArtistLabelRows);
    var a :| a in artists && x in ArtistLabelRows(a);
    FlatMapMember(ListAt(a, "relations"), ArtistLabelRel(a));
    var rel :| rel in ListAt(a, "relations") && x in ArtistLabelRel(a)(rel);
  }

  /** The crossed rows of label relations `rels` and credits `credits`. */
  lemma CrossSound(rels: seq<Json>, credits: seq<Json>, x: Affiliation) returns (rel: Json)
    requires x in FlatMap(rels, RgLabelRel(credits))
    ensures rel in rels && LabelRel(rel) && x in CreditAffs(credits, rel)
  {
    FlatMapPick(rels, RgLabelRel(credits), x);
    rel :| rel in rels && x in RgLabelRel(credits)(rel);
  }

  lemma CreditSound(credits: seq<Json>, rel: Json, x: Affiliation) returns (ac: Json)
    requires x in CreditAffs(credits, rel)
    ensures ac in credits && x == AffOf(CreditArtist(ac), rel)
  {
    FlatMapPick(credits, CreditAff(rel), x);
    ac :| ac in credits && x in CreditAff(rel)(ac);
  }

  lemma CrossComplete(rels: seq<Json>, credits: seq<Json>, rel: Json, ac: Json)
    requires rel in rels && LabelRel(rel) && ac in credits
    ensures AffOf(CreditArtist(ac), rel) in FlatMap(rels, RgLabelRel(credits))
  {
    FlatMapMember(credits, CreditAff(rel));
    assert AffOf(CreditArtist(ac), rel) in CreditAff(rel)(ac);
    FlatMapMember(rels, RgLabelRel(credits));
    assert AffOf(CreditArtist(ac), rel) in RgLabelRel(credits)(rel);
  }

  lemma RgWitness(rgs: seq<Json>, relsOf: Json -> seq<Json>, credsOf: Json -> seq<Json>, x: Affiliation, rg: Json, rel: Json, ac: Json)
    requires rg in rgs && rel in relsOf(rg) && LabelRel(rel) && ac in credsOf(rg)
    requires x == AffOf(CreditArtist(ac), rel)
    ensures FromRgBy(rgs, relsOf, credsOf, x)
  {
  }

  lemma RgLabelRowSound(rgs: seq<Json>, relsOf: Json -> seq<Json>, credsOf: Json -> seq<Json>, rg: Json, x: Affiliation)
    requires rg in rgs && x in RgLabelRowsBy(relsOf, credsOf)(rg)
    ensures FromRgBy(rgs, relsOf, credsOf, x)
  {
    var rels, credits := relsOf(rg), credsOf(rg);
    var rel := CrossSound(rels, credits, x);
    var ac := CreditSound(credits, rel, x);
    RgWitness(rgs, relsOf, credsOf, x, rg, rel, ac);
  }

  lemma RgLabelsSound(rgs: seq<Json>, x: Affiliation)
    requires x in FlatMap(rgs, RgLabelRowsBy(Relations, Credits))
    ensures FromRg(rgs, x)
  {
    FlatMapPick(rgs, RgLabelRowsBy(Relations, Credits), x);
    var rg :| rg in rgs && x in RgLabelRowsBy(Relations, Credits)(rg);
    RgLabelRowSound(rgs, Relations, Credits, rg, x);
  }

  lemma LabelRowsSound(artists: seq<Json>, rgs: seq<Json>, x: Affiliation)
    requires x in LabelRows(artists, rgs)
    ensures FromArtist(artists, x) || FromRg(rgs, x)
  {
    if x in FlatMap(artists, ArtistLabelRows) {
      ArtistLabelSound(artists, x);
    } else {
      RgLabelsSound(rgs, x);
    }
  }

  /** Every output row is built, has both ids and occurs once. */
  lemma LabelAffiliationsSound(artists: seq<Json>, rgs: seq<Json>, x: Affiliation)
    requires x in LabelAffiliations(artists, rgs)
    ensures Identified(x) && (FromArtist(artists, x) || FromRg(rgs, x))
    ensures Distinct(LabelAffiliations(artists, rgs))
  {
    LabelRowsSound(artists, rgs, x);
  }

  /** An artist's label relation with both ids present is in the output. */
  lemma LabelAffiliationsFromArtist(artists: seq<Json>, rgs: seq<Json>, a: Json, rel: Json)
    requires a in artists && rel in ListAt(a, "relations") && LabelRel(rel) && Identified(AffOf(a, rel))
    ensures AffOf(a, rel) in LabelAffiliations(artists, rgs)
  {
    FlatMapMember(ListAt(a, "relations"), ArtistLabelRel(a));
    assert AffOf(a, rel) in ArtistLabelRel(a)(rel);
    FlatMapMember(artists, ArtistLabelRows);
  }

  /** So is every credited artist, with both ids present, of a release group
      with a label relation. */
  lemma LabelAffiliationsFromRg(artists: seq<Json>, rgs: seq<Json>, rg: Json, rel: Json, ac: Json)
    requires rg in rgs && rel in Relations(rg) && LabelRel(rel) && ac in Credits(rg)
    requires Identified(AffOf(CreditArtist(ac), rel))
    ensures AffOf(CreditArtist(ac), rel) in LabelAffiliations(artists, rgs)
  {
    CrossComplete(Relations(rg), Credits(rg), rel, ac);
    FlatMapMember(rgs, RgLabelRowsBy(Relations, Credits));
  }

  method ArtistLabelLoop(a: Json) returns (rows: seq<Affiliation>)
    ensures rows == ArtistLabelRows(a)
  {
    var rels := ListAt(a, "relations");
    rows := [];
    var k := 0;
    while k < |rels|
      invariant 0 <= k <= |rels|
      invariant rows == FlatMap(rels[..k], ArtistLabelRel(a))
    {
      var rel := rels[k];
      FlatMapPrefix(rels, k, ArtistLabelRel(a));
      if Get(rel, "target-type") == JStr("label") {
        rows := rows + [AffOf(a, rel)];
      }
      k := k + 1;
    }
    assert rels[..k] == rels;
  }

  method CreditLabelLoop(credits: seq<Json>, rel: Json) returns (rows: seq<Affiliation>)
    ensures rows == CreditAffs(credits, rel)
  {
    rows := [];
    var k := 0;
    while k < |credits|
      invariant 0 <= k <= |credits|
      invariant rows == FlatMap(credits[..k], CreditAff(rel))
    {
      FlatMapPrefix(credits, k, CreditAff(rel));
      rows := rows + [AffOf(CreditArtist(credits[k]), rel)];
      k := k + 1;
    }
    assert credits[..k] == credits;
  }

  method RgLabelLoop(rg: Json) returns (rows: seq<Affiliation>)
    ensures rows == RgLabelRowsBy(Relations, Credits)(rg)
  {
    var rels := Relations(rg);
    var credits := Credits(rg);
    rows := [];
    var k := 0;
    while k < |rels|
      invariant 0 <= k <= |rels|
      invariant rows == FlatMap(rels[..k], RgLabelRel(credits))
    {
      var rel := rels[k];
      FlatMapPrefix(rels, k, RgLabelRel(credits));
      if Get(rel, "target-type") == JStr("label") {
        var more := CreditLabelLoop(credits, rel);
        rows := rows + more;
      }
      k := k + 1;
    }
    assert rels[..k] == rels;
  }

  /** The first row loop, over the artists. */
  method ArtistLabelsLoop(artists: seq<Json>) returns (rows: seq<Affiliation>)
    ensures rows == FlatMap(artists, ArtistLabelRows)
  {
    rows := [];
    var i := 0;
    while i < |artists|
      invariant 0 <= i <= |artists|
      invariant rows == FlatMap(artists[..i], ArtistLabelRows)
    {
      var more := ArtistLabelLoop(artists[i]);
      FlatMapPrefix(artists, i, ArtistLabelRows);
      rows := rows + more;
      i := i + 1;
    }
    assert artists[..i] == artists;
  }

  /** The second row loop, over the release groups. */
  method RgLabelsLoop(rgs: seq<Json>) returns (rows: seq<Affiliation>)
    ensures rows == FlatMap(rgs, RgLabelRowsBy(Relations, Credits))
  {
    rows := [];
    var j := 0;
    while j < |rgs|
      invariant 0 <= j <= |rgs|
      invariant rows == FlatMap(rgs[..j], RgLabelRowsBy(Relations, Credits))
    {
      var more := RgLabelLoop(rgs[j]);
      FlatMapPrefix(rgs, j, RgLabelRowsBy(Relations, Credits));
      rows := rows + more;
      j := j + 1;
    }
    assert rgs[..j] == rgs;
  }

  /** `build_label_affiliations`: the two row loops, then the clean-up. */
  method BuildLabelAffiliations(artists: seq<Json>, rgs: seq<Json>) returns (r: seq<Affiliation>)
    ensures r == LabelAffiliations(artists, rgs)
  {
    var fromArtists := ArtistLabelsLoop(artists);
    var fromRgs := RgLabelsLoop(rgs);
    var rows := fromArtists + fromRgs;
    if |rows| == 0 {
      return [];
    }
    r := Dedup(Filter(rows, Identified));
  }

  // ---------------------------------------------------------------------
  // build_releases_by_country_year

  datatype YearRow = YearRow(rgId: Json, year: Option<int>, country: Json, artistId: Json, artistName: Json)

  /** The final `country` of `country = rel.get("country") or country`. */
  function Country(rels: seq<Json>): (r: Json)
    ensures r == JNull || Truthy(r)
    decreases |rels|
  {
    if |rels| == 0 then JNull else Or(Get(rels[|rels| - 1], "country"), Country(rels[..|rels| - 1]))
  }

  /** The country is that of the last release with a truthy one, and `None`
      when there is none. */
  lemma {:induction false} CountryLast(rels: seq<Json>)
    ensures Country(rels) == JNull <==> forall i :: 0 <= i < |rels| ==> !Truthy(Get(rels[i], "country"))
    ensures Country(rels) != JNull ==>
      exists i :: 0 <= i < |rels| && Country(rels) == Get(rels[i], "country") &&
        forall j :: i < j < |rels| ==> !Truthy(Get(rels[j], "country"))
    decreases |rels|
  {
    if |rels| > 0 {
      var q := rels[..|rels| - 1];
      CountryLast(q);
      assert forall i :: 0 <= i < |q| ==> q[i] == rels[i];
    }
  }

  /** The year from the first four characters of `first-release-date`. */
  function RgYear(rg: Json): Option<int> {
    BuildDiscog.Yr(AsStr(Get(rg, "first-release-date")))
  }

  /** The row appended for credit entry `ac` of release group `rg` whose
      year is `y`. */
  function YearRowOf(rg: Json, y: Option<int>, ac: Json): YearRow {
    YearRow(Get(rg, "id"), y, Country(ListAt(rg, "releases")), Get(Get(ac, "artist"), "id"), Get(Get(ac, "artist"), "name"))
  }

  function CreditYearRow(rg: Json, y: Option<int>): Json -> seq<YearRow> {
    ac => [YearRowOf(rg, y, ac)]
  }

  /** One row per credit entry of the release group, with the year `year`
      reads from it. */
  function RgRowsBy(year: Json -> Option<int>): Json -> seq<YearRow> {
    rg => FlatMap(Items(Get(rg, "artist-credit")), CreditYearRow(rg, year(rg)))
  }

  function YearRows(rgs: seq<Json>): seq<YearRow> {
    FlatMap(rgs, RgRowsBy(RgYear))
  }

  predicate HasYear(x: YearRow) {
    x.year.Some?
  }

  /** `build_releases_by_country_year`: with no rows at all the frame has no
      `year` column and `dropna` raises. */
  function ReleasesByCountryYear(rgs: seq<Json>): (r: Result<seq<YearRow>, string>)
    ensures r.Failure? <==> |YearRows(rgs)| == 0
    ensures r.Success? ==> forall x :: x in r.value ==> x.year.Some?
  {
    var rows := YearRows(rgs);
    if |rows| == 0 then Failure("KeyError: ['year']") else Success(Filter(rows, HasYear))
  }

  lemma YearRowsBySound(rgs: seq<Json>, year: Json -> Option<int>, x: YearRow)
    requires x in FlatMap(rgs, RgRowsBy(year))
    ensures exists rg, ac :: rg in rgs && ac in Items(Get(rg, "artist-credit")) && x == YearRowOf(rg, year(rg), ac)
  {
    FlatMapMember(rgs, RgRowsBy(year));
    var rg :| rg in rgs && x in RgRowsBy(year)(rg);
    FlatMapMember(Items(Get(rg, "artist-credit")), CreditYearRow(rg, year(rg)));
    var ac :| ac in Items(Get(rg, "artist-credit")) && x in CreditYearRow(rg, year(rg))(ac);
  }

  lemma YearRowsByComplete(rgs: seq<Json>, year: Json -> Option<int>, rg: Json, ac: Json)
    requires rg in rgs && ac in Items(Get(rg, "artist-credit"))
    ensures YearRowOf(rg, year(rg), ac) in FlatMap(rgs, RgRowsBy(year))
  {
    FlatMapMember(Items(Get(rg, "artist-credit")), CreditYearRow(rg, year(rg)));
    assert YearRowOf(rg, year(rg), ac) in CreditYearRow(rg, year(rg))(ac);
    FlatMapMember(rgs, RgRowsBy(year));
  }

  /** Every output row is a credit entry of an input release group, with
      that group's id, year and country. */
  lemma ReleasesByCountryYearSound(rgs: seq<Json>, x: YearRow)
    requires ReleasesByCountryYear(rgs).Success? && x in ReleasesByCountryYear(rgs).value
    ensures exists rg, ac :: rg in rgs && ac in Items(Get(rg, "artist-credit")) && x == YearRowOf(rg, RgYear(rg), ac)
  {
    YearRowsBySound(rgs, RgYear, x);
  }

  /** Every credit entry of a release group with a year is in the output. */
  lemma ReleasesByCountryYearComplete(rgs: seq<Json>, rg: Json, ac: Json)
    requires rg in rgs && ac in Items(Get(rg, "artist-credit")) && RgYear(rg).Some?
    ensures ReleasesByCountryYear(rgs).Success?
    ensures YearRowOf(rg, RgYear(rg), ac) in ReleasesByCountryYear(rgs).value
  {
    YearRowsByComplete(rgs, RgYear, rg, ac);
  }

  /** The loop over a release group's releases. */
  method CountryLoop(rels: seq<Json>) returns (country: Json)
    ensures country == Country(rels)
  {
    country := JNull;
    var k := 0;
    while k < |rels|
      invariant 0 <= k <= |rels|
      invariant country == Country(rels[..k])
    {
      assert rels[..k + 1][..k] == rels[..k];
      country := Or(Get(rels[k], "country"), country);
      k := k + 1;
    }
    assert rels[..k] == rels;
  }

  method RgYearLoop(rg: Json) returns (rows: seq<YearRow>)
    ensures rows == RgRowsBy(RgYear)(rg)
  {
    var y := RgYear(rg);
    var country := CountryLoop(ListAt(rg, "releases"));
    var f := CreditYearRow(rg, y);
    var credits := Items(Get(rg, "artist-credit"));
    rows := [];
    var k := 0;
    while k < |credits|
      invariant 0 <= k <= |credits|
      invariant rows == FlatMap(credits[..k], f)
    {
      var a := Get(credits[k], "artist");
      FlatMapPrefix(credits, k, f);
      rows := rows + [YearRow(Get(rg, "id"), y, country, Get(a, "id"), Get(a, "name"))];
      k := k + 1;
    }
    assert credits[..k] == credits;
  }

  method BuildReleasesByCountryYear(rgs: seq<Json>) returns (r: Result<seq<YearRow>, string>)
    ensures r == ReleasesByCountryYear(rgs)
  {
    var rows := [];
    var i := 0;
    while i < |rgs|
      invariant 0 <= i <= |rgs|
      invariant rows == FlatMap(rgs[..i], RgRowsBy(RgYear))
    {
      var more := RgYearLoop(rgs[i]);
      FlatMapPrefix(rgs, i, RgRowsBy(RgYear));
      rows := rows + more;
      i := i + 1;
    }
    assert rgs[..i] == rgs;
    if |rows| == 0 {
      return Failure("KeyError: ['year']");
    }
    r := Success(Filter(rows, HasYear));
  }

  // ---------------------------------------------------------------------
  // build_collab_matrix

  /** The truthy string names of the genre objects. */
  function GenreNames(items: seq<Json>): (r: seq<string>)
    ensures forall n :: n in r ==> n != ""
    decreases |items|
  {
    if |items| == 0 then []
    else
      var g := items[|items| - 1];
      GenreNames(items[..|items| - 1]) + (if g.JObj? && Get(g, "name").JStr? && Get(g, "name").s != "" then [Get(g, "name").s] else [])
  }

  /** The genre names of one release group. */
  function GenresOf(rg: Json): seq<string> {
    GenreNames(Items(Get(rg, "genres")))
  }

  /** The weight-1 rows of the nested `for g1 in genres: for g2 in genres`
      loops over `sorted(set(...))`, group after group. */
  function MatrixRows(groups: seq<seq<string>>): seq<(string, string)>
    decreases |groups|
  {
    if |groups| == 0 then []
    else MatrixRows(groups[..|groups| - 1]) + Square(SortedDistinct(groups[|groups| - 1]))
  }

  /** `(a, b)` is emitted once for every group holding both, in either
      order and on the diagonal. */
  lemma {:induction false} MatrixRowsCount(groups: seq<seq<string>>, a: string, b: string)
    ensures Count(MatrixRows(groups), (a, b)) == BuildEdges.Together(groups, a, b)
    decreases |groups|
  {
    if |groups| > 0 {
      var q := groups[..|groups| - 1];
      var s := SortedDistinct(groups[|groups| - 1]);
      MatrixRowsCount(q, a, b);
      CountAppend(MatrixRows(q), Square(s), (a, b));
      StrictlySortedDistinct(s);
      SquareCount(s, a, b);
    }
  }

  /** `build_collab_matrix`: the summing group-by over the rows; no rows
      give the empty table. */
  function CollabMatrix(rgs: seq<Json>): map<(string, string), nat> {
    Tally(MatrixRows(Map(rgs, GenresOf)))
  }

  /** Co-occurrence counted over groups is symmetric. */
  lemma {:induction false} TogetherSymmetric(groups: seq<seq<string>>, a: string, b: string)
    ensures BuildEdges.Together(groups, a, b) == BuildEdges.Together(groups, b, a)
    decreases |groups|
  {
    if |groups| > 0 {
      TogetherSymmetric(groups[..|groups| - 1], a, b);
    }
  }

  /** A pair never occurs in more groups than its first member. */
  lemma {:induction false} TogetherBounded(groups: seq<seq<string>>, a: string, b: string)
    ensures BuildEdges.Together(groups, a, b) <= BuildEdges.Together(groups, a, a)
    decreases |groups|
  {
    if |groups| > 0 {
      TogetherBounded(groups[..|groups| - 1], a, b);
    }
  }

  /** A cell exists exactly for two genres sharing a release group, and
      holds the number of release groups carrying both. */
  lemma CollabMatrixWeight(rgs: seq<Json>, a: string, b: string)
    ensures (a, b) in CollabMatrix(rgs) <==> |Filter(rgs, BuildEdges.Both(GenresOf, a, b))| > 0
    ensures (a, b) in CollabMatrix(rgs) ==> CollabMatrix(rgs)[(a, b)] == |Filter(rgs, BuildEdges.Both(GenresOf, a, b))|
  {
    var groups := Map(rgs, GenresOf);
    MatrixRowsCount(groups, a, b);
    CountPositive(MatrixRows(groups), (a, b));
    BuildEdges.TogetherOf(rgs, GenresOf, a, b);
  }

  /** The matrix is symmetric. */
  lemma CollabMatrixSymmetric(rgs: seq<Json>, a: string, b: string)
    ensures (a, b) in CollabMatrix(rgs) <==> (b, a) in CollabMatrix(rgs)
    ensures (a, b) in CollabMatrix(rgs) ==> CollabMatrix(rgs)[(a, b)] == CollabMatrix(rgs)[(b, a)]
  {
    var groups := Map(rgs, GenresOf);
    MatrixRowsCount(groups, a, b);
    MatrixRowsCount(groups, b, a);
    CountPositive(MatrixRows(groups), (a, b));
    CountPositive(MatrixRows(groups), (b, a));
    TogetherSymmetric(groups, a, b);
  }

  /** The diagonal counts the release groups carrying a genre, and bounds
      its row. */
  lemma CollabMatrixDiagonal(rgs: seq<Json>, a: string, b: string)
    requires (a, b) in CollabMatrix(rgs)
    ensures (a, a) in CollabMatrix(rgs) && CollabMatrix(rgs)[(a, b)] <= CollabMatrix(rgs)[(a, a)]
    ensures CollabMatrix(rgs)[(a, a)] == |Filter(rgs, BuildEdges.Both(GenresOf, a, a))|
  {
    var groups := Map(rgs, GenresOf);
    MatrixRowsCount(groups, a, b);
    MatrixRowsCount(groups, a, a);
    CountPositive(MatrixRows(groups), (a, b));
    CountPositive(MatrixRows(groups), (a, a));
    TogetherBounded(groups, a, b);
    CollabMatrixWeight(rgs, a, a);
  }

  /** A release group without named genres adds nothing. */
  lemma MatrixRowsSkip(groups: seq<seq<string>>)
    ensures MatrixRows(groups + [[]]) == MatrixRows(groups)
  {
    assert (groups + [[]])[..|groups|] == groups;
    assert Square<string>([]) == [];
  }

  /** `build_collab_matrix`: the row loops, skipping release groups with no
      genre, then the group-by. */
  method BuildCollabMatrix(rgs: seq<Json>) returns (m: map<(string, string), nat>)
    ensures m == CollabMatrix(rgs)
  {
    var rows := [];
    var i := 0;
    while i < |rgs|
      invariant 0 <= i <= |rgs|
      invariant rows == MatrixRows(Map(rgs[..i], GenresOf))
    {
      var genres := SortedDistinct(GenresOf(rgs[i]));
      MapPrefix(rgs, i, GenresOf);
      ghost var groups := Map(rgs[..i], GenresOf);
      assert (groups + [GenresOf(rgs[i])])[..|groups|] == groups;
      if |genres| >= 1 {
        var square := SquareRows(genres);
        rows := rows + square;
      } else {
        assert Square<string>([]) == [];
      }
      i := i + 1;
    }
    assert rgs[..i] == rgs;
    m := Tally(rows);
  }
}
