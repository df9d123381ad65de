/** The marts `build()` writes from the clean layer: the artist discography,
    the artists mart, the primary-artist release groups, the counts by year
    and by decade, and the collaboration edges with their fallback to the
    raw recordings. */
module BuildMarts {
  import opened Wrappers
  import opened PyText
  import opened PyJson
  import opened Seqs
  import opened Ordering
  import opened Build

  // ---------------------------------------------------------------------
  // rgs_raw

  /** A row of `rgs_raw`: the clean release-group columns and the derived
      `first_release_year`. */
  datatype RawRg = RawRg(
    rgMbid: string,
    title: Option<string>,
    primaryType: Option<string>,
    firstReleaseDate: Option<string>,
    artistCredit: Option<string>,
    firstReleaseYear: Option<int>)

  function Raw(rg: ReleaseGroup): RawRg {
    RawRg(rg.rgMbid, rg.title, rg.primaryType, rg.firstReleaseDate, rg.artistCredit, FirstReleaseYear(rg.firstReleaseDate))
  }

  /** `rgs_raw`, with the year column computed once. */
  function RawRgs(rgs: seq<ReleaseGroup>): (r: seq<RawRg>)
    ensures |r| == |rgs|
    ensures forall i :: 0 <= i < |rgs| ==> r[i] == Raw(rgs[i])
  {
    seq(|rgs|, i requires 0 <= i < |rgs| => Raw(rgs[i]))
  }

  // ---------------------------------------------------------------------
  // artist_discography

  /** A row of `artist_discography`. */
  datatype DiscogRow = DiscogRow(
    artistMbid: string,
    artistName: string,
    rgMbid: string,
    rgTitle: Option<string>,
    primaryType: Option<string>,
    firstReleaseDate: Option<string>,
    firstReleaseYear: Option<int>)

  /** The row written for a release group and one resolved `(mbid, name)`. */
  function DiscogRowOf(rg: RawRg, p: (string, string)): DiscogRow {
    DiscogRow(p.0, p.1, rg.rgMbid, rg.title, rg.primaryType, rg.firstReleaseDate,
      rg.firstReleaseYear)
  }

  /** The `drop_duplicates` subset `(artist_mbid, rg_mbid)`. */
  function DiscogKey(r: DiscogRow): (string, string) {
    (r.artistMbid, r.rgMbid)
  }

  /** `dropna(subset=["artist_credit"])` keeps the row. */
  predicate Credited(rg: RawRg) {
    rg.artistCredit.Some?
  }

  /** `rg.artist_credit or ""`. */
  function CreditOf(rg: RawRg): string {
    rg.artistCredit.GetOr("")
  }

  /** One row per resolved artist, in resolution order. */
  function RowsFor(rg: RawRg, resolved: seq<(string, string)>): seq<DiscogRow>
    decreases |resolved|
  {
    if |resolved| == 0 then []
    else RowsFor(rg, resolved[..|resolved| - 1]) + [DiscogRowOf(rg, resolved[|resolved| - 1])]
  }

  lemma {:induction false} RowsForMember(rg: RawRg, resolved: seq<(string, string)>, x: DiscogRow)
    ensures x in RowsFor(rg, resolved) <==> exists p :: p in resolved && x == DiscogRowOf(rg, p)
    decreases |resolved|
  {
    if |resolved| > 0 {
      var q := resolved[..|resolved| - 1];
      RowsForMember(rg, q, x);
      assert resolved == q + [resolved[|resolved| - 1]];
    }
  }

  /** The rows the discography loop appends, before deduplication, for a
      resolution `res` of credits to `(mbid, name)` entries. */
  function DiscogRowsBy(rgs: seq<RawRg>, res: string -> seq<(string, string)>): seq<DiscogRow>
    decreases |rgs|
  {
    if |rgs| == 0 then []
    else
      var rg := rgs[|rgs| - 1];
      DiscogRowsBy(rgs[..|rgs| - 1], res) + (if Credited(rg) then RowsFor(rg, res(CreditOf(rg))) else [])
  }

  /** A row is appended exactly for a credited release group and an entry
      its credit resolves to. */
  lemma {:induction false} DiscogRowsMember(rgs: seq<RawRg>, res: string -> seq<(string, string)>, x: DiscogRow)
    ensures x in DiscogRowsBy(rgs, res) <==>
      exists i, p :: 0 <= i < |rgs| && Credited(rgs[i]) && p in res(CreditOf(rgs[i])) && x == DiscogRowOf(rgs[i], p)
    decreases |rgs|
  {
    if |rgs| > 0 {
      var q := rgs[..|rgs| - 1];
      var rg := rgs[|rgs| - 1];
      DiscogRowsMember(q, res, x);
      if Credited(rg) {
        RowsForMember(rg, res(CreditOf(rg)), x);
      }
      if exists i, p :: 0 <= i < |rgs| && Credited(rgs[i]) && p in res(CreditOf(rgs[i])) && x == DiscogRowOf(rgs[i], p) {
        var i, p :| 0 <= i < |rgs| && Credited(rgs[i]) && p in res(CreditOf(rgs[i])) && x == DiscogRowOf(rgs[i], p);
        if i < |rgs| - 1 {
          assert q[i] == rgs[i];
        }
      }
      if exists i, p :: 0 <= i < |q| && Credited(q[i]) && p in res(CreditOf(q[i])) && x == DiscogRowOf(q[i], p) {
        var i, p :| 0 <= i < |q| && Credited(q[i]) && p in res(CreditOf(q[i])) && x == DiscogRowOf(q[i], p);
        assert rgs[i] == q[i];
      }
    }
  }

  /** Resolution of credits against the artist tables. */
  function Resolver(patt: seq<(string, string)>, n2i: map<string, string>): string -> seq<(string, string)> {
    c => Resolve(c, patt, n2i)
  }

  /** `artist_discography`: the appended rows, first row per
      `(artist_mbid, rg_mbid)`. */
  function Discography(rgs: seq<RawRg>, patt: seq<(string, string)>, n2i: map<string, string>): (r: seq<DiscogRow>)
    ensures UniqueKeys(r, DiscogKey)
  {
    KeepFirstBy(DiscogRowsBy(rgs, Resolver(patt, n2i)), DiscogKey)
  }

  /** Deduplication of the appended rows keeps a row for every key, and
      only appended rows. */
  lemma DiscographyByRows(rgs: seq<RawRg>, res: string -> seq<(string, string)>, x: DiscogRow)
    ensures x in KeepFirstBy(DiscogRowsBy(rgs, res), DiscogKey) ==>
      exists i, p :: 0 <= i < |rgs| && Credited(rgs[i]) && p in res(CreditOf(rgs[i])) && x == DiscogRowOf(rgs[i], p)
    ensures (exists i, p :: 0 <= i < |rgs| && Credited(rgs[i]) && p in res(CreditOf(rgs[i])) && x == DiscogRowOf(rgs[i], p))
      ==> HasKey(KeepFirstBy(DiscogRowsBy(rgs, res), DiscogKey), DiscogKey, DiscogKey(x))
  {
    var all := DiscogRowsBy(rgs, res);
    DiscogRowsMember(rgs, res, x);
    if x in all {
      var k :| 0 <= k < |all| && all[k] == x;
      KeepFirstByKeeps(all, DiscogKey, k);
    }
  }

  /** Every discography row comes from a credited release group and one of
      the artists its credit resolves to. */
  lemma DiscographySound(rgs: seq<RawRg>, patt: seq<(string, string)>, n2i: map<string, string>, x: DiscogRow)
    requires x in Discography(rgs, patt, n2i)
    ensures exists i, p :: 0 <= i < |rgs| && Credited(rgs[i]) && p in Resolve(CreditOf(rgs[i]), patt, n2i) && x == DiscogRowOf(rgs[i], p)
  {
    var res := Resolver(patt, n2i);
    DiscographyByRows(rgs, res, x);
    var i, p :| 0 <= i < |rgs| && Credited(rgs[i]) && p in res(CreditOf(rgs[i])) && x == DiscogRowOf(rgs[i], p);
    assert res(CreditOf(rgs[i])) == Resolve(CreditOf(rgs[i]), patt, n2i);
  }

  /** Every artist a credited release group resolves to has its
      `(artist, release group)` row: deduplication loses no pair. */
  lemma DiscographyComplete(rgs: seq<RawRg>, patt: seq<(string, string)>, n2i: map<string, string>, i: int, p: (string, string))
    requires 0 <= i < |rgs| && Credited(rgs[i]) && p in Resolve(CreditOf(rgs[i]), patt, n2i)
    ensures HasKey(Discography(rgs, patt, n2i), DiscogKey, (p.0, rgs[i].rgMbid))
  {
    var res := Resolver(patt, n2i);
    assert res(CreditOf(rgs[i])) == Resolve(CreditOf(rgs[i]), patt, n2i);
    DiscographyByRows(rgs, res, DiscogRowOf(rgs[i], p));
  }

  /** The inner loop appending one row per resolved artist. */
  method AppendRows(rows0: seq<DiscogRow>, rg: RawRg, resolved: seq<(string, string)>) returns (rows: seq<DiscogRow>)
    ensures rows == rows0 + RowsFor(rg, resolved)
  {
    rows := rows0;
    var k := 0;
    while k < |resolved|
      invariant 0 <= k <= |resolved|
      invariant rows == rows0 + RowsFor(rg, resolved[..k])
    {
      assert resolved[..k + 1][..k] == resolved[..k];
      rows := rows + [DiscogRowOf(rg, resolved[k])];
      k := k + 1;
    }
    assert resolved[..k] == resolved;
  }

  /** One iteration of the discography loop: resolve the credit, append its
      rows. */
  method AppendResolved(rows0: seq<DiscogRow>, rg: RawRg, patt: seq<(string, string)>, n2i: map<string, string>)
    returns (rows: seq<DiscogRow>)
    ensures rows == rows0 + RowsFor(rg, Resolver(patt, n2i)(CreditOf(rg)))
  {
    var dedup := ResolveCredit(CreditOf(rg), patt, n2i);
    rows := AppendRows(rows0, rg, dedup);
  }

  /** The discography loop over the credited release groups, then
      `drop_duplicates(["artist_mbid", "rg_mbid"])`. */
  method BuildDiscography(rgs: seq<RawRg>, patt: seq<(string, string)>, n2i: map<string, string>) returns (table: seq<DiscogRow>)
    ensures table == Discography(rgs, patt, n2i)
  {
    var res := Resolver(patt, n2i);
    var rows: seq<DiscogRow> := [];
    var i := 0;
    while i < |rgs|
      invariant 0 <= i <= |rgs|
      invariant rows == DiscogRowsBy(rgs[..i], res)
    {
      var rg := rgs[i];
      assert rgs[..i + 1][..i] == rgs[..i];
      if rg.artistCredit.Some? {
        rows := AppendResolved(rows, rg, patt, n2i);
      }
      i := i + 1;
    }
    assert rgs[..i] == rgs;
    table := KeepFirstBy(rows, DiscogKey);
  }

  // ---------------------------------------------------------------------
  // artists

  function Self(a: Artist): Artist {
    a
  }

  /** The `artists` mart: `drop_duplicates()` on `(artist_id, artist_name)`. */
  function ArtistsMart(artists: seq<Artist>): (r: seq<Artist>)
    ensures Distinct(r)
    ensures forall a :: a in r ==> a in artists
  {
    var r := KeepFirstBy(artists, Self);
    assert forall i, j :: 0 <= i < j < |r| ==> Self(r[i]) != Self(r[j]);
    r
  }

  /** Deduplication loses no artist row. */
  lemma ArtistsMartKeepsAll(artists: seq<Artist>, a: Artist)
    requires a in artists
    ensures a in ArtistsMart(artists)
  {
    var i :| 0 <= i < |artists| && artists[i] == a;
    KeepFirstByKeeps(artists, Self, i);
    var r := KeepFirstBy(artists, Self);
    var k :| 0 <= k < |r| && Self(r[k]) == Self(a);
  }

  // ---------------------------------------------------------------------
  // release_groups (primary artist)

  /** The id of the first token that `name_to_id` knows, as the loop with
      `break` finds it. */
  function FirstKnown(toks: seq<string>, n2i: map<string, string>): Option<string>
    decreases |toks|
  {
    if |toks| == 0 then None
    else if toks[0] in n2i then Some(n2i[toks[0]])
    else FirstKnown(toks[1..], n2i)
  }

  /** `FirstKnown` finds nothing exactly when no token is known, and
      otherwise the id of the first known token. */
  lemma {:induction false} FirstKnownFinds(toks: seq<string>, n2i: map<string, string>)
    ensures FirstKnown(toks, n2i).None? <==> forall i :: 0 <= i < |toks| ==> toks[i] !in n2i
    ensures FirstKnown(toks, n2i).Some? ==>
      exists i :: 0 <= i < |toks| && toks[i] in n2i && FirstKnown(toks, n2i).value == n2i[toks[i]] &&
                  forall j :: 0 <= j < i ==> toks[j] !in n2i
    decreases |toks|
  {
    if |toks| > 0 && toks[0] !in n2i {
      var rest := toks[1..];
      FirstKnownFinds(rest, n2i);
      assert forall i :: 1 <= i < |toks| ==> rest[i - 1] == toks[i];
      var r := FirstKnown(rest, n2i);
      if r.Some? {
        var i :| 0 <= i < |rest| && rest[i] in n2i && r.value == n2i[rest[i]] &&
                 forall j :: 0 <= j < i ==> rest[j] !in n2i;
        assert toks[i + 1] in n2i && r.value == n2i[toks[i + 1]];
        forall j | 0 <= j < i + 1 ensures toks[j] !in n2i {
          if j > 0 { assert toks[j] == rest[j - 1]; }
        }
      }
    }
  }

  /** The primary artist from the hits and the tokens: the first hit's id,
      otherwise the first known token's id. */
  function PrimaryFrom(hits: seq<(string, string)>, toks: seq<string>, n2i: map<string, string>): Option<string> {
    if |hits| > 0 then Some(hits[0].0) else FirstKnown(toks, n2i)
  }

  /** The primary artist of a credit. */
  function PrimaryArtist(credit: string, patt: seq<(string, string)>, n2i: map<string, string>): Option<string> {
    PrimaryFrom(Hits(credit, patt), Tokens(credit), n2i)
  }

  /** A token the fallback keeps resolves, unless an earlier entry has the
      same id. */
  lemma {:induction false} ExtendKeepsKnown(d: seq<(string, string)>, toks: seq<string>, n2i: map<string, string>, i: int)
    requires UniqueKeys(d, Fst)
    requires 0 <= i < |toks| && toks[i] in n2i && n2i[toks[i]] != ""
    ensures HasKey(Extend(d, toks, n2i), Fst, n2i[toks[i]])
    decreases |toks|
  {
    var q := toks[..|toks| - 1];
    var prev := Extend(d, q, n2i);
    var m := n2i[toks[i]];
    if i < |toks| - 1 {
      assert q[i] == toks[i];
      ExtendKeepsKnown(d, q, n2i, i);
      var nm := toks[|toks| - 1];
      if nm in n2i && n2i[nm] != "" && n2i[nm] !in Ids(prev) {
        HasKeySnoc(prev, (n2i[nm], nm), m);
      }
    } else if m !in Ids(prev) {
      HasKeySnoc(prev, (m, toks[i]), m);
    }
  }

  /** The primary artist, when its id is not empty, is one of the artists
      the discography resolves the same credit to. */
  lemma PrimaryFromResolved(hits: seq<(string, string)>, toks: seq<string>, n2i: map<string, string>)
    ensures var a := PrimaryFrom(hits, toks, n2i); a.Some? && a.value != "" ==> HasKey(ResolveFrom(hits, toks, n2i), Fst, a.value)
  {
    var a := PrimaryFrom(hits, toks, n2i);
    if |hits| > 0 {
      ResolveFromKeepsHits(hits, toks, n2i, 0);
    } else if a.Some? && a.value != "" {
      assert hits == [];
      assert KeepFirstBy(hits, Fst) == [];
      FirstKnownFinds(toks, n2i);
      var i :| 0 <= i < |toks| && toks[i] in n2i && a.value == n2i[toks[i]] &&
               forall j :: 0 <= j < i ==> toks[j] !in n2i;
      ExtendKeepsKnown([], toks, n2i, i);
    }
  }

  lemma PrimaryInDiscography(credit: string, patt: seq<(string, string)>, n2i: map<string, string>)
    ensures var a := PrimaryArtist(credit, patt, n2i); a.Some? && a.value != "" ==> HasKey(Resolve(credit, patt, n2i), Fst, a.value)
  {
    PrimaryFromResolved(Hits(credit, patt), Tokens(credit), n2i);
  }

  /** With some pattern accepted by `ok`, the choice falls on the id of the
      first accepted pattern in table order. */
  lemma PrimaryFromFirst(patt: seq<(string, string)>, ok: ((string, string)) -> bool, toks: seq<string>, n2i: map<string, string>)
    requires exists p :: p in patt && ok(p)
    ensures exists i :: 0 <= i < |patt| && ok(patt[i]) && PrimaryFrom(Filter(patt, ok), toks, n2i) == Some(patt[i].0) &&
                        forall j :: 0 <= j < i ==> !ok(patt[j])
  {
    var p :| p in patt && ok(p);
    assert p in Filter(patt, ok);
    FilterFirst(patt, ok);
  }

  /** The primary artist, when some pattern matches, is the id of the first
      pattern in table order whose matcher finds the credit. */
  lemma PrimaryArtistFirstMatch(credit: string, patt: seq<(string, string)>, n2i: map<string, string>)
    requires exists p :: p in patt && Hit(credit, p.1)
    ensures exists i :: 0 <= i < |patt| && Hit(credit, patt[i].1) && PrimaryArtist(credit, patt, n2i) == Some(patt[i].0) &&
                        forall j :: 0 <= j < i ==> !Hit(credit, patt[j].1)
  {
    var ok := (p: (string, string)) => Hit(credit, p.1);
    var p :| p in patt && Hit(credit, p.1);
    assert ok(p);
    PrimaryFromFirst(patt, ok, Tokens(credit), n2i);
    var i :| 0 <= i < |patt| && ok(patt[i]) && PrimaryFrom(Filter(patt, ok), Tokens(credit), n2i) == Some(patt[i].0) &&
             forall j :: 0 <= j < i ==> !ok(patt[j]);
    assert Hits(credit, patt) == Filter(patt, ok);
  }

  /** Without a matching pattern, the primary artist is the first token's
      id that `name_to_id` knows; no artist results exactly when no pattern
      matches and no token is a known name. */
  lemma PrimaryArtistFallback(credit: string, patt: seq<(string, string)>, n2i: map<string, string>)
    ensures (forall p :: p in patt ==> !Hit(credit, p.1)) ==> PrimaryArtist(credit, patt, n2i) == FirstKnown(Tokens(credit), n2i)
    ensures PrimaryArtist(credit, patt, n2i).None? <==>
      (forall p :: p in patt ==> !Hit(credit, p.1)) && forall t :: t in Tokens(credit) ==> t !in n2i
  {
    var h := Hits(credit, patt);
    var toks := Tokens(credit);
    FirstKnownFinds(toks, n2i);
    if |h| > 0 {
      assert h[0] in h;
    } else {
      assert (forall t :: t in toks ==> t !in n2i) <==> forall i :: 0 <= i < |toks| ==> toks[i] !in n2i;
    }
  }

  /** A row of the `release_groups` mart. */
  datatype PrimaryRow = PrimaryRow(releaseGroupId: string, title: Option<string>, firstReleaseYear: Option<int>, artistId: string)

  /** The row for one release group, none when no primary artist is found,
      for a choice `prim` of primary artist per credit. */
  function PrimaryRowOf(rg: RawRg, artistId: Option<string>): seq<PrimaryRow> {
    match artistId
    case None => []
    case Some(a) => [PrimaryRow(rg.rgMbid, rg.title, rg.firstReleaseYear, a)]
  }

  /** The mart for a choice `prim` of primary artist per credit, in input
      order. */
  function PrimaryTableBy(rgs: seq<RawRg>, prim: string -> Option<string>): seq<PrimaryRow>
    decreases |rgs|
  {
    if |rgs| == 0 then []
    else
      var rg := rgs[|rgs| - 1];
      PrimaryTableBy(rgs[..|rgs| - 1], prim) + PrimaryRowOf(rg, prim(CreditOf(rg)))
  }

  lemma PrimaryTableBySnoc(rgs: seq<RawRg>, i: int, prim: string -> Option<string>)
    requires 0 <= i < |rgs|
    ensures PrimaryTableBy(rgs[..i + 1], prim) == PrimaryTableBy(rgs[..i], prim) + PrimaryRowOf(rgs[i], prim(CreditOf(rgs[i])))
  {
    assert rgs[..i + 1][..i] == rgs[..i];
  }

  /** The release groups whose credit has a primary artist under `prim`. */
  function HasPrimary(prim: string -> Option<string>): RawRg -> bool {
    (rg: RawRg) => prim(CreditOf(rg)).Some?
  }

  /** The mart holds exactly one row per release group whose credit has a
      primary artist, in input order, carrying that artist. */
  lemma {:induction false} PrimaryTableByRows(rgs: seq<RawRg>, prim: string -> Option<string>)
    ensures var kept := Filter(rgs, HasPrimary(prim));
      |PrimaryTableBy(rgs, prim)| == |kept| &&
      forall j :: 0 <= j < |kept| ==>
        (prim(CreditOf(kept[j])).Some? &&
         PrimaryTableBy(rgs, prim)[j] == PrimaryRow(kept[j].rgMbid, kept[j].title, kept[j].firstReleaseYear, prim(CreditOf(kept[j])).value))
    decreases |rgs|
  {
    if |rgs| > 0 {
      var q := rgs[..|rgs| - 1];
      var rg := rgs[|rgs| - 1];
      PrimaryTableByRows(q, prim);
      assert rgs == q + [rg];
      FilterSnoc(q, rg, HasPrimary(prim));
      var kept := Filter(rgs, HasPrimary(prim));
      var before := Filter(q, HasPrimary(prim));
      var t := PrimaryTableBy(rgs, prim);
      var tq := PrimaryTableBy(q, prim);
      assert t == tq + PrimaryRowOf(rg, prim(CreditOf(rg)));
      forall j | 0 <= j < |kept|
        ensures prim(CreditOf(kept[j])).Some? &&
          t[j] == PrimaryRow(kept[j].rgMbid, kept[j].title, kept[j].firstReleaseYear, prim(CreditOf(kept[j])).value)
      {
        if j < |before| {
          assert kept[j] == before[j] && t[j] == tq[j];
        } else {
          assert kept[j] == rg;
        }
      }
    }
  }

  /** Every row of the mart comes from a release group whose credit has
      that primary artist, so the mart is no longer than the input. */
  lemma {:induction false} PrimaryTableBySound(rgs: seq<RawRg>, prim: string -> Option<string>)
    ensures |PrimaryTableBy(rgs, prim)| <= |rgs|
    ensures forall r :: r in PrimaryTableBy(rgs, prim) ==>
      exists i :: 0 <= i < |rgs| && r.releaseGroupId == rgs[i].rgMbid && Some(r.artistId) == prim(CreditOf(rgs[i]))
    decreases |rgs|
  {
    if |rgs| > 0 {
      var q := rgs[..|rgs| - 1];
      var rg := rgs[|rgs| - 1];
      var tail := PrimaryRowOf(rg, prim(CreditOf(rg)));
      PrimaryTableBySound(q, prim);
      assert PrimaryTableBy(rgs, prim) == PrimaryTableBy(q, prim) + tail;
      forall r | r in PrimaryTableBy(rgs, prim)
        ensures exists i :: 0 <= i < |rgs| && r.releaseGroupId == rgs[i].rgMbid && Some(r.artistId) == prim(CreditOf(rgs[i]))
      {
        if r in PrimaryTableBy(q, prim) {
          var i :| 0 <= i < |q| && r.releaseGroupId == q[i].rgMbid && Some(r.artistId) == prim(CreditOf(q[i]));
          assert rgs[i] == q[i];
        } else {
          assert r in tail;
          assert r.releaseGroupId == rgs[|rgs| - 1].rgMbid && Some(r.artistId) == prim(CreditOf(rgs[|rgs| - 1]));
        }
      }
    }
  }

  /** A release group whose credit has a primary artist gets its row. */
  lemma {:induction false} PrimaryTableByComplete(rgs: seq<RawRg>, prim: string -> Option<string>, i: int)
    requires 0 <= i < |rgs| && prim(CreditOf(rgs[i])).Some?
    ensures PrimaryRow(rgs[i].rgMbid, rgs[i].title, rgs[i].firstReleaseYear, prim(CreditOf(rgs[i])).value) in PrimaryTableBy(rgs, prim)
    decreases |rgs|
  {
    var q := rgs[..|rgs| - 1];
    var rg := rgs[|rgs| - 1];
    var tail := PrimaryRowOf(rg, prim(CreditOf(rg)));
    assert PrimaryTableBy(rgs, prim) == PrimaryTableBy(q, prim) + tail;
    if i < |q| {
      assert rgs[i] == q[i];
      PrimaryTableByComplete(q, prim, i);
    } else {
      assert tail[0] == PrimaryRow(rg.rgMbid, rg.title, rg.firstReleaseYear, prim(CreditOf(rg)).value);
    }
  }


  /** The primary artist per credit against the artist tables. */
  function Primary(patt: seq<(string, string)>, n2i: map<string, string>): string -> Option<string> {
    c => PrimaryArtist(c, patt, n2i)
  }

  /** The `release_groups` mart. */
  function PrimaryTable(rgs: seq<RawRg>, patt: seq<(string, string)>, n2i: map<string, string>): seq<PrimaryRow> {
    PrimaryTableBy(rgs, Primary(patt, n2i))
  }

  /** The fallback loop that stops at the first token `name_to_id` knows. */
  method FirstKnownId(toks: seq<string>, n2i: map<string, string>) returns (artistId: Option<string>)
    ensures artistId == FirstKnown(toks, n2i)
  {
    artistId := None;
    var k := 0;
    while k < |toks| && artistId.None?
      invariant 0 <= k <= |toks|
      invariant artistId.None? ==> FirstKnown(toks, n2i) == FirstKnown(toks[k..], n2i)
      invariant artistId.Some? ==> artistId == FirstKnown(toks, n2i)
    {
      assert toks[k..][1..] == toks[k + 1..];
      if toks[k] in n2i {
        artistId := Some(n2i[toks[k]]);
      }
      k := k + 1;
    }
    if artistId.None? {
      assert toks[k..] == [];
    }
  }

  /** The primary-artist step for one credit. */
  method PrimaryOf(credit: string, patt: seq<(string, string)>, n2i: map<string, string>) returns (artistId: Option<string>)
    ensures artistId == PrimaryArtist(credit, patt, n2i)
  {
    var matches := Hits(credit, patt);
    artistId := if |matches| > 0 then Some(matches[0].0) else None;
    if artistId.None? {
      var toks := SplitCredit(credit);
      artistId := FirstKnownId(toks, n2i);
    }
  }

  /** The loop over all release groups building `prim_rows`. */
  method BuildPrimary(rgs: seq<RawRg>, patt: seq<(string, string)>, n2i: map<string, string>) returns (prim: seq<PrimaryRow>)
    ensures prim == PrimaryTable(rgs, patt, n2i)
  {
    prim := PrimaryLoop(rgs, patt, n2i, Primary(patt, n2i));
  }

  /** The loop itself, against the choice of primary artist `choice` the
      specification applies to each release group's credit. */
  method PrimaryLoop(rgs: seq<RawRg>, patt: seq<(string, string)>, n2i: map<string, string>, ghost choice: string -> Option<string>)
    returns (prim: seq<PrimaryRow>)
    requires forall k :: 0 <= k < |rgs| ==> choice(CreditOf(rgs[k])) == PrimaryArtist(CreditOf(rgs[k]), patt, n2i)
    ensures prim == PrimaryTableBy(rgs, choice)
  {
    prim := [];
    var i := 0;
    while i < |rgs|
      invariant 0 <= i <= |rgs|
      invariant prim == PrimaryTableBy(rgs[..i], choice)
    {
      var artistId := PrimaryOf(CreditOf(rgs[i]), patt, n2i);
      PrimaryTableBySnoc(rgs, i, choice);
      prim := prim + PrimaryRowOf(rgs[i], artistId);
      i := i + 1;
    }
    assert rgs[..i] == rgs;
  }

  // ---------------------------------------------------------------------
  // release_groups_by_year

  /** The release groups of year `y`. */
  function InYear(y: int): RawRg -> bool {
    (rg: RawRg) => rg.firstReleaseYear == Some(y)
  }

  /** `dropna(subset=["first_release_year"])["first_release_year"]`. */
  function Years(rgs: seq<RawRg>): seq<int>
    decreases |rgs|
  {
    if |rgs| == 0 then []
    else
      var prev := Years(rgs[..|rgs| - 1]);
      match rgs[|rgs| - 1].firstReleaseYear
      case Some(y) => prev + [y]
      case None => prev
  }

  /** Each year occurs in the column as often as release groups carry it. */
  lemma {:induction false} YearsCount(rgs: seq<RawRg>, y: int)
    ensures Count(Years(rgs), y) == |Filter(rgs, InYear(y))|
    decreases |rgs|
  {
    if |rgs| > 0 {
      var q := rgs[..|rgs| - 1];
      var rg := rgs[|rgs| - 1];
      YearsCount(q, y);
      assert rgs == q + [rg];
      FilterSnoc(q, rg, InYear(y));
      match rg.firstReleaseYear
      case Some(z) => CountAppend(Years(q), [z], y);
      case None =>
    }
  }

  /** `release_groups_by_year`: `groupby("year").size()`. */
  function YearCounts(rgs: seq<RawRg>): map<int, nat> {
    Tally(Years(rgs))
  }

  /** A year is listed exactly when some release group has it, with the
      number of release groups of that year. */
  lemma YearCountsMeaning(rgs: seq<RawRg>, y: int)
    ensures y in YearCounts(rgs) <==> |Filter(rgs, InYear(y))| > 0
    ensures y in YearCounts(rgs) ==> YearCounts(rgs)[y] == |Filter(rgs, InYear(y))|
  {
    YearsCount(rgs, y);
    CountPositive(Years(rgs), y);
  }

  // ---------------------------------------------------------------------
  // genres_by_decade

  /** A row of the clean `entity_genres` table. */
  datatype EntityGenre = EntityGenre(entityType: Option<string>, entityMbid: Option<string>, genre: Option<string>)

  /** `(year // 10) * 10`; Python's floor division and Dafny's Euclidean
      division agree for the positive divisor. */
  function Decade(y: int): (d: int)
    ensures d % 10 == 0 && d <= y < d + 10
  {
    (y / 10) * 10
  }

  /** The years of the release groups a genre row's `entity_mbid` joins. */
  function MatchedYears(mbid: Option<string>, rgs: seq<RawRg>): seq<Option<int>>
    decreases |rgs|
  {
    if |rgs| == 0 then []
    else
      var rg := rgs[|rgs| - 1];
      MatchedYears(mbid, rgs[..|rgs| - 1]) + (if mbid == Some(rg.rgMbid) then [rg.firstReleaseYear] else [])
  }

  lemma {:induction false} MatchedYearsMember(mbid: Option<string>, rgs: seq<RawRg>, y: int)
    ensures Some(y) in MatchedYears(mbid, rgs) <==> exists k :: 0 <= k < |rgs| && mbid == Some(rgs[k].rgMbid) && rgs[k].firstReleaseYear == Some(y)
    decreases |rgs|
  {
    if |rgs| > 0 {
      var q := rgs[..|rgs| - 1];
      MatchedYearsMember(mbid, q, y);
      assert forall k :: 0 <= k < |q| ==> q[k] == rgs[k];
    }
  }

  /** The left merge: every joined year, or a single null year when no
      release group joins. */
  function MergedYears(mbid: Option<string>, rgs: seq<RawRg>): seq<Option<int>> {
    var m := MatchedYears(mbid, rgs);
    if |m| == 0 then [None] else m
  }

  /** `dropna` on the year, then the decade of each year. */
  function KnownDecades(ys: seq<Option<int>>): seq<int>
    decreases |ys|
  {
    if |ys| == 0 then []
    else
      var prev := KnownDecades(ys[..|ys| - 1]);
      match ys[|ys| - 1]
      case Some(y) => prev + [Decade(y)]
      case None => prev
  }

  lemma {:induction false} KnownDecadesMember(ys: seq<Option<int>>, d: int)
    ensures d in KnownDecades(ys) <==> exists j :: 0 <= j < |ys| && ys[j].Some? && d == Decade(ys[j].value)
    decreases |ys|
  {
    if |ys| > 0 {
      var q := ys[..|ys| - 1];
      KnownDecadesMember(q, d);
      assert forall j :: 0 <= j < |q| ==> q[j] == ys[j];
    }
  }

  /** `(decade, genre)` for each decade. */
  function WithGenre(ds: seq<int>, g: string): (r: seq<(int, string)>)
    ensures forall x :: x in r <==> x.0 in ds && x.1 == g
    decreases |ds|
  {
    if |ds| == 0 then []
    else
      var q := ds[..|ds| - 1];
      assert ds == q + [ds[|ds| - 1]];
      WithGenre(q, g) + [(ds[|ds| - 1], g)]
  }

  /** The release-group genre rows of `entity_genres`. */
  predicate GenreOfRg(e: EntityGenre) {
    e.entityType == Some("release-group")
  }

  /** The `(decade, genre)` rows one genre row contributes after the merge
      and `dropna`. */
  function GenreRows(e: EntityGenre, rgs: seq<RawRg>): seq<(int, string)> {
    if GenreOfRg(e) && e.genre.Some? then WithGenre(KnownDecades(MergedYears(e.entityMbid, rgs)), e.genre.value) else []
  }

  /** The `(decade, genre)` rows left after the merge and `dropna`. */
  function GenreDecades(eg: seq<EntityGenre>, rgs: seq<RawRg>): seq<(int, string)>
    decreases |eg|
  {
    if |eg| == 0 then []
    else GenreDecades(eg[..|eg| - 1], rgs) + GenreRows(eg[|eg| - 1], rgs)
  }

  /** A release-group genre row and a release group it names that has a
      year. */
  predicate Dated(eg: seq<EntityGenre>, rgs: seq<RawRg>, i: int, k: int, d: int, g: string)
    requires 0 <= i < |eg| && 0 <= k < |rgs|
  {
    Joins(eg[i], rgs[k], d, g)
  }

  /** A release-group genre row of genre `g` names release group `rg`,
      which has a year in decade `d`. */
  predicate Joins(e: EntityGenre, rg: RawRg, d: int, g: string) {
    GenreOfRg(e) && e.genre == Some(g) && e.entityMbid == Some(rg.rgMbid)
    && rg.firstReleaseYear.Some? && d == Decade(rg.firstReleaseYear.value)
  }

  function JoinsOf(e: EntityGenre, d: int, g: string): RawRg -> bool {
    (rg: RawRg) => Joins(e, rg, d, g)
  }

  /** The number of pairs `(i, k)` with `Dated(eg, rgs, i, k, d, g)`: for
      each genre row, the release groups it joins in decade `d`. */
  function DatedPairs(eg: seq<EntityGenre>, rgs: seq<RawRg>, d: int, g: string): nat
    decreases |eg|
  {
    if |eg| == 0 then 0
    else DatedPairs(eg[..|eg| - 1], rgs, d, g) + |Filter(rgs, JoinsOf(eg[|eg| - 1], d, g))|
  }

  /** One genre row yields `(d, g)` exactly when it is a release-group
      row of genre `g` naming a release group dated in decade `d`. */
  lemma GenreRowsMember(e: EntityGenre, rgs: seq<RawRg>, d: int, g: string)
    ensures (d, g) in GenreRows(e, rgs) <==> (GenreOfRg(e) && e.genre == Some(g) &&
      exists k :: 0 <= k < |rgs| && e.entityMbid == Some(rgs[k].rgMbid) && rgs[k].firstReleaseYear.Some? && d == Decade(rgs[k].firstReleaseYear.value))
  {
    if GenreOfRg(e) && e.genre == Some(g) {
      var ys := MergedYears(e.entityMbid, rgs);
      var m := MatchedYears(e.entityMbid, rgs);
      KnownDecadesMember(ys, d);
      if d in KnownDecades(ys) {
        var j :| 0 <= j < |ys| && ys[j].Some? && d == Decade(ys[j].value);
        assert ys[j] in m;
        MatchedYearsMember(e.entityMbid, rgs, ys[j].value);
      }
      if exists k :: 0 <= k < |rgs| && e.entityMbid == Some(rgs[k].rgMbid) && rgs[k].firstReleaseYear.Some? && d == Decade(rgs[k].firstReleaseYear.value) {
        var k :| 0 <= k < |rgs| && e.entityMbid == Some(rgs[k].rgMbid) && rgs[k].firstReleaseYear.Some? && d == Decade(rgs[k].firstReleaseYear.value);
        var y := rgs[k].firstReleaseYear.value;
        MatchedYearsMember(e.entityMbid, rgs, y);
        assert Some(y) in m;
        var j :| 0 <= j < |m| && m[j] == Some(y);
        assert ys[j] == Some(y);
      }
    }
  }

  /** A `(decade, genre)` row comes from a genre row of a release group
      that has a year in that decade. */
  lemma {:induction false} GenreDecadesSound(eg: seq<EntityGenre>, rgs: seq<RawRg>, d: int, g: string)
    requires (d, g) in GenreDecades(eg, rgs)
    ensures exists i, k :: 0 <= i < |eg| && 0 <= k < |rgs| && Dated(eg, rgs, i, k, d, g)
    decreases |eg|
  {
    var q := eg[..|eg| - 1];
    var e := eg[|eg| - 1];
    if (d, g) in GenreDecades(q, rgs) {
      GenreDecadesSound(q, rgs, d, g);
      var i, k :| 0 <= i < |q| && 0 <= k < |rgs| && Dated(q, rgs, i, k, d, g);
      assert q[i] == eg[i];
      assert Dated(eg, rgs, i, k, d, g);
    } else {
      GenreRowsMember(e, rgs, d, g);
      var k :| 0 <= k < |rgs| && e.entityMbid == Some(rgs[k].rgMbid) && rgs[k].firstReleaseYear.Some? && d == Decade(rgs[k].firstReleaseYear.value);
      assert Dated(eg, rgs, |eg| - 1, k, d, g);
    }
  }

  /** Every genre row of a dated release group gives its `(decade, genre)`
      row: only rows whose release group is unknown or undated drop out of
      the left merge. */
  lemma {:induction false} GenreDecadesComplete(eg: seq<EntityGenre>, rgs: seq<RawRg>, i: int, k: int, d: int, g: string)
    requires 0 <= i < |eg| && 0 <= k < |rgs| && Dated(eg, rgs, i, k, d, g)
    ensures (d, g) in GenreDecades(eg, rgs)
    decreases |eg|
  {
    var q := eg[..|eg| - 1];
    var e := eg[|eg| - 1];
    assert GenreDecades(eg, rgs) == GenreDecades(q, rgs) + GenreRows(e, rgs);
    if i < |q| {
      assert q[i] == eg[i];
      assert Dated(q, rgs, i, k, d, g);
      GenreDecadesComplete(q, rgs, i, k, d, g);
    } else {
      GenreRowsMember(e, rgs, d, g);
    }
  }

  /** Pairing decades with genre `h` yields `(d, g)` as often as `d`
      occurs, when `h` is `g`. */
  lemma {:induction false} WithGenreCount(ds: seq<int>, h: string, d: int, g: string)
    ensures Count(WithGenre(ds, h), (d, g)) == if h == g then Count(ds, d) else 0
    decreases |ds|
  {
    if |ds| > 0 {
      WithGenreCount(ds[..|ds| - 1], h, d, g);
    }
  }

  /** A genre row's joined years give decade `d` once per release group
      it joins in that decade. */
  lemma {:induction false} MatchedDecadesCount(e: EntityGenre, rgs: seq<RawRg>, d: int, g: string)
    requires GenreOfRg(e) && e.genre == Some(g)
    ensures Count(KnownDecades(MatchedYears(e.entityMbid, rgs)), d) == |Filter(rgs, JoinsOf(e, d, g))|
    decreases |rgs|
  {
    if |rgs| > 0 {
      var q := rgs[..|rgs| - 1];
      var rg := rgs[|rgs| - 1];
      MatchedDecadesCount(e, q, d, g);
      var m := MatchedYears(e.entityMbid, q);
      if e.entityMbid == Some(rg.rgMbid) {
        assert MatchedYears(e.entityMbid, rgs) == m + [rg.firstReleaseYear];
        assert (m + [rg.firstReleaseYear])[..|m|] == m;
        match rg.firstReleaseYear
        case Some(y) =>
          assert KnownDecades(m + [rg.firstReleaseYear]) == KnownDecades(m) + [Decade(y)];
          CountAppend(KnownDecades(m), [Decade(y)], d);
        case None =>
          assert KnownDecades(m + [rg.firstReleaseYear]) == KnownDecades(m);
      } else {
        assert MatchedYears(e.entityMbid, rgs) == m;
      }
    }
  }

  /** One genre row yields `(d, g)` once per release group it joins in
      decade `d`. */
  lemma GenreRowsCount(e: EntityGenre, rgs: seq<RawRg>, d: int, g: string)
    ensures Count(GenreRows(e, rgs), (d, g)) == |Filter(rgs, JoinsOf(e, d, g))|
  {
    if GenreOfRg(e) && e.genre.Some? {
      var h := e.genre.value;
      var m := MatchedYears(e.entityMbid, rgs);
      var ds := KnownDecades(MergedYears(e.entityMbid, rgs));
      WithGenreCount(ds, h, d, g);
      if h == g {
        MatchedDecadesCount(e, rgs, d, g);
        if |m| == 0 {
          assert KnownDecades([None]) == [];
          assert KnownDecades(m) == [];
        }
      } else {
        FilterNone(rgs, JoinsOf(e, d, g));
      }
    } else {
      FilterNone(rgs, JoinsOf(e, d, g));
    }
  }

  /** `(d, g)` occurs among the rows once per pair `(i, k)` of a genre row
      and a release group with `Dated(eg, rgs, i, k, d, g)`. */
  lemma {:induction false} GenreDecadesCount(eg: seq<EntityGenre>, rgs: seq<RawRg>, d: int, g: string)
    ensures Count(GenreDecades(eg, rgs), (d, g)) == DatedPairs(eg, rgs, d, g)
    decreases |eg|
  {
    if |eg| > 0 {
      var q := eg[..|eg| - 1];
      GenreDecadesCount(q, rgs, d, g);
      GenreRowsCount(eg[|eg| - 1], rgs, d, g);
      CountAppend(GenreDecades(q, rgs), GenreRows(eg[|eg| - 1], rgs), (d, g));
    }
  }

  /** `genres_by_decade`: `groupby(["decade", "genre"]).size()`. */
  function DecadeCounts(eg: seq<EntityGenre>, rgs: seq<RawRg>): map<(int, string), nat> {
    Tally(GenreDecades(eg, rgs))
  }

  /** A `(decade, genre)` entry exists exactly for a release-group genre row
      joined to a dated release group of that decade, and counts those
      joined pairs; decades are multiples of ten. */
  lemma DecadeCountsMeaning(eg: seq<EntityGenre>, rgs: seq<RawRg>, d: int, g: string)
    ensures (d, g) in DecadeCounts(eg, rgs) <==> exists i, k :: 0 <= i < |eg| && 0 <= k < |rgs| && Dated(eg, rgs, i, k, d, g)
    ensures (d, g) in DecadeCounts(eg, rgs) ==> d % 10 == 0
    ensures (d, g) in DecadeCounts(eg, rgs) ==> DecadeCounts(eg, rgs)[(d, g)] == DatedPairs(eg, rgs, d, g)
  {
    GenreDecadesCount(eg, rgs, d, g);
    if (d, g) in DecadeCounts(eg, rgs) {
      GenreDecadesSound(eg, rgs, d, g);
    }
    if exists i, k :: 0 <= i < |eg| && 0 <= k < |rgs| && Dated(eg, rgs, i, k, d, g) {
      var i, k :| 0 <= i < |eg| && 0 <= k < |rgs| && Dated(eg, rgs, i, k, d, g);
      GenreDecadesComplete(eg, rgs, i, k, d, g);
    }
  }
}
