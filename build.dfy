/** The marts builder: credit tokenisation, resolution of free-text credits
    to artist ids, the artist discography, the primary-artist table, year
    and decade counts and the id- and name-based collaboration edges. */
module Build {
  import opened Wrappers
  import opened PyText
  import opened PyJson
  import opened Seqs
  import opened Ordering
  import CleanUtils

  // ---------------------------------------------------------------------
  // Clean-layer rows the builder reads

  /** A row of the clean `artists` table: `artist_mbid` and `name`. */
  datatype Artist = Artist(mbid: string, name: Option<string>)

  /** A row of the clean `release_groups` table. */
  datatype ReleaseGroup = ReleaseGroup(
    rgMbid: string,
    title: Option<string>,
    primaryType: Option<string>,
    firstReleaseDate: Option<string>,
    artistCredit: Option<string>)

  /** `pd.to_datetime(first_release_date, errors="coerce").dt.year` on the
      clean layer's `YYYY-MM-DD` strings: the year of a date that exists,
      null otherwise. */
  function FirstReleaseYear(frd: Option<string>): (r: Option<int>)
    ensures r.Some? ==> 1 <= r.value <= 9999
  {
    if frd.None? then None
    else
      match CleanUtils.Strptime(frd.value, CleanUtils.YMD)
      case Some(d) => Some(d.year)
      case None => None
  }

  // ---------------------------------------------------------------------
  // split_credit

  /** The separators `split_credit` cuts at, in the order it applies them. */
  const SplitTokens: seq<string> := [
    " feat. ", " featuring ", " with ", " & ", ", ", " and ", " x ", " / ",
    "; ", " vs ", " meets ", " presents ", " y ", " con ", " ft. ", " Feat. "
  ]

  predicate NonEmptyAll(toks: seq<string>) {
    forall i :: 0 <= i < |toks| ==> toks[i] != ""
  }

  lemma SplitTokensNonEmpty()
    ensures NonEmptyAll(SplitTokens)
  {
  }

  /** `str.split(tok)` as a function value. */
  function SplitAt(tok: string): string -> seq<string>
    requires tok != ""
  {
    p => Split(p, tok)
  }

  /** One round of the cascade: every fragment split at `tok`. */
  function SplitEach(parts: seq<string>, tok: string): (r: seq<string>)
    requires tok != ""
    ensures forall q :: q in r ==> !Contains(q, tok)
  {
    FlatMapMember(parts, SplitAt(tok));
    FlatMap(parts, SplitAt(tok))
  }

  /** Split every fragment at each separator of `toks` in turn. */
  function Cascade(parts: seq<string>, toks: seq<string>): seq<string>
    requires NonEmptyAll(toks)
    decreases |toks|
  {
    if |toks| == 0 then parts else Cascade(SplitEach(parts, toks[0]), toks[1..])
  }

  /** A string absent from every fragment stays absent through the cascade. */
  lemma {:induction false} CascadeKeepsAbsence(parts: seq<string>, toks: seq<string>, d: string)
    requires NonEmptyAll(toks)
    requires forall p :: p in parts ==> !Contains(p, d)
    ensures forall q :: q in Cascade(parts, toks) ==> !Contains(q, d)
    decreases |toks|
  {
    if |toks| > 0 {
      var next := SplitEach(parts, toks[0]);
      FlatMapMember(parts, SplitAt(toks[0]));
      forall q | q in next ensures !Contains(q, d) {
        var p :| p in parts && q in Split(p, toks[0]);
        SplitKeepsAbsence(p, toks[0], d);
      }
      CascadeKeepsAbsence(next, toks[1..], d);
    }
  }

  /** After the cascade no fragment contains any of the separators. */
  lemma {:induction false} CascadeRemoves(parts: seq<string>, toks: seq<string>, k: int)
    requires NonEmptyAll(toks) && 0 <= k < |toks|
    ensures forall q :: q in Cascade(parts, toks) ==> !Contains(q, toks[k])
    decreases |toks|
  {
    var next := SplitEach(parts, toks[0]);
    if k == 0 {
      CascadeKeepsAbsence(next, toks[1..], toks[0]);
    } else {
      CascadeRemoves(next, toks[1..], k - 1);
    }
  }

  /** The credit names `split_credit` never returns. */
  predicate Blocked(t: string) {
    Lower(t) in {"various artists", "various", "soundtrack"}
  }

  /** The stripped, non-blank fragments. */
  function StrippedPieces(pieces: seq<string>): (r: seq<string>)
    ensures forall t :: t in r <==> exists p :: p in pieces && Strip(p) != "" && t == Strip(p)
    decreases |pieces|
  {
    if |pieces| == 0 then []
    else
      var prev := StrippedPieces(pieces[..|pieces| - 1]);
      var last := pieces[|pieces| - 1];
      assert forall p :: p in pieces <==> p in pieces[..|pieces| - 1] || p == last by {
        assert pieces == pieces[..|pieces| - 1] + [last];
      }
      if Strip(last) != "" then prev + [Strip(last)] else prev
  }

  /** `split_credit(s)`: the names a free-text credit lists. */
  function Tokens(s: string): seq<string> {
    SplitTokensNonEmpty();
    Filter(StrippedPieces(Cascade([s], SplitTokens)), t => !Blocked(t))
  }

  /** `split_credit`, as the loop over the separators that rebinds `parts`. */
  method SplitCredit(s: string) returns (r: seq<string>)
    ensures r == Tokens(s)
  {
    var toks := SplitTokens;
    SplitTokensNonEmpty();
    var parts := [s];
    var i := 0;
    while i < |toks|
      invariant 0 <= i <= |toks|
      invariant Cascade(parts, toks[i..]) == Cascade([s], toks)
    {
      CascadeStep(parts, toks, i);
      parts := SplitEach(parts, toks[i]);
      i := i + 1;
    }
    assert toks[i..] == [];
    r := Filter(StrippedPieces(parts), t => !Blocked(t));
  }

  lemma CascadeStep(parts: seq<string>, toks: seq<string>, i: int)
    requires NonEmptyAll(toks) && 0 <= i < |toks|
    ensures Cascade(parts, toks[i..]) == Cascade(SplitEach(parts, toks[i]), toks[i + 1..])
  {
    assert toks[i..][1..] == toks[i + 1..];
  }

  /** Every token is stripped, non-empty, free of all sixteen separators and
      not a blocked name. */
  lemma TokensClean(s: string, t: string)
    requires t in Tokens(s)
    ensures t != "" && !IsSpace(t[0]) && !IsSpace(t[|t| - 1])
    ensures forall k :: 0 <= k < |SplitTokens| ==> !Contains(t, SplitTokens[k])
    ensures !Blocked(t)
  {
    SplitTokensNonEmpty();
    var pieces := Cascade([s], SplitTokens);
    var p :| p in pieces && Strip(p) != "" && t == Strip(p);
    forall k | 0 <= k < |SplitTokens| ensures !Contains(t, SplitTokens[k]) {
      CascadeRemoves([s], SplitTokens, k);
      StripKeepsAbsence(p, SplitTokens[k]);
    }
  }

  /** A credit with no separator in it is the single stripped name, unless
      it is blank or blocked ("Various Artists" yields nothing). */
  lemma TokensOfOneName(s: string)
    requires forall k :: 0 <= k < |SplitTokens| ==> !Contains(s, SplitTokens[k])
    ensures Tokens(s) == if Strip(s) == "" || Blocked(Strip(s)) then [] else [Strip(s)]
  {
    SplitTokensNonEmpty();
    CascadeOfClean([s], SplitTokens, s);
    assert StrippedPieces([s]) == if Strip(s) != "" then [Strip(s)] else [] by {
      assert [s][..0] == [];
    }
    var sp := StrippedPieces([s]);
    if Strip(s) != "" {
      assert sp == [] + [Strip(s)];
      FilterSnoc([], Strip(s), t => !Blocked(t));
    }
  }

  /** A fragment containing none of the separators passes the cascade
      unchanged. */
  lemma {:induction false} CascadeOfClean(parts: seq<string>, toks: seq<string>, s: string)
    requires NonEmptyAll(toks) && parts == [s]
    requires forall k :: 0 <= k < |toks| ==> !Contains(s, toks[k])
    ensures Cascade(parts, toks) == [s]
    decreases |toks|
  {
    if |toks| > 0 {
      SplitAbsent(s, toks[0]);
      assert SplitEach([s], toks[0]) == [s] by {
        assert [s][..0] == [];
        FlatMapSnoc([], s, p => Split(p, toks[0]));
      }
      forall k | 0 <= k < |toks[1..]| ensures !Contains(s, toks[1..][k]) {
        assert toks[1..][k] == toks[k + 1];
      }
      CascadeOfClean([s], toks[1..], s);
    }
  }

  // ---------------------------------------------------------------------
  // The per-artist matcher

  /** Python's `\w` on ASCII: letters, digits and the underscore. */
  predicate IsWordChar(c: char) {
    ('a' <= c <= 'z') || ('A' <= c <= 'Z') || ('0' <= c <= '9') || c == '_'
  }

  /** `name` occurs at `i` ignoring case, with no word character just before
      and none just after. */
  predicate MatchAt(credit: string, name: string, i: int) {
    0 <= i && i + |name| <= |credit|
    && Lower(credit[i..i + |name|]) == Lower(name)
    && (i == 0 || !IsWordChar(credit[i - 1]))
    && (i + |name| == |credit| || !IsWordChar(credit[i + |name|]))
  }

  /** `re.search(rf"(?i)(?<!\w){re.escape(name)}(?!\w)", credit)` succeeds. */
  predicate Hit(credit: string, name: string) {
    exists i | 0 <= i <= |credit| - |name| :: MatchAt(credit, name, i)
  }

  /** A name found only inside a longer word is not a hit ("Ora" in
      "Aurora"). */
  lemma NoHitInsideWord(credit: string, name: string)
    requires |name| < |credit|
    requires forall k :: 0 <= k < |credit| ==> IsWordChar(credit[k])
    ensures !Hit(credit, name)
  {
  }

  /** A credit that is exactly the name, in any letter case, is a hit. */
  lemma HitOfWholeCredit(credit: string, name: string)
    requires name != "" && Lower(credit) == Lower(name)
    ensures Hit(credit, name)
  {
    assert credit[0..|name|] == credit;
    assert MatchAt(credit, name, 0);
  }

  /** The matcher ignores the letter case of the name. */
  lemma HitIgnoresCase(credit: string, name: string)
    ensures Hit(credit, name) <==> Hit(credit, Lower(name))
  {
    assert Lower(Lower(name)) == Lower(name);
    forall i ensures MatchAt(credit, name, i) <==> MatchAt(credit, Lower(name), i) {
    }
  }

  /** `patt`: an `(artist_mbid, name)` entry for every artist whose name is a
      string that is not blank, in table order. */
  function Patterns(artists: seq<Artist>): (r: seq<(string, string)>)
    ensures forall p :: p in r <==> exists a :: a in artists && a.name.Some? && Strip(a.name.value) != "" && p == (a.mbid, a.name.value)
    decreases |artists|
  {
    if |artists| == 0 then []
    else
      var prev := Patterns(artists[..|artists| - 1]);
      var a := artists[|artists| - 1];
      assert forall b :: b in artists <==> b in artists[..|artists| - 1] || b == a by {
        assert artists == artists[..|artists| - 1] + [a];
      }
      if a.name.Some? && Strip(a.name.value) != "" then prev + [(a.mbid, a.name.value)] else prev
  }

  /** `name_to_id`: the dictionary from artist name to id, built in table
      order, so a later artist with the same name wins. */
  function NameToId(artists: seq<Artist>): (m: map<string, string>)
    ensures forall n :: n in m <==> exists i :: 0 <= i < |artists| && artists[i].name == Some(n)
    decreases |artists|
  {
    if |artists| == 0 then map[]
    else
      var p := artists[..|artists| - 1];
      var a := artists[|artists| - 1];
      var prev := NameToId(p);
      assert forall i :: 0 <= i < |p| ==> p[i] == artists[i];
      if a.name.Some? then prev[a.name.value := a.mbid] else prev
  }

  /** The id `name_to_id` holds for a name is that of the last artist with
      the name. */
  lemma {:induction false} NameToIdLast(artists: seq<Artist>, i: int)
    requires 0 <= i < |artists| && artists[i].name.Some?
    requires forall j :: i < j < |artists| ==> artists[j].name != artists[i].name
    ensures NameToId(artists)[artists[i].name.value] == artists[i].mbid
    decreases |artists|
  {
    if i < |artists| - 1 {
      var p := artists[..|artists| - 1];
      assert p[i] == artists[i];
      NameToIdLast(p, i);
    }
  }

  function Fst(p: (string, string)): string {
    p.0
  }

  /** The `(mbid, name)` entries whose matcher finds the credit, in table
      order. */
  function Hits(credit: string, patt: seq<(string, string)>): (r: seq<(string, string)>)
    ensures forall p :: p in r <==> p in patt && Hit(credit, p.1)
  {
    Filter(patt, (p: (string, string)) => Hit(credit, p.1))
  }

  /** The set of ids already resolved. */
  function Ids(d: seq<(string, string)>): (r: set<string>)
    ensures forall m :: m in r <==> HasKey(d, Fst, m)
  {
    set p | p in d :: p.0
  }

  /** The token fallback: each token whose id is known, non-empty and not yet
      present adds `(id, token)`. */
  function Extend(d: seq<(string, string)>, toks: seq<string>, n2i: map<string, string>): (r: seq<(string, string)>)
    requires UniqueKeys(d, Fst)
    ensures UniqueKeys(r, Fst)
    ensures |d| <= |r| && r[..|d|] == d
    ensures forall k :: |d| <= k < |r| ==> r[k].1 in toks && r[k].1 in n2i && r[k].0 == n2i[r[k].1] && r[k].0 != ""
    decreases |toks|
  {
    if |toks| == 0 then d
    else
      var prev := Extend(d, toks[..|toks| - 1], n2i);
      var nm := toks[|toks| - 1];
      assert forall t :: t in toks[..|toks| - 1] ==> t in toks;
      if nm in n2i && n2i[nm] != "" && n2i[nm] !in Ids(prev) then
        var r := prev + [(n2i[nm], nm)];
        assert r[..|d|] == prev[..|d|];
        assert UniqueKeys(r, Fst) by {
          forall i | 0 <= i < |prev| ensures prev[i].0 != n2i[nm] {
            assert HasKey(prev, Fst, prev[i].0);
          }
        }
        r
      else prev
  }

  /** Resolution from the hits and the tokens: the hits without repeated
      ids, then, only when fewer than two were found, the token fallback. */
  function ResolveFrom(hits: seq<(string, string)>, toks: seq<string>, n2i: map<string, string>): (r: seq<(string, string)>)
    ensures UniqueKeys(r, Fst)
  {
    var d := KeepFirstBy(hits, Fst);
    if |d| < 2 then Extend(d, toks, n2i) else d
  }

  /** The artists a release group's credit resolves to. */
  function Resolve(credit: string, patt: seq<(string, string)>, n2i: map<string, string>): (r: seq<(string, string)>)
    ensures UniqueKeys(r, Fst)
  {
    ResolveFrom(Hits(credit, patt), Tokens(credit), n2i)
  }

  /** The deduplicated hits come first; the fallback only runs below two of
      them and only appends known, non-empty ids of tokens. */
  lemma ResolveFromShape(hits: seq<(string, string)>, toks: seq<string>, n2i: map<string, string>)
    ensures var d := KeepFirstBy(hits, Fst); var r := ResolveFrom(hits, toks, n2i);
      |d| <= |r| && r[..|d|] == d
      && (|d| >= 2 ==> r == d)
      && (forall k :: |d| <= k < |r| ==> r[k].1 in toks && r[k].1 in n2i && r[k].0 == n2i[r[k].1] && r[k].0 != "")
  {
    var d := KeepFirstBy(hits, Fst);
    if |d| >= 2 {
      assert d[..|d|] == d;
    }
  }

  /** Every hit's id is resolved, and the first hit with an id gives its
      entry. */
  lemma ResolveFromKeepsHits(hits: seq<(string, string)>, toks: seq<string>, n2i: map<string, string>, i: int)
    requires 0 <= i < |hits|
    ensures HasKey(ResolveFrom(hits, toks, n2i), Fst, hits[i].0)
    ensures FirstOfKey(hits, Fst, i) ==> hits[i] in ResolveFrom(hits, toks, n2i)
  {
    var d := KeepFirstBy(hits, Fst);
    KeepFirstByKeeps(hits, Fst, i);
    var r := ResolveFrom(hits, toks, n2i);
    ResolveFromShape(hits, toks, n2i);
    var k :| 0 <= k < |d| && Fst(d[k]) == Fst(hits[i]);
    assert r[k] == d[k];
    if FirstOfKey(hits, Fst, i) {
      var j :| 0 <= j < |d| && d[j] == hits[i];
      assert r[j] == d[j];
    }
  }

  /** The regex hits come first, each id once at its first hit in table
      order; the fallback only runs below two hits and only appends known,
      non-empty ids from the credit's tokens. */
  lemma ResolveShape(credit: string, patt: seq<(string, string)>, n2i: map<string, string>)
    ensures var d := KeepFirstBy(Hits(credit, patt), Fst); var r := Resolve(credit, patt, n2i);
      |d| <= |r| && r[..|d|] == d
      && (|d| >= 2 ==> r == d)
      && (forall k :: |d| <= k < |r| ==> r[k].1 in Tokens(credit) && r[k].1 in n2i && r[k].0 == n2i[r[k].1] && r[k].0 != "")
  {
    ResolveFromShape(Hits(credit, patt), Tokens(credit), n2i);
  }

  /** Every matched artist is resolved, by the entry of its first hit. */
  lemma ResolveKeepsHits(credit: string, patt: seq<(string, string)>, n2i: map<string, string>, i: int)
    requires 0 <= i < |Hits(credit, patt)|
    ensures HasKey(Resolve(credit, patt, n2i), Fst, Hits(credit, patt)[i].0)
    ensures FirstOfKey(Hits(credit, patt), Fst, i) ==> Hits(credit, patt)[i] in Resolve(credit, patt, n2i)
  {
    ResolveFromKeepsHits(Hits(credit, patt), Tokens(credit), n2i, i);
  }

  /** `HasKey` on a prefix that grows by one row. */
  lemma HasKeySnoc(s: seq<(string, string)>, x: (string, string), m: string)
    ensures HasKey(s + [x], Fst, m) <==> HasKey(s, Fst, m) || x.0 == m
  {
    if HasKey(s, Fst, m) {
      var i :| 0 <= i < |s| && Fst(s[i]) == m;
      assert (s + [x])[i] == s[i];
    }
    if x.0 == m {
      assert (s + [x])[|s|] == x;
    }
  }

  /** The dedup loop over the hits keeps a key exactly when an earlier hit
      had it. */
  lemma KeepFirstHasKey(s: seq<(string, string)>, m: string)
    ensures HasKey(KeepFirstBy(s, Fst), Fst, m) <==> HasKey(s, Fst, m)
  {
    var d := KeepFirstBy(s, Fst);
    if HasKey(s, Fst, m) {
      var i :| 0 <= i < |s| && Fst(s[i]) == m;
      KeepFirstByKeeps(s, Fst, i);
    }
    if HasKey(d, Fst, m) {
      var k :| 0 <= k < |d| && Fst(d[k]) == m;
      assert d[k] in s;
      var i :| 0 <= i < |s| && s[i] == d[k];
    }
  }

  /** Appending a row adds its id to the ids resolved. */
  lemma IdsSnoc(d: seq<(string, string)>, x: (string, string))
    ensures Ids(d + [x]) == Ids(d) + {x.0}
  {
    forall m ensures m in Ids(d + [x]) <==> m in Ids(d) + {x.0} {
      HasKeySnoc(d, x, m);
    }
  }

  /** The loop over the hits that keeps each id once through `seen`. */
  method DedupHits(hits: seq<(string, string)>) returns (dedup: seq<(string, string)>, seen: set<string>)
    ensures dedup == KeepFirstBy(hits, Fst)
    ensures seen == Ids(dedup)
  {
    seen := {};
    dedup := [];
    var k := 0;
    while k < |hits|
      invariant 0 <= k <= |hits|
      invariant dedup == KeepFirstBy(hits[..k], Fst)
      invariant seen == Ids(dedup)
    {
      var x := hits[k];
      assert hits[..k + 1] == hits[..k] + [x];
      KeepFirstBySnoc(hits[..k], x, Fst);
      KeepFirstHasKey(hits[..k], x.0);
      if x.0 !in seen {
        IdsSnoc(dedup, x);
        seen := seen + {x.0};
        dedup := dedup + [x];
      }
      k := k + 1;
    }
    assert hits[..k] == hits;
  }

  /** The fallback loop over the credit's tokens. */
  method ExtendByTokens(d0: seq<(string, string)>, seen0: set<string>, toks: seq<string>, n2i: map<string, string>)
    returns (dedup: seq<(string, string)>, seen: set<string>)
    requires UniqueKeys(d0, Fst) && seen0 == Ids(d0)
    ensures dedup == Extend(d0, toks, n2i)
  {
    dedup, seen := d0, seen0;
    var t := 0;
    while t < |toks|
      invariant 0 <= t <= |toks|
      invariant dedup == Extend(d0, toks[..t], n2i)
      invariant seen == Ids(dedup)
    {
      var nm := toks[t];
      assert toks[..t + 1][..t] == toks[..t];
      if nm in n2i && n2i[nm] != "" && n2i[nm] !in seen {
        var mbid := n2i[nm];
        ghost var before := dedup;
        seen := seen + {mbid};
        dedup := dedup + [(mbid, nm)];
        forall m ensures m in seen <==> HasKey(dedup, Fst, m) {
          HasKeySnoc(before, (mbid, nm), m);
        }
      }
      t := t + 1;
    }
    assert toks[..t] == toks;
  }

  /** The resolution step of the discography loop: the regex hits
      deduplicated through `seen`, then the token fallback below two ids. */
  method ResolveCredit(credit: string, patt: seq<(string, string)>, n2i: map<string, string>) returns (dedup: seq<(string, string)>)
    ensures dedup == Resolve(credit, patt, n2i)
  {
    var hits := Hits(credit, patt);
    var seen;
    dedup, seen := DedupHits(hits);
    if |dedup| < 2 {
      var toks := SplitCredit(credit);
      dedup, seen := ExtendByTokens(dedup, seen, toks, n2i);
    }
  }
}
