/** The data-dictionary scaffold of `app/tools/emit_dictionary.py`: the table
    a raw payload file belongs to, the type of every JSON path under each
    table's root record, and the rows that describe those paths. */
module EmitDictionary {
  import opened Wrappers
  import opened Seqs
  import opened PyJson
  import opened PyText
  import opened Ordering

  // ---------------------------------------------------------------------
  // The table a file name belongs to
  // ---------------------------------------------------------------------

  /** File-name fragments and the table each announces, in search order. */
  const Patterns: seq<(string, string)> := [
    ("artist_detail_", "artists"),
    ("artist_search_", "artists"),
    ("release_groups_by_artist_", "release_groups"),
    ("releases_by_rg_", "releases"),
    ("recordings_by_artist_", "recordings")
  ]

  /** The table of the first fragment occurring anywhere in `fn`. */
  function FirstPattern(pats: seq<(string, string)>, fn: string): (r: Option<string>)
    ensures r.None? <==> forall i :: 0 <= i < |pats| ==> !Contains(fn, pats[i].0)
    ensures r.Some? ==>
      exists i :: 0 <= i < |pats| && Contains(fn, pats[i].0) && r.value == pats[i].1 &&
        forall j :: 0 <= j < i ==> !Contains(fn, pats[j].0)
    decreases |pats|
  {
    if |pats| == 0 then None
    else if Contains(fn, pats[0].0) then Some(pats[0].1)
    else
      var r := FirstPattern(pats[1..], fn);
      assert forall i :: 0 < i < |pats| ==> pats[i] == pats[1..][i - 1];
      r
  }

  /** `infer_table_from_filename`: try the fragments in order, stop at the
      first that occurs. */
  method InferTable(fn: string) returns (r: Option<string>)
    ensures r == FirstPattern(Patterns, fn)
  {
    var pats := Patterns;
    for i := 0 to |pats|
      invariant FirstPattern(pats, fn) == FirstPattern(pats[i..], fn)
    {
      assert pats[i..][1..] == pats[i + 1..];
      if Contains(fn, pats[i].0) {
        return Some(pats[i].1);
      }
    }
    return None;
  }

  /** Every table a file name can announce is one of the pattern tables. */
  lemma InferredTables(fn: string)
    ensures FirstPattern(Patterns, fn).Some? ==>
      FirstPattern(Patterns, fn).value in {"artists", "release_groups", "releases", "recordings"}
  {
    if FirstPattern(Patterns, fn).Some? {
      var i :| 0 <= i < |Patterns| && FirstPattern(Patterns, fn).value == Patterns[i].1;
    }
  }

  // ---------------------------------------------------------------------
  // The path-to-type dictionary
  // ---------------------------------------------------------------------

  /** A Python dictionary from paths to type names, as its item list in
      insertion order. */
  type Dict = seq<(string, string)>

  function KeyOf(e: (string, string)): string {
    e.0
  }

  /** The keys of a dictionary, in insertion order. */
  function Paths(d: Dict): seq<string> {
    Map(d, KeyOf)
  }

  /** The position holding key `k`. */
  function Find(d: Dict, k: string): (r: Option<nat>)
    ensures r.Some? ==>
      r.value < |d| && d[r.value].0 == k && forall j :: 0 <= j < r.value ==> d[j].0 != k
    ensures r.None? ==> forall j :: 0 <= j < |d| ==> d[j].0 != k
    decreases |d|
  {
    if |d| == 0 then None
    else if d[0].0 == k then Some(0)
    else match Find(d[1..], k)
      case Some(i) => Some(i + 1)
      case None => None
  }

  /** `d.get(k)`. */
  function ValueAt(d: Dict, k: string): Option<string> {
    match Find(d, k)
    case Some(i) => Some(d[i].1)
    case None => None
  }

  /** `d[k] = v`: an existing key keeps its place, a new one goes last. */
  function Put(d: Dict, k: string, v: string): Dict {
    match Find(d, k)
    case Some(i) => d[i := (k, v)]
    case None => d + [(k, v)]
  }

  /** After `d[k] = v`, `k` reads `v` and every other key reads as before. */
  lemma PutValue(d: Dict, k: string, v: string, q: string)
    ensures ValueAt(Put(d, k, v), q) == if q == k then Some(v) else ValueAt(d, q)
  {
    var e := Put(d, k, v);
    var f := Find(e, q);
    match Find(d, k)
    case Some(i) =>
      assert forall j :: 0 <= j < |d| ==> e[j].0 == d[j].0;
      if q == k {
        assert f == Some(i);
      } else {
        assert f == Find(d, q) by {
          if f.Some? && Find(d, q).Some? {
            assert f.value == Find(d, q).value;
          }
        }
      }
    case None =>
      assert forall j :: 0 <= j < |d| ==> e[j] == d[j];
      assert e[|d|] == (k, v);
      if q == k {
        assert f == Some(|d|);
      } else {
        assert f == Find(d, q) by {
          if f.Some? && Find(d, q).Some? {
            assert f.value == Find(d, q).value;
          }
        }
      }
  }

  /** A key is present exactly when it reads a value. */
  lemma PathsValued(d: Dict, k: string)
    ensures k in Paths(d) <==> ValueAt(d, k).Some?
  {
    if k in Paths(d) {
      var j :| 0 <= j < |d| && Paths(d)[j] == k;
      assert d[j].0 == k;
    }
    if ValueAt(d, k).Some? {
      var i := Find(d, k).value;
      assert Paths(d)[i] == k;
    }
  }

  // ---------------------------------------------------------------------
  // walk
  // ---------------------------------------------------------------------

  /** The key a node is recorded under: `prefix or "$"`. */
  function PathOr(prefix: string): string {
    if prefix == "" then "$" else prefix
  }

  /** The path of the value under key `k`. */
  function Child(prefix: string, k: string): string {
    if prefix != "" then prefix + "." + k else k
  }

  /** `walk(prefix, node, acc)`: record the node's type, then walk every
      field of an object and the first element of a list; an empty list
      records `prefix[]` as `list(empty)`. */
  function Walked(prefix: string, node: Json, acc: Dict): Dict
    decreases node, 1
  {
    var here := Put(acc, PathOr(prefix), TypeName(node));
    match node
    case JObj(fields) => WalkedFields(prefix, node, |fields|, here)
    case JArr(items) =>
      if |items| > 0 then Walked(prefix + "[]", items[0], here)
      else Put(here, prefix + "[]", "list(empty)")
    case _ => here
  }

  /** The walks of the first `n` fields of object `parent`, in order. */
  function WalkedFields(prefix: string, parent: Json, n: nat, acc: Dict): Dict
    requires parent.JObj? && n <= |parent.fields|
    decreases parent, 0, n
  {
    if n == 0 then acc
    else
      Walked(Child(prefix, parent.fields[n - 1].0), parent.fields[n - 1].1,
        WalkedFields(prefix, parent, n - 1, acc))
  }

  /** `q` lies under `prefix`: past a field step `.` or a list step `[]`. */
  predicate Under(q: string, prefix: string) {
    StartsWith(q, prefix + ".") || StartsWith(q, prefix + "[]")
  }

  /** A path under a child path is under its parent. */
  lemma UnderChild(q: string, prefix: string, c: string)
    requires Under(c, prefix) && (q == c || Under(q, c))
    ensures Under(q, prefix)
  {
    if q != c {
      var h := if StartsWith(c, prefix + ".") then prefix + "." else prefix + "[]";
      var x := if StartsWith(q, c + ".") then c + "." else c + "[]";
      assert StartsWith(c, h) && StartsWith(q, x);
      assert q[..|h|] == q[..|x|][..|h|] == x[..|h|] == c[..|h|] == h;
    }
  }

  /** A field's path lies under the object's. */
  lemma ChildUnder(prefix: string, k: string)
    requires prefix != ""
    ensures Under(Child(prefix, k), prefix)
  {
    assert (prefix + "." + k)[..|prefix| + 1] == prefix + ".";
  }

  /** A key naming one field, without a field or list step in it. */
  predicate PlainKey(k: string) {
    forall m :: 0 <= m < |k| ==> k[m] != '.' && k[m] != '['
  }

  /** Distinct sibling keys give paths neither equal nor under one another
      when the first key is plain. */
  lemma SiblingsApart(prefix: string, a: string, b: string)
    requires prefix != "" && a != b && PlainKey(a)
    ensures Child(prefix, a) != Child(prefix, b)
    ensures !Under(Child(prefix, a), Child(prefix, b))
  {
    var ca := prefix + "." + a;
    var cb := prefix + "." + b;
    var n := |prefix| + 1;
    assert forall m :: 0 <= m < |a| ==> ca[n + m] == a[m];
    assert forall m :: 0 <= m < |b| ==> cb[n + m] == b[m];
    if |a| == |b| {
      var m :| 0 <= m < |a| && a[m] != b[m];
      assert ca[n + m] != cb[n + m];
    }
    if |a| > |b| {
      assert ca[..|cb| + 1][n + |b|] == a[|b|];
      assert (cb + ".")[n + |b|] == '.';
    }
    if |a| > |b| + 1 {
      assert ca[..|cb| + 2][n + |b|] == a[|b|];
      assert (cb + "[]")[n + |b|] == '[';
    }
  }

  /** A walk under a non-empty prefix writes the prefix and the paths
      below it, and nothing else. */
  lemma {:induction false} WalkedStaysUnder(prefix: string, node: Json, acc: Dict, q: string)
    requires prefix != "" && q != prefix && !Under(q, prefix)
    ensures ValueAt(Walked(prefix, node, acc), q) == ValueAt(acc, q)
    decreases node, 1
  {
    var here := Put(acc, PathOr(prefix), TypeName(node));
    PutValue(acc, PathOr(prefix), TypeName(node), q);
    match node
    case JObj(fields) =>
      WalkedFieldsStayUnder(prefix, node, |fields|, here, q);
    case JArr(items) =>
      var c := prefix + "[]";
      assert Under(c, prefix);
      if q == c || Under(q, c) { UnderChild(q, prefix, c); }
      if |items| > 0 {
        WalkedStaysUnder(c, items[0], here, q);
      } else {
        PutValue(here, c, "list(empty)", q);
      }
    case _ =>
  }

  /** The field walks of an object under a non-empty prefix leave alone
      every path not below it, the prefix itself included. */
  lemma {:induction false} WalkedFieldsStayUnder(prefix: string, parent: Json, n: nat, acc: Dict, q: string)
    requires parent.JObj? && n <= |parent.fields|
    requires prefix != "" && !Under(q, prefix)
    ensures ValueAt(WalkedFields(prefix, parent, n, acc), q) == ValueAt(acc, q)
    decreases parent, 0, n
  {
    if n > 0 {
      var c := Child(prefix, parent.fields[n - 1].0);
      ChildUnder(prefix, parent.fields[n - 1].0);
      if q == c || Under(q, c) { UnderChild(q, prefix, c); }
      WalkedFieldsStayUnder(prefix, parent, n - 1, acc, q);
      WalkedStaysUnder(c, parent.fields[n - 1].1, WalkedFields(prefix, parent, n - 1, acc), q);
    }
  }

  /** Under a non-empty prefix the walk leaves the node's own type at the
      prefix. */
  lemma WalkedRecordsRoot(prefix: string, node: Json, acc: Dict)
    requires prefix != ""
    ensures ValueAt(Walked(prefix, node, acc), prefix) == Some(TypeName(node))
  {
    var here := Put(acc, prefix, TypeName(node));
    PutValue(acc, prefix, TypeName(node), prefix);
    match node
    case JObj(fields) =>
      WalkedFieldsStayUnder(prefix, node, |fields|, here, prefix);
    case JArr(items) =>
      if |items| > 0 {
        WalkedStaysUnder(prefix + "[]", items[0], here, prefix);
      } else {
        PutValue(here, prefix + "[]", "list(empty)", prefix);
      }
    case _ =>
  }

  /** An empty list is recorded as `list` with `list(empty)` beneath it. */
  lemma WalkedEmptyList(prefix: string, acc: Dict)
    ensures ValueAt(Walked(prefix, JArr([]), acc), prefix + "[]") == Some("list(empty)")
    ensures ValueAt(Walked(prefix, JArr([]), acc), PathOr(prefix)) == Some("list")
  {
    var here := Put(acc, PathOr(prefix), "list");
    PutValue(acc, PathOr(prefix), "list", PathOr(prefix));
    PutValue(here, prefix + "[]", "list(empty)", prefix + "[]");
    PutValue(here, prefix + "[]", "list(empty)", PathOr(prefix));
  }

  /** Only the first element of a list is walked: lists that agree on it
      give the same dictionary. */
  lemma WalkedFirstElement(prefix: string, x: Json, rest1: seq<Json>, rest2: seq<Json>, acc: Dict)
    ensures Walked(prefix, JArr([x] + rest1), acc) == Walked(prefix, JArr([x] + rest2), acc)
  {
  }

  /** A plain key that no later sibling repeats is apart from the paths of
      those siblings. */
  lemma {:induction false} SiblingsAllApart(prefix: string, parent: Json, i: nat, n: nat)
    requires parent.JObj? && prefix != "" && i < n <= |parent.fields|
    requires i + 1 < n ==> PlainKey(parent.fields[i].0)
    requires forall j :: i < j < n ==> parent.fields[j].0 != parent.fields[i].0
    ensures AllApart(Child(prefix, parent.fields[i].0), prefix, parent, i + 1, n)
    decreases n
  {
    if n > i + 1 {
      SiblingsAllApart(prefix, parent, i, n - 1);
      SiblingsApart(prefix, parent.fields[i].0, parent.fields[n - 1].0);
    }
  }

  /** `q` is neither path `c` nor below it. */
  predicate Apart(q: string, c: string) {
    q != c && !Under(q, c)
  }

  /** `q` is apart from the paths of fields `m` to `n - 1`. */
  predicate AllApart(q: string, prefix: string, parent: Json, m: nat, n: nat)
    requires parent.JObj? && n <= |parent.fields|
    decreases n
  {
    n <= m || (AllApart(q, prefix, parent, m, n - 1) && Apart(q, Child(prefix, parent.fields[n - 1].0)))
  }

  /** What the walks of the first `n` fields of `parent` leave at `q`. */
  function FieldsAt(prefix: string, parent: Json, n: nat, acc: Dict, q: string): Option<string>
    requires parent.JObj? && n <= |parent.fields|
  {
    ValueAt(WalkedFields(prefix, parent, n, acc), q)
  }

  /** The walks of fields `m` to `n - 1` leave alone a path that is none of
      theirs and below none of them. */
  lemma {:induction false} LaterFieldsKeepAt(prefix: string, parent: Json, m: nat, n: nat, acc: Dict, q: string)
    requires parent.JObj? && prefix != "" && m <= n <= |parent.fields|
    requires AllApart(q, prefix, parent, m, n)
    ensures FieldsAt(prefix, parent, n, acc, q) == FieldsAt(prefix, parent, m, acc, q)
    decreases n
  {
    if n > m {
      LaterFieldsKeepAt(prefix, parent, m, n - 1, acc, q);
      LaterFieldStep(prefix, parent, n, acc, q);
    }
  }

  /** The walk of the `n`-th field leaves alone a path that is neither its
      own nor below it. */
  lemma LaterFieldStep(prefix: string, parent: Json, n: nat, acc: Dict, q: string)
    requires parent.JObj? && prefix != "" && 0 < n <= |parent.fields|
    requires Apart(q, Child(prefix, parent.fields[n - 1].0))
    ensures FieldsAt(prefix, parent, n, acc, q) == FieldsAt(prefix, parent, n - 1, acc, q)
  {
    var c := Child(prefix, parent.fields[n - 1].0);
    assert c != "" by { assert |c| > |prefix|; }
    WalkedStaysUnder(c, parent.fields[n - 1].1, WalkedFields(prefix, parent, n - 1, acc), q);
  }

  /** Each field of an object is recorded at `prefix.key` with its own type,
      unless a later field repeats its key, or a later sibling's walk can
      reach its path because the key holds a `.` or `[`. */
  lemma WalkedField(prefix: string, fields: seq<(string, Json)>, acc: Dict, i: nat)
    requires prefix != "" && i < |fields|
    requires i + 1 < |fields| ==> PlainKey(fields[i].0)
    requires forall j :: i < j < |fields| ==> fields[j].0 != fields[i].0
    ensures ValueAt(Walked(prefix, JObj(fields), acc), prefix + "." + fields[i].0) == Some(TypeName(fields[i].1))
  {
    var node := JObj(fields);
    var here := Put(acc, prefix, "dict");
    WalkedRecordsRoot(prefix + "." + fields[i].0, fields[i].1, WalkedFields(prefix, node, i, here));
    SiblingsAllApart(prefix, node, i, |fields|);
    LaterFieldsKeepAt(prefix, node, i + 1, |fields|, here, prefix + "." + fields[i].0);
  }

  /** The `acc` dictionary that a walk fills in place. */
  class PathTypes {
    var acc: Dict

    constructor()
      ensures acc == []
    {
      acc := [];
    }

    /** `walk(prefix, node, acc)`. */
    method Walk(prefix: string, node: Json)
      modifies this
      ensures acc == Walked(prefix, node, old(acc))
      decreases node, 1
    {
      acc := Put(acc, PathOr(prefix), TypeName(node));
      match node
      case JObj(fields) =>
        ghost var start := acc;
        for k := 0 to |fields|
          invariant acc == WalkedFields(prefix, node, k, start)
        {
          Walk(Child(prefix, fields[k].0), fields[k].1);
        }
      case JArr(items) =>
        if |items| > 0 {
          Walk(prefix + "[]", items[0]);
        } else {
          acc := Put(acc, prefix + "[]", "list(empty)");
        }
      case _ =>
    }
  }

  // ---------------------------------------------------------------------
  // emit_rows
  // ---------------------------------------------------------------------

  /** A dictionary row before aggregation: table, field, type. */
  datatype Row = Row(table: string, field: string, typ: string)

  /** `path.split(".", 1)[1]`. */
  function AfterFirstDot(path: string): string {
    match FindFrom(path, ".", 0)
    case Some(i) => path[i + 1..]
    case None => path
  }

  /** The field a path names: the path without its `table.` head when it has
      one, the whole path otherwise. */
  function FieldOf(table: string, path: string): string {
    if StartsWith(path, table + ".") then AfterFirstDot(path) else path
  }

  /** For a table name without a dot, the field is the path with `table.`
      cut off. */
  lemma FieldOfStrips(table: string, path: string)
    requires forall i :: 0 <= i < |table| ==> table[i] != '.'
    requires StartsWith(path, table + ".")
    ensures FieldOf(table, path) == path[|table| + 1..]
  {
    assert path[..|table| + 1] == table + ".";
    forall j | 0 <= j < |table| ensures !OccursAt(path, ".", j) {
      assert path[j] == table[j];
      assert path[j..j + 1] == [path[j]];
    }
    assert path[|table|..|table| + 1] == ".";
    FindFromAt(path, ".", 0, |table|);
  }

  predicate NotRoot(p: string) {
    p != "$"
  }

  /** The paths `emit_rows` writes: every key but `$`, in sorted order. */
  function EmittedPaths(acc: Dict): seq<string> {
    Filter(SortedDistinct(Paths(acc)), NotRoot)
  }

  function RowFor(table: string, acc: Dict): string -> Row {
    p => Row(table, FieldOf(table, p), ValueAt(acc, p).GetOr(""))
  }

  /** `emit_rows(table, acc)` as a value. */
  function EmittedRows(table: string, acc: Dict): seq<Row> {
    Map(EmittedPaths(acc), RowFor(table, acc))
  }

  /** Filtering a strictly sorted list keeps it strictly sorted. */
  lemma {:induction false} FilterSorted(s: seq<string>, p: string -> bool)
    requires StrictlySorted(s)
    ensures StrictlySorted(Filter(s, p))
    decreases |s|
  {
    if |s| > 0 {
      var init := s[..|s| - 1];
      var last := s[|s| - 1];
      FilterSorted(init, p);
      forall x | x in Filter(init, p) ensures Less(x, last) {
        var j :| 0 <= j < |init| && init[j] == x;
        assert s[j] == x;
      }
    }
  }

  /** `emit_rows` writes one row per key other than `$`, in strictly
      increasing path order, with the key's field and recorded type. */
  lemma EmittedRowsSpec(table: string, acc: Dict)
    ensures StrictlySorted(EmittedPaths(acc))
    ensures forall p :: p in EmittedPaths(acc) <==> p in Paths(acc) && p != "$"
    ensures |EmittedRows(table, acc)| == |EmittedPaths(acc)|
    ensures forall i :: 0 <= i < |EmittedPaths(acc)| ==>
      ValueAt(acc, EmittedPaths(acc)[i]).Some? &&
      EmittedRows(table, acc)[i] ==
        Row(table, FieldOf(table, EmittedPaths(acc)[i]), ValueAt(acc, EmittedPaths(acc)[i]).value)
  {
    FilterSorted(SortedDistinct(Paths(acc)), NotRoot);
    forall i | 0 <= i < |EmittedPaths(acc)|
      ensures ValueAt(acc, EmittedPaths(acc)[i]).Some?
    {
      assert EmittedPaths(acc)[i] in EmittedPaths(acc);
      PathsValued(acc, EmittedPaths(acc)[i]);
    }
  }

  /** `emit_rows(table, acc)`. */
  method EmitRows(table: string, acc: Dict) returns (rows: seq<Row>)
    ensures rows == EmittedRows(table, acc)
  {
    rows := EmitPaths(SortedDistinct(Paths(acc)), RowFor(table, acc));
  }

  /** The loop of `emit_rows`: one row per path other than `$`, in the
      order given. */
  method EmitPaths(paths: seq<string>, row: string -> Row) returns (rows: seq<Row>)
    ensures rows == Map(Filter(paths, NotRoot), row)
  {
    rows := [];
    for i := 0 to |paths|
      invariant rows == Map(Filter(paths[..i], NotRoot), row)
    {
      var x := paths[i];
      assert paths[..i + 1] == paths[..i] + [x];
      MapFilterSnoc(paths[..i], x, NotRoot, row);
      if x != "$" {
        rows := rows + [row(x)];
      }
    }
    assert paths[..|paths|] == paths;
  }

  /** The rows of one table's walk, `emit_rows(tbl, walk(tbl, root, {}))`. */
  function Scan(table: string, root: Json): seq<Row> {
    EmittedRows(table, Walked(table, root, []))
  }

  /** A table's rows include the root record itself, under the table's own
      name. */
  lemma ScanRootRow(table: string, root: Json)
    requires table != "" && table != "$"
    ensures Row(table, table, TypeName(root)) in Scan(table, root)
  {
    var acc := Walked(table, root, []);
    WalkedRecordsRoot(table, root, []);
    PathsValued(acc, table);
    EmittedRowsSpec(table, acc);
    var i :| 0 <= i < |EmittedPaths(acc)| && EmittedPaths(acc)[i] == table;
    assert !StartsWith(table, table + ".");
    assert EmittedRows(table, acc)[i] == Row(table, table, TypeName(root));
  }

  /** Walk one table's root and emit its rows. */
  method ScanTable(table: string, root: Json) returns (rows: seq<Row>)
    ensures rows == Scan(table, root)
  {
    var paths := new PathTypes();
    paths.Walk(table, root);
    rows := EmitRows(table, paths.acc);
  }

  // ---------------------------------------------------------------------
  // process_file
  // ---------------------------------------------------------------------

  /** Payload keys holding a list of records, and the table of those
      records, in dictionary order. */
  const ArrayRootHints: seq<(string, string)> := [
    ("artists", "artists"),
    ("release-groups", "release_groups"),
    ("releases", "releases"),
    ("recordings", "recordings"),
    ("works", "works"),
    ("labels", "labels")
  ]

  /** `k in data and isinstance(data[k], list)` for an object `data`. */
  predicate HoldsList(data: Json, k: string) {
    Has(data, k) && Get(data, k).JArr?
  }

  /** The tables a hint list announces for `data`. */
  function HintedTables(hints: seq<(string, string)>, data: Json): set<string> {
    set i | 0 <= i < |hints| && data.JObj? && HoldsList(data, hints[i].0) :: hints[i].1
  }

  /** `tables_to_scan`: the file's own table and every hinted table. */
  function TablesToScan(base: Option<string>, data: Json): set<string> {
    (if base.Some? then {base.value} else {}) + HintedTables(ArrayRootHints, data)
  }

  /** One more hint adds its table when its key holds a list. */
  lemma HintedSnoc(hints: seq<(string, string)>, data: Json, i: nat)
    requires i < |hints|
    ensures HintedTables(hints[..i + 1], data) ==
      HintedTables(hints[..i], data) + (if data.JObj? && HoldsList(data, hints[i].0) then {hints[i].1} else {})
  {
    var a := hints[..i];
    var b := hints[..i + 1];
    assert forall j :: 0 <= j < i ==> b[j] == a[j];
    forall x | x in HintedTables(b, data)
      ensures x in HintedTables(a, data) + (if data.JObj? && HoldsList(data, hints[i].0) then {hints[i].1} else {})
    {
      var j :| 0 <= j < |b| && data.JObj? && HoldsList(data, b[j].0) && b[j].1 == x;
      if j < i { assert a[j] == b[j]; }
    }
  }

  method ScanTables(base: Option<string>, data: Json) returns (tables: set<string>)
    ensures tables == TablesToScan(base, data)
  {
    var hints := ArrayRootHints;
    tables := if base.Some? then {base.value} else {};
    ghost var start := tables;
    if data.JObj? {
      for i := 0 to |hints|
        invariant tables == start + HintedTables(hints[..i], data)
      {
        HintedSnoc(hints, data, i);
        if HoldsList(data, hints[i].0) {
          tables := tables + {hints[i].1};
        }
      }
      assert hints[..|hints|] == hints;
    }
  }

  /** The records of a list value: its first element, or `{}` when it is
      empty. */
  function FirstOrEmpty(list: Json): Json {
    if |Items(list)| > 0 then Items(list)[0] else JObj([])
  }

  /** Hint `i` names `tbl` and its key holds a list. */
  predicate HintMatches(hints: seq<(string, string)>, data: Json, tbl: string, i: int)
    requires 0 <= i < |hints|
  {
    hints[i].1 == tbl && HoldsList(data, hints[i].0)
  }

  /** A list's first record as a root: `None` stands for Python's `None`,
      which makes the table be skipped. */
  function AsRoot(first: Json): Option<Json> {
    if first == JNull then None else Some(first)
  }

  /** The first hint naming `tbl` whose key holds a list yields that list's
      first record, or nothing when that record is null; no later hint is
      tried. */
  function HintRoot(hints: seq<(string, string)>, data: Json, tbl: string): (r: Option<Json>)
    ensures (forall i :: 0 <= i < |hints| ==> !HintMatches(hints, data, tbl, i)) ==> r.None?
    ensures forall i :: (0 <= i < |hints| && HintMatches(hints, data, tbl, i) &&
                         (forall j :: 0 <= j < i ==> !HintMatches(hints, data, tbl, j))) ==>
      r == AsRoot(FirstOrEmpty(Get(data, hints[i].0)))
    ensures r.Some? ==> r.value != JNull
    decreases |hints|
  {
    if |hints| == 0 then None
    else if HintMatches(hints, data, tbl, 0) then AsRoot(FirstOrEmpty(Get(data, hints[0].0)))
    else
      var r := HintRoot(hints[1..], data, tbl);
      assert forall i :: 0 < i < |hints| ==> hints[i] == hints[1..][i - 1];
      assert forall k :: 0 <= k < |hints| - 1 ==>
        HintMatches(hints[1..], data, tbl, k) == HintMatches(hints, data, tbl, k + 1);
      r
  }

  /** The record a table's walk starts from: the payload itself when it is
      the file's own table and carries a truthy id, else the first record
      under its hint unless that record is null; none otherwise. */
  function RootFor(base: Option<string>, data: Json, tbl: string): (r: Option<Json>)
    ensures r.Some? <==>
      (base == Some(tbl) && data.JObj? && Truthy(Get(data, "id"))) ||
      (data.JObj? && exists i :: (0 <= i < |ArrayRootHints| && ArrayRootHints[i].1 == tbl &&
                                  HoldsList(data, ArrayRootHints[i].0) &&
                                  FirstOrEmpty(Get(data, ArrayRootHints[i].0)) != JNull))
    ensures r.Some? ==> r.value != JNull
    ensures r.Some? && !(base == Some(tbl) && data.JObj? && Truthy(Get(data, "id"))) ==>
      exists i :: 0 <= i < |ArrayRootHints| && ArrayRootHints[i].1 == tbl &&
        HoldsList(data, ArrayRootHints[i].0) && r.value == FirstOrEmpty(Get(data, ArrayRootHints[i].0))
  {
    if base == Some(tbl) && data.JObj? && Truthy(Get(data, "id")) then Some(data)
    else if data.JObj? then
      var r := HintRoot(ArrayRootHints, data, tbl);
      HintTablesDistinct();
      r
    else None
  }

  /** No two hints name the same table, so the hint for a table is the
      first one naming it. */
  lemma HintTablesDistinct()
    ensures forall i, j :: 0 <= j < i < |ArrayRootHints| ==> ArrayRootHints[j].1 != ArrayRootHints[i].1
  {
  }

  /** The root selection of `process_file`, with its early `break`. */
  method RootOf(base: Option<string>, data: Json, tbl: string) returns (root: Option<Json>)
    ensures root == RootFor(base, data, tbl)
  {
    root := None;
    if base == Some(tbl) && data.JObj? && Truthy(Get(data, "id")) {
      root := Some(data);
    } else if data.JObj? {
      var hints := ArrayRootHints;
      for i := 0 to |hints|
        invariant HintRoot(hints, data, tbl) == HintRoot(hints[i..], data, tbl)
      {
        assert hints[i..][1..] == hints[i + 1..];
        if hints[i].1 == tbl && HoldsList(data, hints[i].0) {
          var first := FirstOrEmpty(Get(data, hints[i].0));
          root := if first == JNull then None else Some(first);
          break;
        }
      }
    }
  }

  /** A scanned table is skipped exactly when it is not the file's own
      table with a truthy id and either it is the file's own table with no
      list for it, or the first record of its hinted list is null. */
  lemma ScannedHasRoot(base: Option<string>, data: Json, tbl: string)
    requires tbl in TablesToScan(base, data)
    ensures RootFor(base, data, tbl).None? <==>
      !(base == Some(tbl) && data.JObj? && Truthy(Get(data, "id"))) &&
      ((base == Some(tbl) && tbl !in HintedTables(ArrayRootHints, data)) ||
       (exists i :: 0 <= i < |ArrayRootHints| && ArrayRootHints[i].1 == tbl &&
         HoldsList(data, ArrayRootHints[i].0) && FirstOrEmpty(Get(data, ArrayRootHints[i].0)) == JNull))
  {
    var r := RootFor(base, data, tbl);
    if tbl in HintedTables(ArrayRootHints, data) {
      var i :| 0 <= i < |ArrayRootHints| && data.JObj? && HoldsList(data, ArrayRootHints[i].0) && ArrayRootHints[i].1 == tbl;
      HintTablesDistinct();
      assert HintMatches(ArrayRootHints, data, tbl, i);
      assert !(base == Some(tbl) && Truthy(Get(data, "id"))) ==>
        r == AsRoot(FirstOrEmpty(Get(data, ArrayRootHints[i].0)));
    } else {
      assert forall i :: 0 <= i < |ArrayRootHints| && data.JObj? ==> !HintMatches(ArrayRootHints, data, tbl, i);
    }
  }

  /** What `process_file` raises: `.get` on a value that is not an object,
      and indexing that value's tracks with `[0]`. */
  datatype Raised = AttributeError | KeyError | TypeError

  /** The rows of one file, per table. */
  type Tables = map<string, seq<Row>>

  /** A truthy `tracks` value that `[0]` cannot index: an object (JSON keys
      are strings, so `0` is never one), a number or a bool. */
  predicate TracksUnindexable(tracks: Json) {
    Truthy(tracks) && (tracks.JObj? || tracks.JInt? || tracks.JFloat? || tracks.JBool?)
  }

  /** `tracks[0]` for a non-empty list or string: the first element, or the
      one-character string. */
  function FirstTrackOf(tracks: Json): Json
    requires Truthy(tracks) && (tracks.JArr? || tracks.JStr?)
  {
    if tracks.JArr? then tracks.items[0] else JStr([tracks.s[0]])
  }

  /** `media[0]["tracks"][0]` once `media[0].get("tracks")` is truthy: a
      list's first element, a string's first character; an object has no
      key `0` and a number cannot be indexed. */
  function FirstTrack(tracks: Json): Result<Json, Raised>
    requires Truthy(tracks)
  {
    match tracks
    case JArr(_) => Success(FirstTrackOf(tracks))
    case JStr(_) => Success(FirstTrackOf(tracks))
    case JObj(_) => Failure(KeyError)
    case _ => Failure(TypeError)
  }

  /** The `artist_aliases` rows of an artist record: the walk of its first
      alias. */
  function AliasRows(root: Json): (r: Result<Tables, Raised>)
    ensures r.Failure? <==> !root.JObj?
    ensures r.Success? ==> r.value.Keys <= {"artist_aliases"}
    ensures var aliases := Get(root, "aliases");
      r.Success? ==> ("artist_aliases" in r.value <==> aliases.JArr? && |aliases.items| > 0)
    ensures var aliases := Get(root, "aliases");
      r.Success? && aliases.JArr? && |aliases.items| > 0 ==>
        "artist_aliases" in r.value && r.value["artist_aliases"] == Scan("artist_aliases", aliases.items[0])
  {
    if !root.JObj? then Failure(AttributeError)
    else match Get(root, "aliases")
      case JArr(xs) =>
        if |xs| > 0 then Success(map["artist_aliases" := Scan("artist_aliases", xs[0])])
        else Success(map[])
      case _ => Success(map[])
  }

  /** The `tracks` rows of a release record: the walk of the first track of
      its first medium. */
  function TrackRows(root: Json): (r: Result<Tables, Raised>)
    ensures !root.JObj? ==> r == Failure(AttributeError)
    ensures var media := Get(root, "media");
      r.Failure? <==>
        !root.JObj? ||
        (media.JArr? && |media.items| > 0 &&
         (!media.items[0].JObj? || TracksUnindexable(Get(media.items[0], "tracks"))))
    ensures r.Success? ==> r.value.Keys <= {"tracks"}
    ensures var media := Get(root, "media");
      r.Success? ==>
        ("tracks" in r.value <==> media.JArr? && |media.items| > 0 && Truthy(Get(media.items[0], "tracks")))
    ensures var media := Get(root, "media");
      r.Success? && media.JArr? && |media.items| > 0 && Truthy(Get(media.items[0], "tracks")) ==>
        "tracks" in r.value && r.value["tracks"] == Scan("tracks", FirstTrackOf(Get(media.items[0], "tracks")))
  {
    if !root.JObj? then Failure(AttributeError)
    else match Get(root, "media")
      case JArr(media) =>
        if |media| == 0 then Success(map[])
        else if !media[0].JObj? then Failure(AttributeError)
        else if !Truthy(Get(media[0], "tracks")) then Success(map[])
        else (match FirstTrack(Get(media[0], "tracks"))
          case Success(t) => Success(map["tracks" := Scan("tracks", t)])
          case Failure(e) => Failure(e))
      case _ => Success(map[])
  }

  /** What one table adds to `results`, or the error its scan raises. */
  function Contribution(base: Option<string>, data: Json, tbl: string): Result<Tables, Raised> {
    match RootFor(base, data, tbl)
    case None => Success(map[])
    case Some(root) =>
      var own := map[tbl := Scan(tbl, root)];
      if tbl == "artists" then
        (match AliasRows(root)
         case Success(m) => Success(own + m)
         case Failure(e) => Failure(e))
      else if tbl == "releases" then
        (match TrackRows(root)
         case Success(m) => Success(own + m)
         case Failure(e) => Failure(e))
      else Success(own)
  }

  /** The keys a table's scan writes besides its own. */
  function Derived(tbl: string): set<string> {
    if tbl == "artists" then {"artist_aliases"}
    else if tbl == "releases" then {"tracks"}
    else {}
  }

  /** The table whose scan writes key `k`. */
  function Owner(k: string): string {
    if k == "artist_aliases" then "artists"
    else if k == "tracks" then "releases"
    else k
  }

  /** A table contributes its own rows exactly when it has a root, and
      besides them only its derived keys. */
  lemma ContributionKeys(base: Option<string>, data: Json, tbl: string)
    requires Contribution(base, data, tbl).Success?
    ensures Contribution(base, data, tbl).value.Keys <= {tbl} + Derived(tbl)
    ensures tbl !in Derived(tbl) ==>
      (tbl in Contribution(base, data, tbl).value <==> RootFor(base, data, tbl).Some?)
    ensures RootFor(base, data, tbl).Some? && tbl !in Derived(tbl) ==>
      Contribution(base, data, tbl).value[tbl] == Scan(tbl, RootFor(base, data, tbl).value)
  {
    var c := Contribution(base, data, tbl).value;
    match RootFor(base, data, tbl)
    case None =>
      assert c == map[];
    case Some(root) =>
      if tbl == "artists" {
        assert c == map[tbl := Scan(tbl, root)] + AliasRows(root).value;
      } else if tbl == "releases" {
        assert c == map[tbl := Scan(tbl, root)] + TrackRows(root).value;
      } else {
        assert c == map[tbl := Scan(tbl, root)];
      }
  }

  /** A table whose hinted list starts with a null record, and that is not
      the file's own table with a truthy id, is skipped: it contributes
      nothing and raises nothing. */
  lemma NullFirstRecordSkipped(base: Option<string>, data: Json, tbl: string, i: int)
    requires 0 <= i < |ArrayRootHints| && ArrayRootHints[i].1 == tbl
    requires HoldsList(data, ArrayRootHints[i].0) && FirstOrEmpty(Get(data, ArrayRootHints[i].0)) == JNull
    requires !(base == Some(tbl) && data.JObj? && Truthy(Get(data, "id")))
    ensures Contribution(base, data, tbl) == Success(map[])
  {
    HintTablesDistinct();
    assert RootFor(base, data, tbl).None?;
  }

  /** Every key a table contributes is owned by that table. */
  lemma ContributionOwned(base: Option<string>, data: Json, tbl: string)
    requires tbl != "artist_aliases" && tbl != "tracks"
    requires Contribution(base, data, tbl).Success?
    ensures forall k :: k in Contribution(base, data, tbl).value ==>
      Owner(k) == tbl && k in {tbl, "artist_aliases", "tracks"}
  {
    var c := Contribution(base, data, tbl).value;
    ContributionKeys(base, data, tbl);
    forall k | k in c ensures Owner(k) == tbl && k in {tbl, "artist_aliases", "tracks"} {
      assert k in {tbl} + Derived(tbl);
    }
  }

  /** The tables scanned are never the two derived tables. */
  lemma ScannedNotDerived(fn: string, data: Json)
    ensures forall t :: t in TablesToScan(FirstPattern(Patterns, fn), data) ==>
      t != "artist_aliases" && t != "tracks"
  {
    InferredTables(fn);
  }

  /** A table's rows per key, or the error its scan raises. */
  type Contributions = string -> Result<Tables, Raised>

  /** Every key a table in `scan` contributes is owned by that table, and
      is the table's own key or one of the `extra` keys. */
  predicate Owned(contrib: Contributions, owner: string -> string, extra: set<string>, scan: set<string>) {
    forall u, k :: u in scan && contrib(u).Success? && k in contrib(u).value ==>
      owner(k) == u && (k == u || k in extra)
  }

  /** The keys `results` holds once the tables in `done` are scanned: each
      read from the contribution of its owner, the owner of every key being
      a table or one of the `extra` keys. */
  function MergedBy(contrib: Contributions, owner: string -> string, extra: set<string>, done: set<string>): Tables
    requires forall t :: t in done ==> contrib(t).Success?
  {
    map k | k in done + extra && owner(k) in done && k in contrib(owner(k)).value
      :: contrib(owner(k)).value[k]
  }

  /** Scanning one more table adds exactly its contribution. */
  lemma MergedAdd(contrib: Contributions, owner: string -> string, extra: set<string>,
                  scan: set<string>, done: set<string>, t: string)
    requires forall u :: u in done ==> contrib(u).Success?
    requires t !in done && contrib(t).Success?
    requires Owned(contrib, owner, extra, scan) && done + {t} <= scan
    ensures MergedBy(contrib, owner, extra, done + {t}) == MergedBy(contrib, owner, extra, done) + contrib(t).value
  {
    var c := contrib(t).value;
    var l := MergedBy(contrib, owner, extra, done + {t});
    var r := MergedBy(contrib, owner, extra, done) + c;
    forall k | k in c ensures k in l && l[k] == c[k] {
      assert owner(k) == t;
    }
    assert l.Keys == r.Keys;
  }

  /** The derived keys, written by the `artists` and `releases` scans. */
  const Extra: set<string> := {"artist_aliases", "tracks"}

  /** The result of scanning `scan`: `None` as soon as one table raises. */
  function ScannedAll(contrib: Contributions, owner: string -> string, extra: set<string>, scan: set<string>): Option<Tables> {
    if exists t :: t in scan && contrib(t).Failure? then None
    else Some(MergedBy(contrib, owner, extra, scan))
  }

  function ContributionOf(base: Option<string>, data: Json): Contributions {
    t => Contribution(base, data, t)
  }

  /** The tables scanned contribute only keys they own. */
  lemma ScannedOwned(fn: string, data: Json)
    ensures var base := FirstPattern(Patterns, fn);
      Owned(ContributionOf(base, data), Owner, Extra, TablesToScan(base, data))
  {
    var base := FirstPattern(Patterns, fn);
    ScannedNotDerived(fn, data);
    forall t | t in TablesToScan(base, data) && Contribution(base, data, t).Success?
      ensures forall k :: k in Contribution(base, data, t).value ==> Owner(k) == t && (k == t || k in Extra)
    {
      ContributionOwned(base, data, t);
    }
  }

  /** `process_file(path)` on a decoded payload: the rows per table, or
      `None` when a scan raises (the caller then skips the file). */
  function FileTables(fn: string, data: Json): Option<Tables> {
    var base := FirstPattern(Patterns, fn);
    ScannedAll(ContributionOf(base, data), Owner, Extra, TablesToScan(base, data))
  }

  /** One table's pass of the `process_file` loop. */
  method Contribute(base: Option<string>, data: Json, tbl: string) returns (c: Result<Tables, Raised>)
    ensures c == Contribution(base, data, tbl)
  {
    var root := RootOf(base, data, tbl);
    if root.None? {
      return Success(map[]);
    }
    var rows := ScanTable(tbl, root.value);
    var results := map[tbl := rows];
    if tbl == "artists" {
      var extra := AliasRows(root.value);
      if extra.Failure? {
        return Failure(extra.error);
      }
      results := results + extra.value;
    } else if tbl == "releases" {
      var extra := TrackRows(root.value);
      if extra.Failure? {
        return Failure(extra.error);
      }
      results := results + extra.value;
    }
    return Success(results);
  }

  /** The loop of `process_file` over a set of tables, taken in whatever
      order the set yields them. */
  method ScanAll(base: Option<string>, data: Json, scan: set<string>,
                 ghost contrib: Contributions, ghost owner: string -> string, ghost extra: set<string>)
    returns (r: Option<Tables>)
    requires forall t :: contrib(t) == Contribution(base, data, t)
    requires Owned(contrib, owner, extra, scan)
    ensures r == ScannedAll(contrib, owner, extra, scan)
  {
    var results: Tables := map[];
    var todo := scan;
    while todo != {}
      invariant todo <= scan
      invariant forall t :: t in scan - todo ==> contrib(t).Success?
      invariant results == MergedBy(contrib, owner, extra, scan - todo)
      decreases |todo|
    {
      var t :| t in todo;
      var c := Contribute(base, data, t);
      if c.Failure? {
        assert contrib(t).Failure?;
        return None;
      }
      ghost var done := scan - todo;
      assert done + {t} <= scan;
      MergedAdd(contrib, owner, extra, scan, done, t);
      assert scan - (todo - {t}) == done + {t};
      results := results + c.value;
      todo := todo - {t};
    }
    assert scan - todo == scan;
    return Some(results);
  }

  /** `process_file`. */
  method ProcessFile(fn: string, data: Json) returns (r: Option<Tables>)
    ensures r == FileTables(fn, data)
  {
    var base := InferTable(fn);
    var scan := ScanTables(base, data);
    ScannedOwned(fn, data);
    assert forall t :: ContributionOf(base, data)(t) == Contribution(base, data, t);
    r := ScanAll(base, data, scan, ContributionOf(base, data), Owner, Extra);
  }

  /** With every table clean, each scanned table's own key holds exactly
      what its contribution gives it. */
  lemma ScannedAllOwnKey(contrib: Contributions, owner: string -> string, extra: set<string>, scan: set<string>, t: string)
    requires ScannedAll(contrib, owner, extra, scan).Some? && t in scan && owner(t) == t
    ensures contrib(t).Success?
    ensures t in ScannedAll(contrib, owner, extra, scan).value <==> t in contrib(t).value
    ensures t in contrib(t).value ==> ScannedAll(contrib, owner, extra, scan).value[t] == contrib(t).value[t]
  {
  }

  /** Every scanned table with a root has its own rows in the file's
      result, and a table without one adds nothing. */
  lemma FileTablesOwnRows(fn: string, data: Json, t: string)
    requires FileTables(fn, data).Some?
    requires t in TablesToScan(FirstPattern(Patterns, fn), data)
    ensures var base := FirstPattern(Patterns, fn);
      match RootFor(base, data, t)
      case Some(root) => t in FileTables(fn, data).value && FileTables(fn, data).value[t] == Scan(t, root)
      case None => t !in FileTables(fn, data).value
  {
    var base := FirstPattern(Patterns, fn);
    ScannedNotDerived(fn, data);
    ScannedAllOwnKey(ContributionOf(base, data), Owner, Extra, TablesToScan(base, data), t);
    ContributionKeys(base, data, t);
    assert ContributionOf(base, data)(t) == Contribution(base, data, t);
  }

  /** With every table clean, a derived key is in the result exactly when
      its owner was scanned and wrote it, with the owner's rows. */
  lemma ScannedAllDerivedKey(contrib: Contributions, owner: string -> string, extra: set<string>, scan: set<string>, k: string)
    requires ScannedAll(contrib, owner, extra, scan).Some? && k in extra
    ensures owner(k) in scan ==> contrib(owner(k)).Success?
    ensures k in ScannedAll(contrib, owner, extra, scan).value <==>
      owner(k) in scan && contrib(owner(k)).Success? && k in contrib(owner(k)).value
    ensures k in ScannedAll(contrib, owner, extra, scan).value ==>
      contrib(owner(k)).Success? && k in contrib(owner(k)).value &&
      ScannedAll(contrib, owner, extra, scan).value[k] == contrib(owner(k)).value[k]
  {
  }

  /** The `artist_aliases` entry of `process_file`'s result: the walk of the
      first alias of the scanned `artists` root, and absent when that root
      has no non-empty `aliases` list. */
  lemma FileTablesAliasRows(fn: string, data: Json)
    requires FileTables(fn, data).Some?
    ensures var base := FirstPattern(Patterns, fn);
      var root := RootFor(base, data, "artists");
      var aliased := "artists" in TablesToScan(base, data) && root.Some? && root.value.JObj? &&
        Get(root.value, "aliases").JArr? && |Get(root.value, "aliases").items| > 0;
      ("artist_aliases" in FileTables(fn, data).value <==> aliased) &&
      (aliased ==> FileTables(fn, data).value["artist_aliases"] ==
                   Scan("artist_aliases", Get(root.value, "aliases").items[0]))
  {
    var base := FirstPattern(Patterns, fn);
    var scan := TablesToScan(base, data);
    var contrib := ContributionOf(base, data);
    ScannedAllDerivedKey(contrib, Owner, Extra, scan, "artist_aliases");
    if "artists" in scan {
      assert contrib("artists") == Contribution(base, data, "artists");
      match RootFor(base, data, "artists")
      case None =>
      case Some(root) =>
        var own := map["artists" := Scan("artists", root)];
        assert Contribution(base, data, "artists").value == own + AliasRows(root).value;
    }
  }

  /** The `tracks` entry of `process_file`'s result: the walk of the first
      track of the first medium of the scanned `releases` root, and absent
      when that medium has no truthy `tracks`. */
  lemma FileTablesTrackRows(fn: string, data: Json)
    requires FileTables(fn, data).Some?
    ensures var base := FirstPattern(Patterns, fn);
      var root := RootFor(base, data, "releases");
      var tracked := "releases" in TablesToScan(base, data) && root.Some? && root.value.JObj? &&
        Get(root.value, "media").JArr? && |Get(root.value, "media").items| > 0 &&
        Truthy(Get(Get(root.value, "media").items[0], "tracks"));
      ("tracks" in FileTables(fn, data).value <==> tracked) &&
      (tracked ==>
        var tracks := Get(Get(root.value, "media").items[0], "tracks");
        (tracks.JArr? || tracks.JStr?) &&
        FileTables(fn, data).value["tracks"] == Scan("tracks", FirstTrackOf(tracks)))
  {
    var base := FirstPattern(Patterns, fn);
    var scan := TablesToScan(base, data);
    var contrib := ContributionOf(base, data);
    ScannedAllDerivedKey(contrib, Owner, Extra, scan, "tracks");
    if "releases" in scan {
      assert contrib("releases") == Contribution(base, data, "releases");
      match RootFor(base, data, "releases")
      case None =>
      case Some(root) =>
        var own := map["releases" := Scan("releases", root)];
        assert Contribution(base, data, "releases").value == own + TrackRows(root).value;
    }
  }

  /** A scanned `artists` table whose root is not an object makes the file
      be skipped; a null first record is no root, so it is not among these. */
  lemma ArtistRootNotObject(fn: string, data: Json)
    requires "artists" in TablesToScan(FirstPattern(Patterns, fn), data)
    requires var root := RootFor(FirstPattern(Patterns, fn), data, "artists"); root.Some? && !root.value.JObj?
    ensures FileTables(fn, data).None?
  {
    assert Contribution(FirstPattern(Patterns, fn), data, "artists").Failure?;
  }
}
