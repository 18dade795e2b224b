/**
 Indexing a catalog snapshot (`ParseCatalogContents` in src/vgi_catalog_api.cpp): schema rows first,
 then the rows of the other categories, each filed under the schema its path names, compared without
 regard to case.
 */
module CatalogContents {
  import opened Options

  type Path = seq<string>

  /** A row of a category's stream: its schema path, null components included, and its type column. */
  datatype Row = Row(id: nat, path: seq<Option<string>>, typeName: Option<string>)

  datatype Entry = Entry(category: string, row: Row)

  /** The categories, in the order they are read. */
  datatype Snapshot = Snapshot(
    schemas: seq<Row>, tables: seq<Row>, views: seq<Row>, functions: seq<Row>, macros: seq<Row>, indexes: seq<Row>)

  /** How StringUtil::Lower and StringUtil::Upper map text. */
  datatype Casing = Casing(lower: string -> string, upper: string -> string)

  datatype Schema = Schema(name: string, path: Path, row: nat, items: map<string, seq<nat>>)

  function Tagged(category: string, rows: seq<Row>): seq<Entry> {
    seq(|rows|, i requires 0 <= i < |rows| => Entry(category, rows[i]))
  }

  /** Every row in the order the loops visit them. */
  function Entries(s: Snapshot): seq<Entry> {
    Tagged("schemas", s.schemas) + Tagged("tables", s.tables) + Tagged("views", s.views) +
    Tagged("functions", s.functions) + Tagged("macros", s.macros) + Tagged("indexes", s.indexes)
  }

  // ---------------------------------------------------------------------------------------------
  // What a row says
  // ---------------------------------------------------------------------------------------------

  predicate PathOk(path: seq<Option<string>>) {
    path != [] && forall i :: 0 <= i < |path| ==> path[i].Some? && path[i].value != ""
  }

  function Components(path: seq<Option<string>>): Path
    requires PathOk(path)
  {
    seq(|path|, i requires 0 <= i < |path| => path[i].value)
  }

  /** The path as it is looked up. */
  function Key(cs: Casing, path: seq<Option<string>>): Path
    requires PathOk(path)
  {
    seq(|path|, i requires 0 <= i < |path| => cs.lower(path[i].value))
  }

  /** The kind an item is filed under; `None` if its type column is missing or unknown. */
  function KindOf(cs: Casing, e: Entry): Option<string> {
    if e.category == "functions" then
      match e.row.typeName
      case None => None
      case Some(t) =>
        if t == "SCALAR" then Some("SCALAR_FUNCTION")
        else if t == "AGGREGATE" then Some("AGGREGATE_FUNCTION")
        else if t == "TABLE" || t == "TABLE_BUFFERING" then Some("TABLE_FUNCTION")
        else None
    else if e.category == "macros" then
      match e.row.typeName
      case None => None
      case Some(t) => if cs.upper(t) == "SCALAR" || cs.upper(t) == "TABLE" then Some(cs.upper(t) + "_MACRO") else None
    else Some(e.category)
  }

  predicate IsSchema(e: Entry) {
    e.category == "schemas"
  }

  // ---------------------------------------------------------------------------------------------
  // The reference
  // ---------------------------------------------------------------------------------------------

  /** The keys of the schema rows, in order. */
  function SchemaKeys(cs: Casing, es: seq<Entry>): seq<Path> {
    if es == [] then []
    else
      var e := es[|es| - 1];
      SchemaKeys(cs, es[..|es| - 1]) + if IsSchema(e) && PathOk(e.row.path) then [Key(cs, e.row.path)] else []
  }

  /** The schema rows themselves. */
  function SchemaRows(es: seq<Entry>): seq<Row> {
    if es == [] then []
    else
      var e := es[|es| - 1];
      SchemaRows(es[..|es| - 1]) + if IsSchema(e) && PathOk(e.row.path) then [e.row] else []
  }

  /** The items whose path names `key`, of kind `kind`, in order of arrival. */
  function Filed(cs: Casing, es: seq<Entry>, key: Path, kind: string): seq<nat> {
    if es == [] then []
    else
      var e := es[|es| - 1];
      Filed(cs, es[..|es| - 1], key, kind) +
      if !IsSchema(e) && PathOk(e.row.path) && Key(cs, e.row.path) == key && KindOf(cs, e) == Some(kind) then [e.row.id] else []
  }

  /** A row is acceptable after the rows before it. */
  predicate EntryOk(cs: Casing, before: seq<Entry>, e: Entry) {
    PathOk(e.row.path) &&
    var key := Key(cs, e.row.path);
    if IsSchema(e) then
      key !in SchemaKeys(cs, before) && (|key| > 1 ==> key[..|key| - 1] in SchemaKeys(cs, before)) && |e.row.path| == 1
    else key in SchemaKeys(cs, before) && KindOf(cs, e).Some?
  }

  predicate AcceptedAt(cs: Casing, es: seq<Entry>, n: nat)
    requires n < |es|
  {
    EntryOk(cs, es[..n], es[n])
  }

  predicate Accepted(cs: Casing, es: seq<Entry>) {
    forall n :: 0 <= n < |es| ==> AcceptedAt(cs, es, n)
  }

  function ItemsOf(s: Schema, kind: string): seq<nat> {
    if kind in s.items then s.items[kind] else []
  }

  predicate Describes(s: Schema, row: Row) {
    PathOk(row.path) && s.row == row.id && s.path == Components(row.path) && s.name == s.path[0]
  }

  /** The index says where each schema is, and each schema has its row and the items filed under it. */
  ghost predicate Indexed(cs: Casing, es: seq<Entry>, index: map<Path, nat>, schemas: seq<Schema>) {
    var keys := SchemaKeys(cs, es);
    |schemas| == |keys| == |SchemaRows(es)| &&
    (forall i :: 0 <= i < |schemas| ==> Describes(schemas[i], SchemaRows(es)[i])) &&
    (forall i :: 0 <= i < |keys| ==> keys[i] in index && index[keys[i]] == i) &&
    (forall k :: k in index ==> index[k] < |keys| && keys[index[k]] == k) &&
    forall i, kind :: 0 <= i < |keys| ==> ItemsOf(schemas[i], kind) == Filed(cs, es, keys[i], kind)
  }

  lemma {:induction false} FiledNowhere(cs: Casing, es: seq<Entry>, key: Path, kind: string)
    requires Accepted(cs, es) && key !in SchemaKeys(cs, es)
    ensures Filed(cs, es, key, kind) == []
  {
    if es != [] {
      var n := |es| - 1;
      AcceptedPrefix(cs, es, n);
      FiledNowhere(cs, es[..n], key, kind);
      assert AcceptedAt(cs, es, n);
    }
  }

  lemma {:induction false} AcceptedPrefix(cs: Casing, es: seq<Entry>, n: nat)
    requires Accepted(cs, es) && n <= |es|
    ensures Accepted(cs, es[..n])
  {
    forall m | 0 <= m < n ensures AcceptedAt(cs, es[..n], m) {
      assert es[..n][..m] == es[..m] && AcceptedAt(cs, es, m);
    }
  }

  lemma {:induction false} AcceptedNext(cs: Casing, es: seq<Entry>, n: nat)
    requires n < |es| && Accepted(cs, es[..n]) && AcceptedAt(cs, es, n)
    ensures Accepted(cs, es[..n + 1])
  {
    var all := es[..n + 1];
    forall m | 0 <= m < |all| ensures AcceptedAt(cs, all, m) {
      assert all[..m] == es[..m];
      if m < n { assert es[..n][..m] == es[..m] && AcceptedAt(cs, es[..n], m); }
    }
  }

  // ---------------------------------------------------------------------------------------------
  // Parsing
  // ---------------------------------------------------------------------------------------------

  predicate FiledHere(cs: Casing, e: Entry, key: Path, kind: string) {
    !IsSchema(e) && PathOk(e.row.path) && Key(cs, e.row.path) == key && KindOf(cs, e) == Some(kind)
  }

  lemma {:induction false} FiledNext(cs: Casing, es: seq<Entry>, n: nat, key: Path, kind: string)
    requires n < |es|
    ensures Filed(cs, es[..n + 1], key, kind) ==
      Filed(cs, es[..n], key, kind) + if FiledHere(cs, es[n], key, kind) then [es[n].row.id] else []
  {
    assert es[..n + 1][..n] == es[..n] && es[..n + 1][n] == es[n];
  }

  lemma {:induction false} KeysNext(cs: Casing, es: seq<Entry>, n: nat)
    requires n < |es|
    ensures SchemaKeys(cs, es[..n + 1]) ==
      SchemaKeys(cs, es[..n]) + if IsSchema(es[n]) && PathOk(es[n].row.path) then [Key(cs, es[n].row.path)] else []
    ensures SchemaRows(es[..n + 1]) ==
      SchemaRows(es[..n]) + if IsSchema(es[n]) && PathOk(es[n].row.path) then [es[n].row] else []
  {
    assert es[..n + 1][..n] == es[..n] && es[..n + 1][n] == es[n];
  }

  /** A schema row adds a schema without items. */
  lemma {:induction false} SchemaIndexed(cs: Casing, es: seq<Entry>, n: nat, index: map<Path, nat>,
                                         schemas: seq<Schema>, added: Schema)
    requires n < |es| && Accepted(cs, es[..n]) && AcceptedAt(cs, es, n) && IsSchema(es[n])
    requires Indexed(cs, es[..n], index, schemas) && added.items == map[] && Describes(added, es[n].row)
    ensures Indexed(cs, es[..n + 1], index[Key(cs, es[n].row.path) := |schemas|], schemas + [added])
  {
    KeysNext(cs, es, n);
    var key := Key(cs, es[n].row.path);
    var keys, all := SchemaKeys(cs, es[..n + 1]), schemas + [added];
    forall i, kind | 0 <= i < |keys| ensures ItemsOf(all[i], kind) == Filed(cs, es[..n + 1], keys[i], kind) {
      FiledNext(cs, es, n, keys[i], kind);
      if i == |schemas| { FiledNowhere(cs, es[..n], key, kind); }
    }
  }

  /** Any other row adds one item, to the schema of its path. */
  lemma {:induction false} ItemIndexed(cs: Casing, es: seq<Entry>, n: nat, index: map<Path, nat>,
                                       schemas: seq<Schema>, changed: Schema)
    requires n < |es| && AcceptedAt(cs, es, n) && !IsSchema(es[n]) && Indexed(cs, es[..n], index, schemas)
    requires
      var i, kind := index[Key(cs, es[n].row.path)], KindOf(cs, es[n]).value;
      changed == schemas[i].(items := schemas[i].items[kind := ItemsOf(schemas[i], kind) + [es[n].row.id]])
    ensures Indexed(cs, es[..n + 1], index, schemas[index[Key(cs, es[n].row.path)] := changed])
  {
    KeysNext(cs, es, n);
    var keys, at := SchemaKeys(cs, es[..n]), index[Key(cs, es[n].row.path)];
    var all := schemas[at := changed];
    forall i, kind | 0 <= i < |keys| ensures ItemsOf(all[i], kind) == Filed(cs, es[..n + 1], keys[i], kind) {
      FiledNext(cs, es, n, keys[i], kind);
      assert ItemsOf(schemas[i], kind) == Filed(cs, es[..n], keys[i], kind);
    }
  }

  /** The rows, in the order the loops over categories, batches and rows visit them. */
  method ParseCatalogContents(cs: Casing, snapshot: Snapshot) returns (r: Option<seq<Schema>>)
    ensures r.Some? <==> Accepted(cs, Entries(snapshot))
    ensures r.Some? ==> exists index :: Indexed(cs, Entries(snapshot), index, r.value)
    ensures r.Some? ==> TotalItems(r.value) == ItemCount(Entries(snapshot))
  {
    var es := Entries(snapshot);
    var index: map<Path, nat>, schemas: seq<Schema> := map[], [];
    for n := 0 to |es|
      invariant Accepted(cs, es[..n]) && Indexed(cs, es[..n], index, schemas)
    {
      var e := es[n];
      if !PathOk(e.row.path) {
        assert !AcceptedAt(cs, es, n);
        return None;
      }
      var key := Key(cs, e.row.path);
      if IsSchema(e) {
        if key in index || (|key| > 1 && key[..|key| - 1] !in index) || |e.row.path| != 1 {
          assert !AcceptedAt(cs, es, n);
          return None;
        }
        var path := Components(e.row.path);
        var added := Schema(path[0], path, e.row.id, map[]);
        assert AcceptedAt(cs, es, n);
        SchemaIndexed(cs, es, n, index, schemas, added);
        index := index[key := |schemas|];
        schemas := schemas + [added];
      } else {
        if key !in index || KindOf(cs, e).None? {
          assert !AcceptedAt(cs, es, n);
          return None;
        }
        var schema, kind := schemas[index[key]], KindOf(cs, e).value;
        var changed := schema.(items := schema.items[kind := ItemsOf(schema, kind) + [e.row.id]]);
        assert AcceptedAt(cs, es, n);
        ItemIndexed(cs, es, n, index, schemas, changed);
        schemas := schemas[index[key] := changed];
      }
      AcceptedNext(cs, es, n);
    }
    assert es[..|es|] == es;
    EntriesKnown(snapshot);
    ItemsConserved(cs, es);
    TotalOfIndexed(cs, es, index, schemas, |schemas|);
    assert schemas[..|schemas|] == schemas && SchemaKeys(cs, es)[..|schemas|] == SchemaKeys(cs, es);
    r := Some(schemas);
  }

  // ---------------------------------------------------------------------------------------------
  // What an accepted snapshot is like
  // ---------------------------------------------------------------------------------------------

  /** Schema keys are all different, and have one component each. */
  lemma {:induction false} SchemaKeysUnique(cs: Casing, es: seq<Entry>)
    requires Accepted(cs, es)
    ensures forall i, j :: 0 <= i < j < |SchemaKeys(cs, es)| ==> SchemaKeys(cs, es)[i] != SchemaKeys(cs, es)[j]
    ensures forall i :: 0 <= i < |SchemaKeys(cs, es)| ==> |SchemaKeys(cs, es)[i]| == 1
  {
    if es != [] {
      var n := |es| - 1;
      AcceptedPrefix(cs, es, n);
      SchemaKeysUnique(cs, es[..n]);
      assert AcceptedAt(cs, es, n);
    }
  }

  function ItemCount(es: seq<Entry>): nat {
    if es == [] then 0 else ItemCount(es[..|es| - 1]) + if IsSchema(es[|es| - 1]) then 0 else 1
  }

  /** How many items are filed under `key`, over the given kinds. */
  function Under(cs: Casing, es: seq<Entry>, key: Path, kinds: seq<string>): nat {
    if kinds == [] then 0
    else Under(cs, es, key, kinds[..|kinds| - 1]) + |Filed(cs, es, key, kinds[|kinds| - 1])|
  }

  function UnderAll(cs: Casing, es: seq<Entry>, keys: seq<Path>, kinds: seq<string>): nat {
    if keys == [] then 0
    else UnderAll(cs, es, keys[..|keys| - 1], kinds) + Under(cs, es, keys[|keys| - 1], kinds)
  }

  /** How often `x` occurs in `s`. */
  function Times<T(==)>(s: seq<T>, x: T): nat {
    if s == [] then 0 else Times(s[..|s| - 1], x) + if s[|s| - 1] == x then 1 else 0
  }

  predicate Distinct<T(==)>(s: seq<T>) {
    forall i, j :: 0 <= i < j < |s| ==> s[i] != s[j]
  }

  lemma {:induction false} TimesInDistinct<T>(s: seq<T>, x: T)
    requires Distinct(s)
    ensures Times(s, x) == if x in s then 1 else 0
  {
    if s != [] { TimesInDistinct(s[..|s| - 1], x); }
  }

  lemma {:induction false} UnderNext(cs: Casing, es: seq<Entry>, n: nat, key: Path, kinds: seq<string>)
    requires n < |es|
    ensures Under(cs, es[..n + 1], key, kinds) ==
      Under(cs, es[..n], key, kinds) +
      if !IsSchema(es[n]) && PathOk(es[n].row.path) && Key(cs, es[n].row.path) == key && KindOf(cs, es[n]).Some?
      then Times(kinds, KindOf(cs, es[n]).value) else 0
    decreases |kinds|
  {
    if kinds != [] {
      UnderNext(cs, es, n, key, kinds[..|kinds| - 1]);
      FiledNext(cs, es, n, key, kinds[|kinds| - 1]);
    }
  }

  lemma {:induction false} UnderAllNext(cs: Casing, es: seq<Entry>, n: nat, keys: seq<Path>, kinds: seq<string>)
    requires n < |es| && AcceptedAt(cs, es, n)
    requires !IsSchema(es[n]) ==> Times(kinds, KindOf(cs, es[n]).value) == 1
    ensures UnderAll(cs, es[..n + 1], keys, kinds) ==
      UnderAll(cs, es[..n], keys, kinds) + if IsSchema(es[n]) then 0 else Times(keys, Key(cs, es[n].row.path))
    decreases |keys|
  {
    if keys != [] {
      var m := |keys| - 1;
      UnderAllNext(cs, es, n, keys[..m], kinds);
      UnderNext(cs, es, n, keys[m], kinds);
    }
  }

  lemma {:induction false} UnderNowhere(cs: Casing, es: seq<Entry>, key: Path, kinds: seq<string>)
    requires Accepted(cs, es) && key !in SchemaKeys(cs, es)
    ensures Under(cs, es, key, kinds) == 0
    decreases |kinds|
  {
    if kinds != [] {
      UnderNowhere(cs, es, key, kinds[..|kinds| - 1]);
      FiledNowhere(cs, es, key, kinds[|kinds| - 1]);
    }
  }

  const KINDS := ["tables", "views", "indexes", "SCALAR_FUNCTION", "AGGREGATE_FUNCTION", "TABLE_FUNCTION", "SCALAR_MACRO", "TABLE_MACRO"]

  predicate KnownCategory(e: Entry) {
    e.category in ["schemas", "tables", "views", "functions", "macros", "indexes"]
  }

  lemma {:induction false} KindIsKnown(cs: Casing, e: Entry)
    requires KnownCategory(e) && !IsSchema(e) && KindOf(cs, e).Some?
    ensures KindOf(cs, e).value in KINDS && Distinct(KINDS)
  {
    assert KINDS[0] == "tables" && KINDS[1] == "views" && KINDS[2] == "indexes";
    assert KINDS[3] == "SCALAR_FUNCTION" && KINDS[4] == "AGGREGATE_FUNCTION" && KINDS[5] == "TABLE_FUNCTION";
    assert KINDS[6] == "SCALAR" + "_MACRO" && KINDS[7] == "TABLE" + "_MACRO";
  }

  lemma {:induction false} SchemaConserves(cs: Casing, es: seq<Entry>, n: nat)
    requires n < |es| && Accepted(cs, es[..n]) && AcceptedAt(cs, es, n) && IsSchema(es[n])
    ensures UnderAll(cs, es[..n + 1], SchemaKeys(cs, es[..n + 1]), KINDS) == UnderAll(cs, es[..n], SchemaKeys(cs, es[..n]), KINDS)
  {
    var keys, key := SchemaKeys(cs, es[..n]), Key(cs, es[n].row.path);
    KeysNext(cs, es, n);
    UnderAllNext(cs, es, n, keys, KINDS);
    UnderNowhere(cs, es[..n], key, KINDS);
    UnderNext(cs, es, n, key, KINDS);
    assert (keys + [key])[..|keys|] == keys;
  }

  lemma {:induction false} ItemConserves(cs: Casing, es: seq<Entry>, n: nat)
    requires n < |es| && Accepted(cs, es[..n]) && AcceptedAt(cs, es, n) && !IsSchema(es[n]) && KnownCategory(es[n])
    ensures UnderAll(cs, es[..n + 1], SchemaKeys(cs, es[..n + 1]), KINDS) == UnderAll(cs, es[..n], SchemaKeys(cs, es[..n]), KINDS) + 1
  {
    var keys := SchemaKeys(cs, es[..n]);
    KeysNext(cs, es, n);
    assert SchemaKeys(cs, es[..n + 1]) == keys;
    KindIsKnown(cs, es[n]);
    TimesInDistinct(KINDS, KindOf(cs, es[n]).value);
    UnderAllNext(cs, es, n, keys, KINDS);
    SchemaKeysUnique(cs, es[..n]);
    TimesInDistinct(keys, Key(cs, es[n].row.path));
  }

  /** Every item is filed exactly once: summed over the schemas and kinds, nothing is lost or doubled. */
  lemma {:induction false} ItemsConserved(cs: Casing, es: seq<Entry>)
    requires Accepted(cs, es) && forall n :: 0 <= n < |es| ==> KnownCategory(es[n])
    ensures UnderAll(cs, es, SchemaKeys(cs, es), KINDS) == ItemCount(es)
  {
    if es != [] {
      var n := |es| - 1;
      assert es[..n + 1] == es;
      AcceptedPrefix(cs, es, n);
      assert AcceptedAt(cs, es, n);
      ItemsConserved(cs, es[..n]);
      if IsSchema(es[n]) { SchemaConserves(cs, es, n); } else { ItemConserves(cs, es, n); }
    }
  }

  /** Items of a schema, over the given kinds. */
  function ItemTotal(s: Schema, kinds: seq<string>): nat {
    if kinds == [] then 0 else ItemTotal(s, kinds[..|kinds| - 1]) + |ItemsOf(s, kinds[|kinds| - 1])|
  }

  function TotalItems(schemas: seq<Schema>): nat {
    if schemas == [] then 0 else TotalItems(schemas[..|schemas| - 1]) + ItemTotal(schemas[|schemas| - 1], KINDS)
  }

  lemma {:induction false} TotalOfSchema(cs: Casing, es: seq<Entry>, s: Schema, key: Path, kinds: seq<string>)
    requires forall kind :: ItemsOf(s, kind) == Filed(cs, es, key, kind)
    ensures ItemTotal(s, kinds) == Under(cs, es, key, kinds)
    decreases |kinds|
  {
    if kinds != [] { TotalOfSchema(cs, es, s, key, kinds[..|kinds| - 1]); }
  }

  lemma {:induction false} TotalOfIndexed(cs: Casing, es: seq<Entry>, index: map<Path, nat>, schemas: seq<Schema>,
                                          n: nat)
    requires Indexed(cs, es, index, schemas) && n <= |schemas|
    ensures TotalItems(schemas[..n]) == UnderAll(cs, es, SchemaKeys(cs, es)[..n], KINDS)
  {
    if n > 0 {
      var keys := SchemaKeys(cs, es);
      TotalOfIndexed(cs, es, index, schemas, n - 1);
      assert schemas[..n][..n - 1] == schemas[..n - 1] && keys[..n][..n - 1] == keys[..n - 1];
      TotalOfSchema(cs, es, schemas[n - 1], keys[n - 1], KINDS);
    }
  }

  lemma {:induction false} EntriesKnown(s: Snapshot)
    ensures forall n :: 0 <= n < |Entries(s)| ==> KnownCategory(Entries(s)[n])
  {
  }
}
