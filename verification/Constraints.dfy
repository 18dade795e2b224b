/**
 Native table constraints (src/vgi_constraint_contract.cpp): decoding a worker's constraint records
 against the table's Arrow schema, with the check that nullability flags say exactly what the
 NOT_NULL and PRIMARY_KEY records say.
 */
module Constraints {
  import opened Options

  /** A field of the Arrow schema: what the contract looks at. */
  datatype Field = Field(name: string, nullable: bool, isStruct: bool, metadataKeys: seq<string>, children: seq<Field>)

  type Path = seq<string>

  predicate LogicalMarker(key: string) {
    key == "ARROW:extension:name" || "vgi.logical_type." <= key
  }

  /** A struct that is not the storage of some logical type. */
  predicate OrdinaryStruct(f: Field) {
    f.isStruct && forall k :: 0 <= k < |f.metadataKeys| ==> !LogicalMarker(f.metadataKeys[k])
  }

  // ---------------------------------------------------------------------------------------------
  // Fields and their paths
  // ---------------------------------------------------------------------------------------------

  /** `ps` leads from the top level to a field through ordinary structs, not through column `skip`. */
  predicate Reaches(fields: seq<Field>, ps: seq<nat>, skip: int)
    decreases ps
  {
    ps != [] && ps[0] < |fields| && ps[0] != skip &&
    (|ps| == 1 || (OrdinaryStruct(fields[ps[0]]) && Reaches(fields[ps[0]].children, ps[1..], -1)))
  }

  function FieldAt(fields: seq<Field>, ps: seq<nat>, skip: int): Field
    requires Reaches(fields, ps, skip)
    decreases ps
  {
    if |ps| == 1 then fields[ps[0]] else FieldAt(fields[ps[0]].children, ps[1..], -1)
  }

  function PathAt(fields: seq<Field>, ps: seq<nat>, skip: int): Path
    requires Reaches(fields, ps, skip)
    decreases ps
  {
    if |ps| == 1 then [fields[ps[0]].name]
    else [fields[ps[0]].name] + PathAt(fields[ps[0]].children, ps[1..], -1)
  }

  /** One reachable field is non-nullable exactly if its path is required. */
  predicate AgreesAt(fields: seq<Field>, prefix: Path, required: set<Path>, skip: int, ps: seq<nat>)
    requires Reaches(fields, ps, skip)
  {
    FieldAt(fields, ps, skip).nullable <==> prefix + PathAt(fields, ps, skip) !in required
  }

  /** Every reachable field is non-nullable exactly if its path is required. */
  ghost predicate NullabilityAgrees(fields: seq<Field>, prefix: Path, required: set<Path>, skip: int) {
    forall ps :: Reaches(fields, ps, skip) ==> AgreesAt(fields, prefix, required, skip, ps)
  }

  /** The fields under the `i`th agree, itself included. */
  ghost predicate ColumnAgrees(fields: seq<Field>, prefix: Path, required: set<Path>, i: nat)
    requires i < |fields|
  {
    (fields[i].nullable <==> prefix + [fields[i].name] !in required) &&
    (OrdinaryStruct(fields[i]) ==> NullabilityAgrees(fields[i].children, prefix + [fields[i].name], required, -1))
  }

  lemma {:induction false} ReachInto(fields: seq<Field>, prefix: Path, required: set<Path>, skip: int, i: nat,
                                     qs: seq<nat>)
    requires i < |fields| && i != skip && OrdinaryStruct(fields[i]) && Reaches(fields[i].children, qs, -1)
    ensures Reaches(fields, [i] + qs, skip)
    ensures AgreesAt(fields, prefix, required, skip, [i] + qs) <==>
            AgreesAt(fields[i].children, prefix + [fields[i].name], required, -1, qs)
  {
    var ps := [i] + qs;
    assert ps[1..] == qs;
    assert prefix + PathAt(fields, ps, skip) == prefix + [fields[i].name] + PathAt(fields[i].children, qs, -1);
  }

  /** Agreement, column by column. */
  lemma {:induction false} AgreesByColumn(fields: seq<Field>, prefix: Path, required: set<Path>, skip: int)
    ensures NullabilityAgrees(fields, prefix, required, skip) <==>
      forall i :: 0 <= i < |fields| && i != skip ==> ColumnAgrees(fields, prefix, required, i)
  {
    if NullabilityAgrees(fields, prefix, required, skip) {
      forall i | 0 <= i < |fields| && i != skip ensures ColumnAgrees(fields, prefix, required, i) {
        ColumnFromAll(fields, prefix, required, skip, i);
      }
    }
    if forall i :: 0 <= i < |fields| && i != skip ==> ColumnAgrees(fields, prefix, required, i) {
      forall ps | Reaches(fields, ps, skip) ensures AgreesAt(fields, prefix, required, skip, ps) {
        assert ColumnAgrees(fields, prefix, required, ps[0]);
        if |ps| > 1 {
          ReachInto(fields, prefix, required, skip, ps[0], ps[1..]);
          assert ps == [ps[0]] + ps[1..];
        }
      }
    }
  }

  lemma {:induction false} ColumnFromAll(fields: seq<Field>, prefix: Path, required: set<Path>, skip: int, i: nat)
    requires NullabilityAgrees(fields, prefix, required, skip) && i < |fields| && i != skip
    ensures ColumnAgrees(fields, prefix, required, i)
  {
    assert Reaches(fields, [i], skip) && AgreesAt(fields, prefix, required, skip, [i]);
    if OrdinaryStruct(fields[i]) {
      forall qs | Reaches(fields[i].children, qs, -1)
        ensures AgreesAt(fields[i].children, prefix + [fields[i].name], required, -1, qs)
      {
        ReachInto(fields, prefix, required, skip, i, qs);
      }
    }
  }

  /** `Require` throws where `ok` is false. */
  method ValidateNullability(fields: seq<Field>, prefix: Path, required: set<Path>, rowId: int) returns (ok: bool)
    ensures ok <==> NullabilityAgrees(fields, prefix, required, if prefix == [] then rowId else -1)
    decreases fields
  {
    ghost var skip := if prefix == [] then rowId else -1;
    AgreesByColumn(fields, prefix, required, skip);
    for i := 0 to |fields|
      invariant forall j :: 0 <= j < i && j != skip ==> ColumnAgrees(fields, prefix, required, j)
    {
      if !(prefix == [] && i == rowId) {
        var field := fields[i];
        var path := prefix + [field.name];
        if field.nullable != (path !in required) {
          assert !ColumnAgrees(fields, prefix, required, i);
          return false;
        }
        if OrdinaryStruct(field) {
          var nested := ValidateNullability(field.children, path, required, rowId);
          if !nested {
            assert !ColumnAgrees(fields, prefix, required, i);
            return false;
          }
        }
      }
    }
    return true;
  }

  // ---------------------------------------------------------------------------------------------
  // Resolving a path
  // ---------------------------------------------------------------------------------------------

  /** The first field of that name from position `i` on. */
  function FirstNamed(fields: seq<Field>, name: string, i: nat): (r: Option<nat>)
    requires i <= |fields|
    ensures r.Some? ==> i <= r.value < |fields| && fields[r.value].name == name
    ensures r.Some? ==> forall j :: i <= j < r.value ==> fields[j].name != name
    ensures r.None? ==> forall j :: i <= j < |fields| ==> fields[j].name != name
    decreases |fields| - i
  {
    if i == |fields| then None else if fields[i].name == name then Some(i) else FirstNamed(fields, name, i + 1)
  }

  /** `GetFieldIndex`: the first field of that name. */
  function FieldIndex(fields: seq<Field>, name: string): Option<nat> {
    FirstNamed(fields, name, 0)
  }

  /** `ChildIndex`: the only child of that name. */
  function ChildIndex(fields: seq<Field>, name: string): (r: Option<nat>)
    ensures r.Some? ==> r.value < |fields| && fields[r.value].name == name
    ensures r.Some? ==> forall j :: 0 <= j < |fields| && j != r.value ==> fields[j].name != name
  {
    var first := FirstNamed(fields, name, 0);
    if first.None? || FirstNamed(fields, name, first.value + 1).Some? then None else first
  }

  predicate ResolvesIn(field: Field, rest: Path)
    decreases rest
  {
    rest == [] ||
    (OrdinaryStruct(field) && ChildIndex(field.children, rest[0]).Some? &&
     ResolvesIn(field.children[ChildIndex(field.children, rest[0]).value], rest[1..]))
  }

  /** The path names a column other than the row id, and onward unambiguous members of ordinary structs. */
  predicate Resolves(fields: seq<Field>, rowId: int, path: Path) {
    path != [] && FieldIndex(fields, path[0]).Some? && FieldIndex(fields, path[0]).value != rowId &&
    ResolvesIn(fields[FieldIndex(fields, path[0]).value], path[1..])
  }

  /** A path that resolves is the path of a field the nullability check visits. */
  lemma {:induction false} ResolvedIsReached(fields: seq<Field>, rowId: int, path: Path) returns (ps: seq<nat>)
    requires Resolves(fields, rowId, path)
    ensures Reaches(fields, ps, rowId) && PathAt(fields, ps, rowId) == path
  {
    var i := FieldIndex(fields, path[0]).value;
    if |path| == 1 {
      ps := [i];
    } else {
      var qs := ChildReached(fields[i], path[1..]);
      ps := [i] + qs;
      assert ps[1..] == qs && path == [path[0]] + path[1..];
    }
  }

  lemma {:induction false} ChildReached(field: Field, rest: Path) returns (qs: seq<nat>)
    requires rest != [] && ResolvesIn(field, rest)
    ensures OrdinaryStruct(field) && Reaches(field.children, qs, -1) && PathAt(field.children, qs, -1) == rest
    decreases rest
  {
    var i := ChildIndex(field.children, rest[0]).value;
    if |rest| == 1 {
      qs := [i];
    } else {
      var more := ChildReached(field.children[i], rest[1..]);
      qs := [i] + more;
      assert qs[1..] == more && rest == [rest[0]] + rest[1..];
    }
  }

  // ---------------------------------------------------------------------------------------------
  // DecodeNativeConstraints
  // ---------------------------------------------------------------------------------------------

  datatype ObjectRef = ObjectRef(name: string, schema: string, owner: string)

  /** A decoded record of `size` bytes; `payloadOk`: the CHECK expression or FOREIGN KEY definition was accepted. */
  datatype Record = Record(
    ref: ObjectRef, enforcement: string, validation: string, kind: string, paths: seq<Path>, declaredName: Option<string>,
    hasCheck: bool, hasForeignKey: bool, hasTarget: bool, payloadOk: bool, size: nat)

  /** `revision`: the length of the definition revision; an empty one is none. */
  datatype Table = Table(name: string, schema: string, fields: seq<Field>, rowId: int, revision: nat)

  datatype Decoded = Decoded(notNull: seq<nat>, primaryKeys: seq<seq<nat>>, uniques: seq<seq<nat>>)

  const MAX_RECORDS := 1024
  const MAX_BYTES := 8 * 1024 * 1024
  const MAX_REVISION := 65536

  function Total(sizes: seq<nat>, n: nat): nat
    requires n <= |sizes|
  {
    if n == 0 then 0 else Total(sizes, n - 1) + sizes[n - 1]
  }

  lemma {:induction false} TotalGrows(sizes: seq<nat>, m: nat, n: nat)
    requires m <= n <= |sizes|
    ensures Total(sizes, m) <= Total(sizes, n)
    decreases n
  {
    if m < n { TotalGrows(sizes, m, n - 1); }
  }

  /** Few enough records, none empty, small enough together. */
  predicate WithinLimits(sizes: seq<nat>) {
    |sizes| <= MAX_RECORDS && (forall i :: 0 <= i < |sizes| ==> sizes[i] > 0) && Total(sizes, |sizes|) <= MAX_BYTES
  }

  /** The size checks on a collection of records. */
  method Records(sizes: seq<nat>) returns (ok: bool)
    ensures ok <==> WithinLimits(sizes)
  {
    if |sizes| > MAX_RECORDS { return false; }
    var size := 0;
    for n := 0 to |sizes|
      invariant size == Total(sizes, n) <= MAX_BYTES
      invariant forall i :: 0 <= i < n ==> sizes[i] > 0
    {
      TotalGrows(sizes, n + 1, |sizes|);
      if sizes[n] == 0 || sizes[n] > MAX_BYTES { return false; }
      size := size + sizes[n];
      if size > MAX_BYTES { return false; }
    }
    ok := true;
  }

  function SizesOf(records: seq<Record>): seq<nat> {
    seq(|records|, i requires 0 <= i < |records| => records[i].size)
  }

  /** What counts as an identifier, and how labels are compared. */
  datatype Naming = Naming(identifier: string -> bool, lower: string -> string)

  predicate PathsOk(nm: Naming, paths: seq<Path>) {
    |paths| <= 1024 &&
    (forall i :: 0 <= i < |paths| ==>
       0 < |paths[i]| <= 64 && forall j :: 0 <= j < |paths[i]| ==> nm.identifier(paths[i][j])) &&
    forall i, j :: 0 <= i < j < |paths| ==> paths[i] != paths[j]
  }

  predicate TopLevel(t: Table, paths: seq<Path>) {
    forall i :: 0 <= i < |paths| ==>
      |paths[i]| == 1 && FieldIndex(t.fields, paths[i][0]).Some? && FieldIndex(t.fields, paths[i][0]).value != t.rowId
  }

  predicate KindOk(t: Table, r: Record) {
    match r.kind
    case "CHECK" => r.payloadOk
    case "NOT_NULL" => |r.paths| == 1 && Resolves(t.fields, t.rowId, r.paths[0])
    case "PRIMARY_KEY" => TopLevel(t, r.paths)
    case "UNIQUE" => TopLevel(t, r.paths)
    case "FOREIGN_KEY" => TopLevel(t, r.paths) && r.payloadOk
    case _ => false
  }

  /** Everything `DecodeNativeConstraints` requires of one record by itself. */
  predicate RecordOk(nm: Naming, t: Table, r: Record) {
    nm.identifier(r.ref.name) && nm.identifier(r.ref.schema) && r.ref.owner != "" && nm.identifier(r.ref.owner) &&
    r.ref.schema == t.schema && r.ref.owner == t.name &&
    r.enforcement == "ENFORCED" && r.validation == "ALL_ROWS" &&
    PathsOk(nm, r.paths) && (r.declaredName.Some? ==> nm.identifier(r.declaredName.value)) &&
    (r.kind == "CHECK" <==> r.hasCheck) && (if r.kind == "CHECK" then r.paths == [] else r.paths != []) &&
    (r.kind == "FOREIGN_KEY" <==> r.hasForeignKey) && (r.kind == "FOREIGN_KEY" <==> r.hasTarget) &&
    KindOk(t, r)
  }

  /** And of two records together. */
  predicate Apart(nm: Naming, a: Record, b: Record) {
    a.ref.name != b.ref.name &&
    !(a.kind == "PRIMARY_KEY" && b.kind == "PRIMARY_KEY") &&
    (a.declaredName.Some? && b.declaredName.Some? ==> nm.lower(a.declaredName.value) != nm.lower(b.declaredName.value))
  }

  predicate Imposes(r: Record) {
    r.kind == "NOT_NULL" || r.kind == "PRIMARY_KEY"
  }

  /** The paths named by NOT_NULL and PRIMARY_KEY records. */
  function RequiredPaths(records: seq<Record>): set<Path> {
    set i, j | 0 <= i < |records| && Imposes(records[i]) && 0 <= j < |records[i].paths| :: records[i].paths[j]
  }

  ghost predicate Acceptable(nm: Naming, t: Table, records: seq<Record>) {
    (forall i :: 0 <= i < |records| ==> RecordOk(nm, t, records[i])) &&
    forall i, j :: 0 <= i < j < |records| ==> Apart(nm, records[i], records[j])
  }

  /** The column a top-level path names. */
  function ColumnOf(t: Table, path: Path): nat
    requires path != [] && FieldIndex(t.fields, path[0]).Some?
  {
    FieldIndex(t.fields, path[0]).value
  }

  /** Record `r` says that top-level column `c` is NOT NULL. */
  predicate SaysNotNull(t: Table, r: Record, c: nat) {
    r.kind == "NOT_NULL" && |r.paths| == 1 && |r.paths[0]| == 1 && FieldIndex(t.fields, r.paths[0][0]) == Some(c)
  }

  ghost predicate NamesSeen(records: seq<Record>, n: nat, keys: set<string>)
    requires n <= |records|
  {
    forall k :: k in keys <==> exists i :: 0 <= i < n && records[i].ref.name == k
  }

  ghost predicate LabelsSeen(nm: Naming, records: seq<Record>, n: nat, labels: set<string>)
    requires n <= |records|
  {
    forall l :: l in labels <==>
      exists i :: 0 <= i < n && records[i].declaredName.Some? && nm.lower(records[i].declaredName.value) == l
  }

  lemma {:induction false} RequiredOfNext(records: seq<Record>, n: nat)
    requires n < |records|
    ensures RequiredPaths(records[..n + 1]) ==
      RequiredPaths(records[..n]) +
      if Imposes(records[n]) then (set j | 0 <= j < |records[n].paths| :: records[n].paths[j]) else {}
  {
    var before, after := records[..n], records[..n + 1];
    forall p | p in RequiredPaths(after)
      ensures p in RequiredPaths(before) || (Imposes(records[n]) && exists j :: 0 <= j < |records[n].paths| && records[n].paths[j] == p)
    {
      var i, j :| 0 <= i < |after| && Imposes(after[i]) && 0 <= j < |after[i].paths| && after[i].paths[j] == p;
      if i < n { assert before[i] == after[i]; }
    }
    forall p | p in RequiredPaths(before) ensures p in RequiredPaths(after) {
      var i, j :| 0 <= i < |before| && Imposes(before[i]) && 0 <= j < |before[i].paths| && before[i].paths[j] == p;
      assert after[i] == before[i];
    }
    assert after[n] == records[n];
  }

  /** The records of one kind, in order. */
  function OfKind(records: seq<Record>, kind: string): seq<Record> {
    if records == [] then [] else
      var last := records[|records| - 1];
      OfKind(records[..|records| - 1], kind) + if last.kind == kind then [last] else []
  }

  predicate AreColumns(t: Table, paths: seq<Path>, columns: seq<nat>) {
    |columns| == |paths| &&
    forall i :: 0 <= i < |paths| ==> paths[i] != [] && Some(columns[i]) == FieldIndex(t.fields, paths[i][0])
  }

  /** `keys` are the columns of the records of that kind, key by key. */
  predicate KeysOf(t: Table, records: seq<Record>, kind: string, keys: seq<seq<nat>>) {
    var rs := OfKind(records, kind);
    |keys| == |rs| && forall k :: 0 <= k < |rs| ==> AreColumns(t, rs[k].paths, keys[k])
  }

  lemma {:induction false} KeysOfNext(t: Table, records: seq<Record>, n: nat, kind: string, keys: seq<seq<nat>>,
                                      columns: seq<nat>)
    requires n < |records| && KeysOf(t, records[..n], kind, keys)
    ensures records[n].kind != kind ==> KeysOf(t, records[..n + 1], kind, keys)
    ensures records[n].kind == kind && AreColumns(t, records[n].paths, columns) ==>
      KeysOf(t, records[..n + 1], kind, keys + [columns])
  {
    assert records[..n + 1][..n] == records[..n];
  }

  lemma {:induction false} NoneOfKind(records: seq<Record>, kind: string)
    ensures OfKind(records, kind) == [] <==> forall i :: 0 <= i < |records| ==> records[i].kind != kind
  {
    if records != [] {
      var last := |records| - 1;
      NoneOfKind(records[..last], kind);
      assert forall i :: 0 <= i < last ==> records[..last][i] == records[i];
    }
  }

  /** The loop's state after the first `n` records. */
  ghost predicate Progress(nm: Naming, t: Table, records: seq<Record>, n: nat,
                           keys: set<string>, labels: set<string>, required: set<Path>, d: Decoded) {
    n <= |records| && Acceptable(nm, t, records[..n]) && NamesSeen(records, n, keys) && LabelsSeen(nm, records, n, labels) &&
    required == RequiredPaths(records[..n]) &&
    KeysOf(t, records[..n], "PRIMARY_KEY", d.primaryKeys) && KeysOf(t, records[..n], "UNIQUE", d.uniques) &&
    forall c :: c in d.notNull <==> exists i :: 0 <= i < n && SaysNotNull(t, records[i], c)
  }

  /** What the loop requires of the next record. */
  predicate NextOk(nm: Naming, t: Table, r: Record, keys: set<string>, labels: set<string>, d: Decoded) {
    RecordOk(nm, t, r) && r.ref.name !in keys && (r.declaredName.Some? ==> nm.lower(r.declaredName.value) !in labels) &&
    (r.kind == "PRIMARY_KEY" ==> d.primaryKeys == [])
  }

  /** A refused record makes the whole unacceptable; an accepted one extends what was accepted. */
  lemma {:induction false} NextDecides(nm: Naming, t: Table, records: seq<Record>, n: nat,
                    keys: set<string>, labels: set<string>, required: set<Path>, d: Decoded)
    requires Progress(nm, t, records, n, keys, labels, required, d) && n < |records|
    ensures NextOk(nm, t, records[n], keys, labels, d) <==> Acceptable(nm, t, records[..n + 1])
  {
    var r := records[n];
    assert records[..n + 1] == records[..n] + [r];
    NoneOfKind(records[..n], "PRIMARY_KEY");
    assert d.primaryKeys == [] <==> forall i :: 0 <= i < n ==> records[i].kind != "PRIMARY_KEY" by {
      assert forall i :: 0 <= i < n ==> records[..n][i] == records[i];
    }
    if NextOk(nm, t, r, keys, labels, d) {
      forall i | 0 <= i < n ensures Apart(nm, records[i], r) {
        assert records[i].ref.name in keys;
      }
    } else if RecordOk(nm, t, r) {
      var all := records[..n + 1];
      var i :| 0 <= i < n && !Apart(nm, records[i], r);
      assert all[i] == records[i] && all[n] == r;
    }
  }

  lemma {:induction false} AcceptablePrefix(nm: Naming, t: Table, records: seq<Record>, n: nat)
    requires n <= |records| && Acceptable(nm, t, records)
    ensures Acceptable(nm, t, records[..n])
  {
  }

  lemma {:induction false} NextProgress(nm: Naming, t: Table, records: seq<Record>, n: nat,
                     keys: set<string>, labels: set<string>, required: set<Path>, d: Decoded,
                     keys': set<string>, labels': set<string>, required': set<Path>, d': Decoded)
    requires Progress(nm, t, records, n, keys, labels, required, d) && n < |records|
    requires NextOk(nm, t, records[n], keys, labels, d)
    requires keys' == keys + {records[n].ref.name}
    requires labels' == labels + if records[n].declaredName.Some? then {nm.lower(records[n].declaredName.value)} else {}
    requires required' == required +
      if Imposes(records[n]) then (set j | 0 <= j < |records[n].paths| :: records[n].paths[j]) else {}
    requires KeysOf(t, records[..n + 1], "PRIMARY_KEY", d'.primaryKeys) && KeysOf(t, records[..n + 1], "UNIQUE", d'.uniques)
    requires forall c :: c in d'.notNull <==> c in d.notNull || SaysNotNull(t, records[n], c)
    ensures Progress(nm, t, records, n + 1, keys', labels', required', d')
  {
    NextDecides(nm, t, records, n, keys, labels, required, d);
    RequiredOfNext(records, n);
  }

  /** The top-level columns of the paths, which `RecordOk` has found to exist. */
  method Columns(t: Table, paths: seq<Path>) returns (r: seq<nat>)
    requires TopLevel(t, paths)
    ensures AreColumns(t, paths, r)
  {
    r := [];
    for i := 0 to |paths|
      invariant |r| == i && forall j :: 0 <= j < i ==> Some(r[j]) == FieldIndex(t.fields, paths[j][0])
    {
      r := r + [FieldIndex(t.fields, paths[i][0]).value];
    }
  }

  /**
   Decoding succeeds exactly if the records are within their limits, every record is acceptable, by
   itself and beside the others, and, with the check on, every field reachable through ordinary structs
   is non-nullable exactly when a NOT_NULL or PRIMARY_KEY record names it. The columns reported NOT NULL
   are those that top-level NOT_NULL records name; keys are reported with their columns, in order.
   */
  method DecodeNativeConstraints(nm: Naming, t: Table, records: seq<Record>, checkNullability: bool)
    returns (r: Option<Decoded>)
    ensures r.Some? <==>
      (WithinLimits(SizesOf(records)) && t.revision <= MAX_REVISION && Acceptable(nm, t, records) &&
       (checkNullability ==> NullabilityAgrees(t.fields, [], RequiredPaths(records), t.rowId)))
    ensures r.Some? ==> |r.value.primaryKeys| <= 1
    ensures r.Some? ==>
      KeysOf(t, records, "PRIMARY_KEY", r.value.primaryKeys) && KeysOf(t, records, "UNIQUE", r.value.uniques)
    ensures r.Some? ==>
      forall c :: c in r.value.notNull <==> exists i :: 0 <= i < |records| && SaysNotNull(t, records[i], c)
  {
    var sized := Records(SizesOf(records));
    if !sized || t.revision > MAX_REVISION { return None; }
    var keys: set<string>, labels: set<string>, required: set<Path> := {}, {}, {};
    var d := Decoded([], [], []);
    for n := 0 to |records|
      invariant Progress(nm, t, records, n, keys, labels, required, d) && |d.primaryKeys| <= 1
    {
      var rec := records[n];
      NextDecides(nm, t, records, n, keys, labels, required, d);
      if !NextOk(nm, t, rec, keys, labels, d) {
        if Acceptable(nm, t, records) { AcceptablePrefix(nm, t, records, n + 1); }
        return None;
      }
      ghost var columns0: seq<nat> := [];
      ghost var keys0, labels0, required0, d0 := keys, labels, required, d;
      keys := keys + {rec.ref.name};
      if rec.declaredName.Some? { labels := labels + {nm.lower(rec.declaredName.value)}; }
      if rec.kind == "NOT_NULL" {
        required := required + {rec.paths[0]};
        if |rec.paths[0]| == 1 {
          d := d.(notNull := d.notNull + [FieldIndex(t.fields, rec.paths[0][0]).value]);
        }
      } else if rec.kind == "PRIMARY_KEY" {
        var columns := Columns(t, rec.paths);
        columns0 := columns;
        d := d.(primaryKeys := d.primaryKeys + [columns]);
        required := required + set j | 0 <= j < |rec.paths| :: rec.paths[j];
      } else if rec.kind == "UNIQUE" {
        var columns := Columns(t, rec.paths);
        columns0 := columns;
        d := d.(uniques := d.uniques + [columns]);
      }
      KeysOfNext(t, records, n, "PRIMARY_KEY", d0.primaryKeys, columns0);
      KeysOfNext(t, records, n, "UNIQUE", d0.uniques, columns0);
      NextProgress(nm, t, records, n, keys0, labels0, required0, d0, keys, labels, required, d);
    }
    assert records[..|records|] == records;
    if checkNullability {
      var ok := ValidateNullability(t.fields, [], required, t.rowId);
      if !ok { return None; }
    }
    r := Some(d);
  }

  /** After a successful, checked decode the field a NOT_NULL record names exists and is non-nullable. */
  lemma {:induction false} NotNullFieldsAreMarked(nm: Naming, t: Table, records: seq<Record>, i: nat)
    returns (ps: seq<nat>)
    requires Acceptable(nm, t, records) && NullabilityAgrees(t.fields, [], RequiredPaths(records), t.rowId)
    requires i < |records| && records[i].kind == "NOT_NULL"
    ensures Reaches(t.fields, ps, t.rowId) && [PathAt(t.fields, ps, t.rowId)] == records[i].paths
    ensures !FieldAt(t.fields, ps, t.rowId).nullable
  {
    assert RecordOk(nm, t, records[i]);
    ps := ResolvedIsReached(t.fields, t.rowId, records[i].paths[0]);
    assert AgreesAt(t.fields, [], RequiredPaths(records), t.rowId, ps);
    assert [] + PathAt(t.fields, ps, t.rowId) == records[i].paths[0] && Imposes(records[i]);
  }
}
