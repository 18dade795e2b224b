/**
 Encoding the constraints of CREATE TABLE (`EncodeNativeConstraints` in
 src/vgi_constraint_contract.cpp) into definitions and nullability flags, and exactly when those
 flags pass the check that decoding makes.
 */
module ConstraintEncoding {
  import opened Constraints
  import opened Options

  /** A constraint of the statement, its columns resolved to logical indices. */
  datatype TableConstraint =
    | NotNull(index: nat)
    | Unique(columns: seq<nat>, primary: bool)
    | ForeignKey(local: seq<nat>, accepted: bool)
    | Expression

  datatype Definition = Definition(kind: string, names: seq<string>)

  datatype Encoded = Encoded(definitions: seq<Definition>, fields: seq<Field>)

  predicate InRange(fields: seq<Field>, columns: seq<nat>) {
    forall k :: 0 <= k < |columns| ==> columns[k] < |fields|
  }

  predicate Encodable(fields: seq<Field>, c: TableConstraint) {
    match c
    case NotNull(i) => i < |fields|
    case Unique(columns, _) => InRange(fields, columns)
    case ForeignKey(local, accepted) => InRange(fields, local) && accepted
    case Expression => false
  }

  /** Every column a constraint names has an identifier for its name. */
  predicate Nameable(nm: Naming, fields: seq<Field>, c: TableConstraint)
    requires Encodable(fields, c)
  {
    var names := DefinitionOf(fields, c).names;
    forall k :: 0 <= k < |names| ==> nm.identifier(names[k])
  }

  /** The columns a constraint makes required: those its definition names, looked up by name. */
  predicate Demands(fields: seq<Field>, c: TableConstraint, i: nat)
    requires Encodable(fields, c)
  {
    match c
    case NotNull(k) => i == k
    case Unique(columns, primary) =>
      primary && exists k :: 0 <= k < |columns| && FieldIndex(fields, fields[columns[k]].name) == Some(i)
    case _ => false
  }

  predicate AllEncodable(fields: seq<Field>, cs: seq<TableConstraint>) {
    forall k :: 0 <= k < |cs| ==> Encodable(fields, cs[k])
  }

  ghost predicate Demanded(fields: seq<Field>, cs: seq<TableConstraint>, i: nat)
    requires AllEncodable(fields, cs)
  {
    exists k :: 0 <= k < |cs| && Demands(fields, cs[k], i)
  }

  /** The paths that the NOT_NULL and PRIMARY_KEY definitions name. */
  function RequiredNames(defs: seq<Definition>): set<Path> {
    set k, j | 0 <= k < |defs| && (defs[k].kind == "NOT_NULL" || defs[k].kind == "PRIMARY_KEY") && 0 <= j < |defs[k].names| ::
      [defs[k].names[j]]
  }

  function NamesAt(fields: seq<Field>, columns: seq<nat>): seq<string>
    requires InRange(fields, columns)
  {
    seq(|columns|, k requires 0 <= k < |columns| => fields[columns[k]].name)
  }

  method NamesOf(fields: seq<Field>, columns: seq<nat>) returns (r: seq<string>)
    requires InRange(fields, columns)
    ensures r == NamesAt(fields, columns)
  {
    r := [];
    for i := 0 to |columns|
      invariant r == NamesAt(fields, columns[..i])
    {
      r := r + [fields[columns[i]].name];
    }
    assert columns[..|columns|] == columns;
  }

  /** A constraint's definition: its kind, and its columns by name. */
  function DefinitionOf(fields: seq<Field>, c: TableConstraint): Definition
    requires Encodable(fields, c)
  {
    match c
    case NotNull(i) => Definition("NOT_NULL", [fields[i].name])
    case Unique(columns, primary) => Definition(if primary then "PRIMARY_KEY" else "UNIQUE", NamesAt(fields, columns))
    case ForeignKey(local, _) => Definition("FOREIGN_KEY", NamesAt(fields, local))
  }

  /** One constraint: its definition, and the columns it adds to the required set. */
  method EncodeOne(fields: seq<Field>, c: TableConstraint) returns (d: Definition, required: set<nat>)
    requires Encodable(fields, c)
    ensures d == DefinitionOf(fields, c)
    ensures forall i :: i in required <==> Demands(fields, c, i)
  {
    required := {};
    match c
    case NotNull(i) =>
      d := Definition("NOT_NULL", [fields[i].name]);
      required := {i};
    case Unique(columns, primary) =>
      var names := NamesOf(fields, columns);
      for k := 0 to |names|
        invariant forall i :: i in required <==>
          primary && exists j :: 0 <= j < k && FieldIndex(fields, fields[columns[j]].name) == Some(i)
      {
        var index := FieldIndex(fields, names[k]).value;
        if primary { required := required + {index}; }
      }
      d := Definition(if primary then "PRIMARY_KEY" else "UNIQUE", names);
    case ForeignKey(local, _) =>
      var names := NamesOf(fields, local);
      d := Definition("FOREIGN_KEY", names);
  }

  /** The flags: a column is nullable exactly if no constraint makes it required. */
  method SetFlags(fields: seq<Field>, required: set<nat>) returns (r: seq<Field>)
    ensures |r| == |fields|
    ensures forall i :: 0 <= i < |fields| ==> r[i] == fields[i].(nullable := i !in required)
  {
    r := [];
    for i := 0 to |fields|
      invariant |r| == i && forall k :: 0 <= k < i ==> r[k] == fields[k].(nullable := k !in required)
    {
      r := r + [fields[i].(nullable := i !in required)];
    }
  }

  /** The definitions, one per constraint. */
  function DefinitionsOf(fields: seq<Field>, cs: seq<TableConstraint>): (r: seq<Definition>)
    requires AllEncodable(fields, cs)
  {
    seq(|cs|, k requires 0 <= k < |cs| => DefinitionOf(fields, cs[k]))
  }

  ghost predicate IsEncoding(fields: seq<Field>, cs: seq<TableConstraint>, e: Encoded) {
    AllEncodable(fields, cs) && e.definitions == DefinitionsOf(fields, cs) && |e.fields| == |fields| &&
    forall i :: 0 <= i < |fields| ==> e.fields[i] == fields[i].(nullable := !Demanded(fields, cs, i))
  }

  /** The encoded sizes; `size` is what a definition takes once serialized. */
  function EncodedSizes(size: Definition -> nat, defs: seq<Definition>): seq<nat> {
    seq(|defs|, k requires 0 <= k < |defs| => size(defs[k]))
  }

  /**
   Succeeds exactly if every constraint is encodable, its columns have identifiers for names, and the
   definitions are within the limits that decoding sets.
   */
  method EncodeNativeConstraints(nm: Naming, size: Definition -> nat, fields: seq<Field>, cs: seq<TableConstraint>)
    returns (r: Option<Encoded>)
    ensures r.Some? <==>
      AllEncodable(fields, cs) && (forall k :: 0 <= k < |cs| ==> Nameable(nm, fields, cs[k])) &&
      WithinLimits(EncodedSizes(size, DefinitionsOf(fields, cs)))
    ensures r.Some? ==> IsEncoding(fields, cs, r.value)
  {
    var defs: seq<Definition> := [];
    var required: set<nat> := {};
    for n := 0 to |cs|
      invariant |defs| == n
      invariant forall k :: 0 <= k < n ==>
        Encodable(fields, cs[k]) && Nameable(nm, fields, cs[k]) && defs[k] == DefinitionOf(fields, cs[k])
      invariant forall i :: i in required <==> exists k :: 0 <= k < n && Encodable(fields, cs[k]) && Demands(fields, cs[k], i)
    {
      if !Encodable(fields, cs[n]) || !Nameable(nm, fields, cs[n]) { return None; }
      var d, more := EncodeOne(fields, cs[n]);
      defs := defs + [d];
      required := required + more;
    }
    assert defs == DefinitionsOf(fields, cs);
    var sized := Records(EncodedSizes(size, defs));
    if !sized { return None; }
    var flagged := SetFlags(fields, required);
    r := Some(Encoded(defs, flagged));
  }

  // ---------------------------------------------------------------------------------------------
  // Whether the flags pass the check
  // ---------------------------------------------------------------------------------------------

  lemma {:induction false} NamedIsDemanded(fields: seq<Field>, cs: seq<TableConstraint>, e: Encoded, p: Path) returns (i: nat)
    requires IsEncoding(fields, cs, e) && p in RequiredNames(e.definitions)
    ensures i < |fields| && Demanded(fields, cs, i) && p == [fields[i].name]
  {
    var k, j :| 0 <= k < |e.definitions| && 0 <= j < |e.definitions[k].names| && p == [e.definitions[k].names[j]] &&
                (e.definitions[k].kind == "NOT_NULL" || e.definitions[k].kind == "PRIMARY_KEY");
    assert e.definitions[k] == DefinitionOf(fields, cs[k]);
    i := if cs[k].NotNull? then cs[k].index else FieldIndex(fields, fields[cs[k].columns[j]].name).value;
    assert Demands(fields, cs[k], i);
  }

  lemma {:induction false} DemandedIsNamed(fields: seq<Field>, cs: seq<TableConstraint>, e: Encoded, i: nat)
    requires IsEncoding(fields, cs, e) && i < |fields| && Demanded(fields, cs, i)
    ensures [fields[i].name] in RequiredNames(e.definitions)
  {
    var k :| 0 <= k < |cs| && Demands(fields, cs[k], i);
    var d := e.definitions[k];
    assert d == DefinitionOf(fields, cs[k]);
    if cs[k].NotNull? {
      assert d.names[0] == fields[i].name;
    } else {
      var j :| 0 <= j < |cs[k].columns| && FieldIndex(fields, fields[cs[k].columns[j]].name) == Some(i);
      assert d.names[j] == fields[i].name;
    }
  }

  /** The definitions name exactly the names of the columns made required. */
  lemma {:induction false} RequiredNamesAre(fields: seq<Field>, cs: seq<TableConstraint>, e: Encoded, p: Path)
    requires IsEncoding(fields, cs, e)
    ensures p in RequiredNames(e.definitions) <==>
      exists i :: 0 <= i < |fields| && Demanded(fields, cs, i) && p == [fields[i].name]
  {
    if p in RequiredNames(e.definitions) {
      var i := NamedIsDemanded(fields, cs, e, p);
    }
    if i :| 0 <= i < |fields| && Demanded(fields, cs, i) && p == [fields[i].name] {
      DemandedIsNamed(fields, cs, e, i);
    }
  }

  /** Every field below the top level that the check visits is nullable. */
  ghost predicate NestedNullable(fields: seq<Field>) {
    forall ps :: Reaches(fields, ps, -1) && |ps| > 1 ==> FieldAt(fields, ps, -1).nullable
  }

  /** Columns of the same name are made required together or not at all. */
  ghost predicate NamesakesAgree(fields: seq<Field>, cs: seq<TableConstraint>)
    requires AllEncodable(fields, cs)
  {
    forall i, j :: 0 <= i < |fields| && 0 <= j < |fields| && fields[i].name == fields[j].name ==>
      (Demanded(fields, cs, i) <==> Demanded(fields, cs, j))
  }

  /** Setting the flags changes neither which fields are reached nor their paths. */
  lemma {:induction false} FlagsKeepPaths(fields: seq<Field>, cs: seq<TableConstraint>, e: Encoded, ps: seq<nat>)
    requires IsEncoding(fields, cs, e)
    ensures Reaches(e.fields, ps, -1) <==> Reaches(fields, ps, -1)
    ensures Reaches(fields, ps, -1) ==>
      PathAt(e.fields, ps, -1) == PathAt(fields, ps, -1) && |PathAt(fields, ps, -1)| == |ps| &&
      (|ps| > 1 ==> FieldAt(e.fields, ps, -1) == FieldAt(fields, ps, -1))
  {
    if ps != [] && ps[0] < |fields| && |ps| > 1 && Reaches(fields, ps, -1) {
      PathLength(fields[ps[0]].children, ps[1..]);
    }
  }

  lemma {:induction false} PathLength(fields: seq<Field>, ps: seq<nat>)
    requires Reaches(fields, ps, -1)
    ensures |PathAt(fields, ps, -1)| == |ps|
    decreases ps
  {
    if |ps| > 1 { PathLength(fields[ps[0]].children, ps[1..]); }
  }

  /** A top-level column passes the check exactly if being made required is what its name says. */
  lemma {:induction false} ColumnPasses(fields: seq<Field>, cs: seq<TableConstraint>, e: Encoded, i: nat)
    requires IsEncoding(fields, cs, e) && i < |fields|
    ensures Reaches(e.fields, [i], -1)
    ensures AgreesAt(e.fields, [], RequiredNames(e.definitions), -1, [i]) <==>
      (Demanded(fields, cs, i) <==> [fields[i].name] in RequiredNames(e.definitions))
  {
    assert [] + PathAt(e.fields, [i], -1) == [fields[i].name];
  }

  /** A nested field passes exactly if it is nullable: only top-level paths are ever named. */
  lemma {:induction false} NestedPasses(fields: seq<Field>, cs: seq<TableConstraint>, e: Encoded, ps: seq<nat>)
    requires IsEncoding(fields, cs, e) && Reaches(fields, ps, -1) && |ps| > 1
    ensures Reaches(e.fields, ps, -1)
    ensures AgreesAt(e.fields, [], RequiredNames(e.definitions), -1, ps) <==> FieldAt(fields, ps, -1).nullable
  {
    FlagsKeepPaths(fields, cs, e, ps);
    var path := PathAt(fields, ps, -1);
    assert [] + path == path && |path| > 1;
  }

  /**
   The flags pass the nullability check of decoding exactly if every nested field is nullable and
   columns of the same name are made required together or not at all.
   */
  lemma {:induction false} EncodedFlagsPassIff(fields: seq<Field>, cs: seq<TableConstraint>, e: Encoded)
    requires IsEncoding(fields, cs, e)
    ensures NullabilityAgrees(e.fields, [], RequiredNames(e.definitions), -1) <==>
      NestedNullable(fields) && NamesakesAgree(fields, cs)
  {
    if NullabilityAgrees(e.fields, [], RequiredNames(e.definitions), -1) {
      forall ps | Reaches(fields, ps, -1) && |ps| > 1 ensures FieldAt(fields, ps, -1).nullable {
        NestedPasses(fields, cs, e, ps);
      }
      forall i, j | 0 <= i < |fields| && 0 <= j < |fields| && fields[i].name == fields[j].name
        ensures Demanded(fields, cs, i) <==> Demanded(fields, cs, j)
      {
        ColumnPasses(fields, cs, e, i);
        ColumnPasses(fields, cs, e, j);
      }
    }
    if NestedNullable(fields) && NamesakesAgree(fields, cs) {
      forall ps | Reaches(e.fields, ps, -1) ensures AgreesAt(e.fields, [], RequiredNames(e.definitions), -1, ps) {
        FlagsKeepPaths(fields, cs, e, ps);
        if |ps| > 1 {
          NestedPasses(fields, cs, e, ps);
        } else {
          assert ps == [ps[0]];
          ColumnPasses(fields, cs, e, ps[0]);
          RequiredNamesAre(fields, cs, e, [fields[ps[0]].name]);
        }
      }
    }
  }

  /** With unique column names, nullable nested fields are all it takes. */
  lemma {:induction false} UniqueNamesPass(fields: seq<Field>, cs: seq<TableConstraint>, e: Encoded)
    requires IsEncoding(fields, cs, e)
    requires forall i, j :: 0 <= i < j < |fields| ==> fields[i].name != fields[j].name
    ensures NullabilityAgrees(e.fields, [], RequiredNames(e.definitions), -1) <==> NestedNullable(fields)
  {
    EncodedFlagsPassIff(fields, cs, e);
    assert NamesakesAgree(fields, cs) by {
      forall i, j | 0 <= i < |fields| && 0 <= j < |fields| && fields[i].name == fields[j].name ensures i == j {
      }
    }
  }

  /** Two columns of one name, one of them NOT NULL: the flags do not pass. */
  lemma {:induction false} NamesakesFail() returns (fields: seq<Field>, cs: seq<TableConstraint>)
    ensures NestedNullable(fields) && AllEncodable(fields, cs)
    ensures forall e :: IsEncoding(fields, cs, e) ==>
      !NullabilityAgrees(e.fields, [], RequiredNames(e.definitions), -1)
  {
    fields := [Field("a", true, false, [], []), Field("a", true, false, [], [])];
    cs := [NotNull(1)];
    assert Demands(fields, cs[0], 1) && !Demanded(fields, cs, 0);
    forall e | IsEncoding(fields, cs, e) ensures !NullabilityAgrees(e.fields, [], RequiredNames(e.definitions), -1) {
      EncodedFlagsPassIff(fields, cs, e);
      assert fields[0].name == fields[1].name && Demanded(fields, cs, 1);
    }
  }
}
