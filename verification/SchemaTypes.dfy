/**
 Four comparisons of Arrow types, each used where a batch meets a schema: `TypesEqual`
 (src/vgi_arrow.cpp), `DataTypesEqual` (src/vgi_catalog_api.cpp), `SameTypeStructure`, the guard
 against a worker that sends another type than it bound (src/vgi_batch_validation.cpp), and
 `SameLayout`, which decides whether buffers can be relabelled (src/vgi_arrow_utils.cpp). They form
 a chain, strongest first.
 */
module SchemaTypes {
  import opened Options

  type Metadata = seq<(string, string)>

  /** A field: its type, name and flags. A null C string is the empty string. */
  datatype ArrowSchema = ArrowSchema(
    format: string, name: string, nullable: bool, dictionaryOrdered: bool, keysSorted: bool,
    metadata: Metadata, children: seq<ArrowSchema>, dictionary: Option<ArrowSchema>)

  // ---------------------------------------------------------------------------------------------
  // What nanoarrow reads out of a schema
  // ---------------------------------------------------------------------------------------------

  datatype Kind =
    | NaKind
    | Bool
    | Int8 | Int16 | Int32 | Int64
    | UInt8 | UInt16 | UInt32 | UInt64
    | HalfFloat | Float | Double
    | Date32 | Date64
    | Timestamp | Time32 | Time64 | Duration
    | String | LargeString | StringView | Binary | LargeBinary | BinaryView | FixedSizeBinary
    | Decimal128 | Decimal256
    | StructKind
    | ListKind | LargeListKind | MapKind | FixedSizeListKind
    | DictionaryKind
    | OtherKind(code: nat)

  datatype Unit = Second | Milli | Micro | Nano

  datatype View = View(kind: Kind, storage: Kind, unit: Unit, scale: int, fixedSize: nat)

  /**
   nanoarrow's reading of a schema: `parse` reads a format string, `valid` are its checks on the rest
   (child counts, map entries and keys not nullable). A dictionary-encoded field has a kind of its
   own over the storage of its index type.
   */
  datatype Library = Library(parse: string -> Option<View>, valid: ArrowSchema -> bool)

  /** `None` stands for the exception `ViewOf` throws on an unsupported type. */
  function ViewOf(lib: Library, s: ArrowSchema): Option<View> {
    if !lib.valid(s) || lib.parse(s.format).None? then None
    else if s.dictionary.Some? then Some(lib.parse(s.format).value.(kind := DictionaryKind))
    else lib.parse(s.format)
  }

  // ---------------------------------------------------------------------------------------------
  // The four comparisons
  // ---------------------------------------------------------------------------------------------

  predicate TypesEqual(a: ArrowSchema, b: ArrowSchema, checkNames: bool, checkMetadata: bool)
    decreases a
  {
    a.format == b.format && |a.children| == |b.children| &&
    a.nullable == b.nullable && a.dictionaryOrdered == b.dictionaryOrdered && a.keysSorted == b.keysSorted &&
    (checkNames ==> a.name == b.name) &&
    (checkMetadata ==> a.metadata == b.metadata) &&
    (forall i :: 0 <= i < |a.children| ==> TypesEqual(a.children[i], b.children[i], checkNames, checkMetadata)) &&
    a.dictionary.Some? == b.dictionary.Some? &&
    (a.dictionary.Some? ==> TypesEqual(a.dictionary.value, b.dictionary.value, checkNames, checkMetadata))
  }

  predicate DataTypesEqual(a: ArrowSchema, b: ArrowSchema)
    decreases a
  {
    a.format == b.format && |a.children| == |b.children| &&
    a.dictionaryOrdered == b.dictionaryOrdered && a.keysSorted == b.keysSorted &&
    (forall i :: 0 <= i < |a.children| ==> TypesEqual(a.children[i], b.children[i], true, false)) &&
    a.dictionary.Some? == b.dictionary.Some? &&
    (a.dictionary.Some? ==> DataTypesEqual(a.dictionary.value, b.dictionary.value))
  }

  predicate SameTypeStructure(a: ArrowSchema, b: ArrowSchema)
    decreases a
  {
    a.format == b.format && |a.children| == |b.children| &&
    a.dictionaryOrdered == b.dictionaryOrdered && a.keysSorted == b.keysSorted &&
    (forall i :: 0 <= i < |a.children| ==> SameTypeStructure(a.children[i], b.children[i])) &&
    a.dictionary.Some? == b.dictionary.Some? &&
    (a.dictionary.Some? ==> SameTypeStructure(a.dictionary.value, b.dictionary.value))
  }

  predicate HasUnit(k: Kind) {
    k.Timestamp? || k.Time32? || k.Time64? || k.Duration?
  }

  predicate SameView(sv: View, dv: View) {
    sv.kind == dv.kind && sv.storage == dv.storage &&
    (HasUnit(sv.kind) ==> sv.unit == dv.unit) &&
    (sv.kind.Decimal128? || sv.kind.Decimal256? ==> sv.scale == dv.scale) &&
    sv.fixedSize == dv.fixedSize
  }

  /** `SameLayout` answers, or throws where it has to read a type nanoarrow does not support. */
  datatype Verdict = Yes | No | Unsupported

  function SameLayout(lib: Library, src: ArrowSchema, dst: ArrowSchema): Verdict
    decreases src, 1
  {
    if src.dictionary.Some? != dst.dictionary.Some? || |src.children| != |dst.children| then No
    else if ViewOf(lib, src).None? || ViewOf(lib, dst).None? then Unsupported
    else if !SameView(ViewOf(lib, src).value, ViewOf(lib, dst).value) then No
    else
      var children := SameChildLayouts(lib, src, dst, |src.children|);
      if !children.Yes? || src.dictionary.None? then children
      else SameLayout(lib, src.dictionary.value, dst.dictionary.value)
  }

  /** The loop over the first `n` children: it ends at the first that does not answer yes. */
  function SameChildLayouts(lib: Library, src: ArrowSchema, dst: ArrowSchema, n: nat): Verdict
    requires n <= |src.children| == |dst.children|
    decreases src, 0, n
  {
    if n == 0 then Yes
    else
      var before := SameChildLayouts(lib, src, dst, n - 1);
      if before.Yes? then SameLayout(lib, src.children[n - 1], dst.children[n - 1]) else before
  }

  // ---------------------------------------------------------------------------------------------
  // The chain
  // ---------------------------------------------------------------------------------------------

  lemma {:induction false} TypesEqualImpliesStructure(a: ArrowSchema, b: ArrowSchema, checkNames: bool,
                                                      checkMetadata: bool)
    requires TypesEqual(a, b, checkNames, checkMetadata)
    ensures SameTypeStructure(a, b)
    decreases a
  {
    forall i | 0 <= i < |a.children| ensures SameTypeStructure(a.children[i], b.children[i]) {
      TypesEqualImpliesStructure(a.children[i], b.children[i], checkNames, checkMetadata);
    }
    if a.dictionary.Some? {
      TypesEqualImpliesStructure(a.dictionary.value, b.dictionary.value, checkNames, checkMetadata);
    }
  }

  lemma {:induction false} MetadataIsExtra(a: ArrowSchema, b: ArrowSchema, checkMetadata: bool)
    requires TypesEqual(a, b, true, checkMetadata)
    ensures TypesEqual(a, b, true, false)
    decreases a
  {
    forall i | 0 <= i < |a.children| ensures TypesEqual(a.children[i], b.children[i], true, false) {
      MetadataIsExtra(a.children[i], b.children[i], checkMetadata);
    }
    if a.dictionary.Some? { MetadataIsExtra(a.dictionary.value, b.dictionary.value, checkMetadata); }
  }

  lemma {:induction false} TypesEqualImpliesDataTypes(a: ArrowSchema, b: ArrowSchema, checkMetadata: bool)
    requires TypesEqual(a, b, true, checkMetadata)
    ensures DataTypesEqual(a, b)
    decreases a
  {
    forall i | 0 <= i < |a.children| ensures TypesEqual(a.children[i], b.children[i], true, false) {
      MetadataIsExtra(a.children[i], b.children[i], checkMetadata);
    }
    if a.dictionary.Some? { TypesEqualImpliesDataTypes(a.dictionary.value, b.dictionary.value, checkMetadata); }
  }

  lemma {:induction false} DataTypesImplyStructure(a: ArrowSchema, b: ArrowSchema)
    requires DataTypesEqual(a, b)
    ensures SameTypeStructure(a, b)
    decreases a
  {
    forall i | 0 <= i < |a.children| ensures SameTypeStructure(a.children[i], b.children[i]) {
      TypesEqualImpliesStructure(a.children[i], b.children[i], true, false);
    }
    if a.dictionary.Some? { DataTypesImplyStructure(a.dictionary.value, b.dictionary.value); }
  }

  /** Every type in the tree is one nanoarrow can read. */
  predicate AllSupported(lib: Library, s: ArrowSchema)
    decreases s
  {
    ViewOf(lib, s).Some? &&
    (forall i :: 0 <= i < |s.children| ==> AllSupported(lib, s.children[i])) &&
    (s.dictionary.Some? ==> AllSupported(lib, s.dictionary.value))
  }

  /** The same structure is the same layout, unless a type in either tree is unsupported. */
  lemma {:induction false} StructureImpliesLayout(lib: Library, a: ArrowSchema, b: ArrowSchema)
    requires SameTypeStructure(a, b)
    ensures SameLayout(lib, a, b) == if AllSupported(lib, a) && AllSupported(lib, b) then Yes else Unsupported
    decreases a, 1
  {
    if ViewOf(lib, a).Some? && ViewOf(lib, b).Some? {
      ChildrenImplyLayout(lib, a, b, |a.children|);
      if a.dictionary.Some? { StructureImpliesLayout(lib, a.dictionary.value, b.dictionary.value); }
    }
  }

  lemma {:induction false} ChildrenImplyLayout(lib: Library, a: ArrowSchema, b: ArrowSchema, n: nat)
    requires SameTypeStructure(a, b) && n <= |a.children|
    ensures SameChildLayouts(lib, a, b, n) ==
      if forall i :: 0 <= i < n ==> AllSupported(lib, a.children[i]) && AllSupported(lib, b.children[i]) then Yes
      else Unsupported
    decreases a, 0, n
  {
    if n > 0 {
      ChildrenImplyLayout(lib, a, b, n - 1);
      StructureImpliesLayout(lib, a.children[n - 1], b.children[n - 1]);
    }
  }

  /** The whole chain: equal types, name checks included, never differ in any of the weaker senses. */
  lemma {:induction false} EqualTypesChain(lib: Library, a: ArrowSchema, b: ArrowSchema, checkMetadata: bool)
    requires TypesEqual(a, b, true, checkMetadata)
    ensures DataTypesEqual(a, b) && SameTypeStructure(a, b) && SameLayout(lib, a, b) != No
    ensures AllSupported(lib, a) && AllSupported(lib, b) ==> SameLayout(lib, a, b) == Yes
  {
    TypesEqualImpliesDataTypes(a, b, checkMetadata);
    DataTypesImplyStructure(a, b);
    StructureImpliesLayout(lib, a, b);
  }

  /** Without the name check, TypesEqual does not imply DataTypesEqual. */
  lemma {:induction false} NamesMatterForDataTypes() returns (a: ArrowSchema, b: ArrowSchema)
    ensures TypesEqual(a, b, false, false) && !DataTypesEqual(a, b)
  {
    var x := ArrowSchema("i", "x", true, false, false, [], [], None);
    var y := x.(name := "y");
    a := ArrowSchema("+s", "", true, false, false, [], [x], None);
    b := a.(children := [y]);
    assert !TypesEqual(a.children[0], b.children[0], true, false);
  }

  // ---------------------------------------------------------------------------------------------
  // The guard on worker batches
  // ---------------------------------------------------------------------------------------------

  /** Column by column, what was expected; a column the bind schema does not know is not checked. */
  predicate Conforms(fields: seq<ArrowSchema>, expected: seq<Option<ArrowSchema>>) {
    |fields| == |expected| &&
    forall i :: 0 <= i < |fields| && expected[i].Some? ==> SameTypeStructure(fields[i], expected[i].value)
  }

  method ValidateWireBatchTypes(fields: seq<ArrowSchema>, expected: seq<Option<ArrowSchema>>) returns (ok: bool)
    ensures ok <==> Conforms(fields, expected)
  {
    if |fields| != |expected| { return false; }
    for i := 0 to |expected|
      invariant forall j :: 0 <= j < i && expected[j].Some? ==> SameTypeStructure(fields[j], expected[j].value)
    {
      if expected[i].Some? && !SameTypeStructure(fields[i], expected[i].value) { return false; }
    }
    return true;
  }

  /** The declared column a batch column stands for. */
  function ExpectedAt(declared: seq<ArrowSchema>, projection: seq<int>, i: nat): Option<ArrowSchema> {
    if projection == [] then (if i < |declared| then Some(declared[i]) else None)
    else if i < |projection| && 0 <= projection[i] < |declared| then Some(declared[projection[i]])
    else None
  }

  method ValidateProjectedWireBatch(
    checking: bool, fields: seq<ArrowSchema>, declared: Option<seq<ArrowSchema>>, projection: seq<int>)
    returns (ok: bool)
    ensures !checking || declared.None? ==> ok
    ensures checking && declared.Some? ==>
      (ok <==>
         |fields| == (if projection == [] then |declared.value| else |projection|) &&
         forall i :: 0 <= i < |fields| && ExpectedAt(declared.value, projection, i).Some? ==>
           SameTypeStructure(fields[i], ExpectedAt(declared.value, projection, i).value))
  {
    if declared.None? || !checking { return true; }
    var columns := declared.value;
    var expected: seq<Option<ArrowSchema>> := [];
    if projection == [] {
      for i := 0 to |columns|
        invariant |expected| == i && forall j :: 0 <= j < i ==> expected[j] == ExpectedAt(columns, projection, j)
      {
        expected := expected + [Some(columns[i])];
      }
    } else {
      for i := 0 to |projection|
        invariant |expected| == i && forall j :: 0 <= j < i ==> expected[j] == ExpectedAt(columns, projection, j)
      {
        var original := projection[i];
        expected := expected + [if original >= 0 && original < |columns| then Some(columns[original]) else None];
      }
    }
    ok := ValidateWireBatchTypes(fields, expected);
  }
}
