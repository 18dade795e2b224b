/**
 Reconciling a batch with the schema the query expects (`ReconcileBatchToSchema` in
 src/vgi_arrow_utils.cpp): a batch is kept, relabelled or rebuilt. Keeping the buffers agrees with
 conversion, and a batch that passed the guard against its bind types is never rebuilt.
 */
module Reconcile {
  import opened Arrow
  import opened Batches
  import opened Builders
  import opened Conversion
  import opened Options
  import opened RowEngine
  import opened SchemaTypes

  /** What ArrowArrayInitFromSchema can make a builder for. */
  predicate Buildable(lib: Library, t: ArrowSchema)
    decreases t
  {
    ViewOf(lib, t).Some? &&
    (t.dictionary.Some? ==> Buildable(lib, t.dictionary.value)) &&
    (t.dictionary.None? && Listing(ViewOf(lib, t).value.kind) ==> |t.children| == 1) &&
    forall c :: 0 <= c < |t.children| ==> Buildable(lib, t.children[c])
  }

  /** The largest index a dictionary's index type holds. */
  function LargestIndex(storage: Kind): nat {
    if Unsigned(storage) then 2 * HalfRange(storage) - 1 else HalfRange(storage) - 1
  }

  /** The largest offset of a string, binary or list column; views and fixed-size binary have none to overflow. */
  function LargestOffset(k: Kind): nat {
    if k.String? || k.Binary? || k.ListKind? || k.MapKind? then 0x7FFF_FFFF else 0x7FFF_FFFF_FFFF_FFFF
  }

  function LayoutFor(lib: Library, t: ArrowSchema): Layout
    requires Buildable(lib, t)
    decreases t
  {
    var dv := ViewOf(lib, t).value;
    if t.dictionary.Some? then DictionaryLayout(LargestIndex(dv.storage), LayoutFor(lib, t.dictionary.value))
    else if dv.kind.StructKind? then
      StructLayout(seq(|t.children|, c requires 0 <= c < |t.children| => LayoutFor(lib, t.children[c])))
    else if dv.kind.FixedSizeListKind? then FixedListLayout(dv.fixedSize, LayoutFor(lib, t.children[0]))
    else if Listing(dv.kind) then ListLayout(LargestOffset(dv.kind), LayoutFor(lib, t.children[0]))
    else if dv.kind.NaKind? then NaLayout
    else if Slotted(dv.kind) then FixedLayout
    else if Textual(dv.kind) then VariableLayout(LargestOffset(dv.kind))
    else OtherLayout
  }

  lemma {:induction false} BuilderMatches(lib: Library, t: ArrowSchema)
    requires Buildable(lib, t)
    ensures Matches(lib, t, SkeletonOf(EmptyOf(LayoutFor(lib, t))))
    decreases t
  {
    var dv, d := ViewOf(lib, t).value, EmptyOf(LayoutFor(lib, t));
    if t.dictionary.None? {
      if dv.kind.StructKind? {
        forall c | 0 <= c < |t.children| ensures Matches(lib, t.children[c], SkeletonOf(d).children[c]) {
          BuilderMatches(lib, t.children[c]);
          assert SkeletonOf(d).children[c] == SkeletonOf(d.node.children[c]);
        }
      } else if Listing(dv.kind) {
        BuilderMatches(lib, t.children[0]);
      }
    }
  }

  predicate SchemasEqual(fields: seq<ArrowSchema>, target: seq<ArrowSchema>) {
    |fields| == |target| && forall c :: 0 <= c < |fields| ==> TypesEqual(fields[c], target[c], true, false)
  }

  /** The relabel decision over the first `n` columns: it ends at the first that does not answer yes. */
  function Layouts(lib: Library, fields: seq<ArrowSchema>, target: seq<ArrowSchema>, n: nat): Verdict
    requires n <= |fields| == |target|
  {
    if n == 0 then Yes
    else
      var before := Layouts(lib, fields, target, n - 1);
      if before.Yes? then SameLayout(lib, fields[n - 1], target[n - 1]) else before
  }

  lemma {:induction false} LayoutsAt(lib: Library, fields: seq<ArrowSchema>, target: seq<ArrowSchema>, n: nat)
    requires n <= |fields| == |target|
    ensures Layouts(lib, fields, target, n).Yes? <==> forall c :: 0 <= c < n ==> SameLayout(lib, fields[c], target[c]).Yes?
    ensures Layouts(lib, fields, target, n).No? ==> exists c :: 0 <= c < n && SameLayout(lib, fields[c], target[c]).No?
  {
    if n > 0 { LayoutsAt(lib, fields, target, n - 1); }
  }

  /** A batch whose columns are of the given types. */
  ghost predicate HasTypes(lib: Library, batch: Batch, fields: seq<ArrowSchema>) {
    |batch.columns| == |fields| && ValidBatch(batch) &&
    forall c :: 0 <= c < |fields| ==> Stores(lib, fields[c], batch.columns[c])
  }

  /** Every slot that converting the batch element by element reads exists. */
  predicate ReadyToConvert(lib: Library, batch: Batch, fields: seq<ArrowSchema>, target: seq<ArrowSchema>) {
    |fields| == |target| == |batch.columns| &&
    forall c :: 0 <= c < |fields| ==>
      ItemsInBounds(lib, fields[c], target[c], Column(batch.columns[c], 0), 0, batch.numRows)
  }

  /** Types under which that is so for every batch: a struct wherever a struct of as many fields is wanted. */
  lemma {:induction false} SameShapesAreReady(lib: Library, batch: Batch, fields: seq<ArrowSchema>, target: seq<ArrowSchema>)
    requires HasTypes(lib, batch, fields) && |fields| == |target|
    requires forall c :: 0 <= c < |fields| ==> SameShape(lib, fields[c], target[c])
    ensures ReadyToConvert(lib, batch, fields, target)
  {
    forall c, k: nat | 0 <= c < |fields| && k < batch.numRows
      ensures InBounds(lib, fields[c], target[c], Column(batch.columns[c], 0), k)
    {
      assert Readable(batch.columns[c], k);
      ReadableInBounds(lib, fields[c], target[c], Column(batch.columns[c], 0), k);
    }
  }

  /** Reading any cell for its target type shows its value. */
  predicate AllReadTrue(lib: Library, batch: Batch, fields: seq<ArrowSchema>, target: seq<ArrowSchema>)
    requires ReadyToConvert(lib, batch, fields, target)
  {
    forall c :: 0 <= c < |fields| ==>
      ItemsReadTrue(lib, fields[c], target[c], Column(batch.columns[c], 0), 0, batch.numRows)
  }

  /** The cells of a column as conversion reads them. */
  function SeenCells(lib: Library, b: Batch, fields: seq<ArrowSchema>, target: seq<ArrowSchema>, c: nat): (vs: seq<Value>)
    requires ReadyToConvert(lib, b, fields, target) && c < |fields|
    ensures |vs| == b.numRows
  {
    SeenItems(lib, fields[c], target[c], Column(b.columns[c], 0), 0, b.numRows)
  }

  datatype Reconciled = Unchanged | Relabelled | Rebuilt(batch: Batch) | Failed

  predicate SameSize(batch: Batch, fields: seq<ArrowSchema>, target: seq<ArrowSchema>, result: Batch) {
    |fields| == |target| == |batch.columns| == |result.columns| && result.numRows == batch.numRows
  }

  /** Whatever conversion would make of a cell, the result has. */
  predicate CellAgrees(lib: Library, fl: Floats, batch: Batch, fields: seq<ArrowSchema>, target: seq<ArrowSchema>,
                       result: Batch, c: nat, k: nat)
    requires SameSize(batch, fields, target, result) && c < |fields| && k < batch.numRows
  {
    var v := Convert(lib, fl, fields[c], target[c], Cells(batch, c)[k]);
    v.Some? ==> Cells(result, c)[k] == v.value
  }

  ghost predicate Agrees(lib: Library, fl: Floats, batch: Batch, fields: seq<ArrowSchema>, target: seq<ArrowSchema>,
                         result: Batch) {
    SameSize(batch, fields, target, result) &&
    forall c, k :: 0 <= c < |fields| && 0 <= k < batch.numRows ==>
      CellAgrees(lib, fl, batch, fields, target, result, c, k)
  }

  predicate CellConverted(lib: Library, fl: Floats, batch: Batch, fields: seq<ArrowSchema>, target: seq<ArrowSchema>,
                          result: Batch, c: nat, k: nat)
    requires SameSize(batch, fields, target, result) && c < |fields| && k < batch.numRows
  {
    Convert(lib, fl, fields[c], target[c], Cells(batch, c)[k]) == Some(Cells(result, c)[k])
  }

  predicate ColumnConverted(lib: Library, fl: Floats, batch: Batch, fields: seq<ArrowSchema>, target: seq<ArrowSchema>,
                            result: Batch, c: nat)
    requires SameSize(batch, fields, target, result) && c < |fields|
  {
    forall k :: 0 <= k < batch.numRows ==> CellConverted(lib, fl, batch, fields, target, result, c, k)
  }

  /** The result is what conversion makes of every cell. */
  predicate IsConversion(lib: Library, fl: Floats, batch: Batch, fields: seq<ArrowSchema>, target: seq<ArrowSchema>,
                         result: Batch) {
    SameSize(batch, fields, target, result) &&
    forall c :: 0 <= c < |fields| ==> ColumnConverted(lib, fl, batch, fields, target, result, c)
  }

  /** Keeping the buffers agrees with conversion if every column's type agrees with its target. */
  lemma {:induction false} KeepingAgrees(lib: Library, fl: Floats, batch: Batch, fields: seq<ArrowSchema>,
                                         target: seq<ArrowSchema>)
    requires HasTypes(lib, batch, fields) && |fields| == |target| && Exact(fl)
    requires forall c :: 0 <= c < |fields| ==> Alike(lib, fields[c], target[c])
    ensures Agrees(lib, fl, batch, fields, target, batch)
  {
    forall c, k | 0 <= c < |fields| && 0 <= k < batch.numRows
      ensures CellAgrees(lib, fl, batch, fields, target, batch, c, k)
    {
      StoredTyped(lib, fields[c], batch.columns[c], k);
      if Convert(lib, fl, fields[c], target[c], Cells(batch, c)[k]).Some? {
        ConvertIsIdentity(lib, fl, fields[c], target[c], Cells(batch, c)[k]);
      }
    }
  }

  /** The type can be built, every value converts, and the offsets reach as far as the converted values ask. */
  predicate ColumnConverts(lib: Library, fl: Floats, s: ArrowSchema, t: ArrowSchema, vs: seq<Value>) {
    Buildable(lib, t) && AllConvert(lib, fl, s, t, vs) && Room(EmptyOf(LayoutFor(lib, t)), Converted(lib, fl, s, t, vs))
  }

  /** One column, row by row into a builder of the target type. */
  method ConvertColumn(lib: Library, fl: Floats, a: Array, s: ArrowSchema, t: ArrowSchema, rows: nat)
    returns (r: Option<Array>)
    requires Stores(lib, s, a) && ItemsInBounds(lib, s, t, Column(a, 0), 0, rows)
    ensures r.Some? <==> ColumnConverts(lib, fl, s, t, SeenItems(lib, s, t, Column(a, 0), 0, rows))
    ensures r.Some? ==>
      AllReadable(r.value, 0, rows) &&
      Rows(r.value, 0, rows) == Converted(lib, fl, s, t, SeenItems(lib, s, t, Column(a, 0), 0, rows))
  {
    if !Buildable(lib, t) { return None; }
    var d := EmptyOf(LayoutFor(lib, t));
    EmptyOfOk(LayoutFor(lib, t));
    BuilderMatches(lib, t);
    r := AppendConvertedItems(lib, fl, d, t, Column(a, 0), s, 0, rows);
  }

  predicate Converts(lib: Library, fl: Floats, batch: Batch, fields: seq<ArrowSchema>, target: seq<ArrowSchema>, c: nat)
    requires ReadyToConvert(lib, batch, fields, target) && c < |fields|
  {
    ColumnConverts(lib, fl, fields[c], target[c], SeenCells(lib, batch, fields, target, c))
  }

  /** Every column of `result` is the conversion of the batch's, as read. */
  ghost predicate AllConverted(lib: Library, fl: Floats, batch: Batch, fields: seq<ArrowSchema>,
                               target: seq<ArrowSchema>, result: Batch) {
    SameSize(batch, fields, target, result) && ReadyToConvert(lib, batch, fields, target) &&
    forall c :: 0 <= c < |fields| ==>
      Converts(lib, fl, batch, fields, target, c) &&
      Cells(result, c) == Converted(lib, fl, fields[c], target[c], SeenCells(lib, batch, fields, target, c))
  }

  method ConvertColumns(lib: Library, fl: Floats, batch: Batch, fields: seq<ArrowSchema>, target: seq<ArrowSchema>)
    returns (r: Option<Batch>)
    requires HasTypes(lib, batch, fields) && ReadyToConvert(lib, batch, fields, target)
    ensures r.Some? ==> AllConverted(lib, fl, batch, fields, target, r.value)
    ensures r.None? ==> exists c :: 0 <= c < |fields| && !Converts(lib, fl, batch, fields, target, c)
  {
    var columns: seq<Array> := [];
    for c := 0 to |fields|
      invariant |columns| == c
      invariant forall j :: 0 <= j < c ==>
        Converts(lib, fl, batch, fields, target, j) &&
        Rows(columns[j], 0, batch.numRows) == Converted(lib, fl, fields[j], target[j], SeenCells(lib, batch, fields, target, j))
    {
      var column := ConvertColumn(lib, fl, batch.columns[c], fields[c], target[c], batch.numRows);
      if column.None? {
        assert !Converts(lib, fl, batch, fields, target, c);
        return None;
      }
      columns := columns + [column.value];
    }
    r := Some(Batch(batch.numRows, columns));
  }

  /** One cell of a rebuilt column: what its value converts to, exactly if reading it shows that value. */
  lemma {:induction false} RebuiltCell(lib: Library, fl: Floats, batch: Batch, fields: seq<ArrowSchema>,
                                       target: seq<ArrowSchema>, result: Batch, c: nat, k: nat)
    requires HasTypes(lib, batch, fields) && AllConverted(lib, fl, batch, fields, target, result)
    requires c < |fields| && k < batch.numRows
    ensures InBounds(lib, fields[c], target[c], Column(batch.columns[c], 0), k)
    ensures CellConverted(lib, fl, batch, fields, target, result, c, k) <==>
      ReadsTrue(lib, fields[c], target[c], Column(batch.columns[c], 0), k)
  {
    var src := Column(batch.columns[c], 0);
    ItemSeen(lib, fields[c], target[c], src, 0, batch.numRows, k);
    assert Converts(lib, fl, batch, fields, target, c);
    ReadAgreesIff(lib, fl, fields[c], target[c], src, k);
    assert Cells(batch, c)[k] == src.Value(k);
  }

  lemma {:induction false} RebuiltColumn(lib: Library, fl: Floats, batch: Batch, fields: seq<ArrowSchema>,
                                         target: seq<ArrowSchema>, result: Batch, c: nat)
    requires HasTypes(lib, batch, fields) && AllConverted(lib, fl, batch, fields, target, result) && c < |fields|
    ensures ItemsInBounds(lib, fields[c], target[c], Column(batch.columns[c], 0), 0, batch.numRows)
    ensures ColumnConverted(lib, fl, batch, fields, target, result, c) <==>
      ItemsReadTrue(lib, fields[c], target[c], Column(batch.columns[c], 0), 0, batch.numRows)
  {
    if ColumnConverted(lib, fl, batch, fields, target, result, c) {
      forall k: nat | k < batch.numRows ensures ReadsTrue(lib, fields[c], target[c], Column(batch.columns[c], 0), k) {
        RebuiltCell(lib, fl, batch, fields, target, result, c, k);
      }
    }
    if ItemsReadTrue(lib, fields[c], target[c], Column(batch.columns[c], 0), 0, batch.numRows) {
      forall k: nat | k < batch.numRows ensures CellConverted(lib, fl, batch, fields, target, result, c, k) {
        RebuiltCell(lib, fl, batch, fields, target, result, c, k);
      }
    }
  }

  /** A rebuilt batch is the conversion of its decoded cells exactly if reading each cell shows its value. */
  lemma {:induction false} RebuildingAgreesIff(lib: Library, fl: Floats, batch: Batch, fields: seq<ArrowSchema>,
                                               target: seq<ArrowSchema>, result: Batch)
    requires HasTypes(lib, batch, fields) && AllConverted(lib, fl, batch, fields, target, result)
    ensures IsConversion(lib, fl, batch, fields, target, result) <==> AllReadTrue(lib, batch, fields, target)
  {
    forall c: nat | c < |fields|
      ensures ColumnConverted(lib, fl, batch, fields, target, result, c) <==>
        ItemsReadTrue(lib, fields[c], target[c], Column(batch.columns[c], 0), 0, batch.numRows)
    {
      RebuiltColumn(lib, fl, batch, fields, target, result, c);
    }
  }

  lemma {:induction false} EqualSchemasKeep(lib: Library, fl: Floats, batch: Batch, fields: seq<ArrowSchema>,
                                            target: seq<ArrowSchema>)
    requires HasTypes(lib, batch, fields) && SchemasEqual(fields, target) && Exact(fl)
    ensures Agrees(lib, fl, batch, fields, target, batch)
  {
    forall c | 0 <= c < |fields| ensures Alike(lib, fields[c], target[c]) {
      TypesEqualImpliesStructure(fields[c], target[c], true, false);
      StructureIsAlike(lib, fields[c], target[c]);
    }
    KeepingAgrees(lib, fl, batch, fields, target);
  }

  lemma {:induction false} SameLayoutsKeep(lib: Library, fl: Floats, batch: Batch, fields: seq<ArrowSchema>,
                                           target: seq<ArrowSchema>)
    requires HasTypes(lib, batch, fields) && |fields| == |target| && Exact(fl)
    requires Layouts(lib, fields, target, |fields|).Yes?
    ensures Agrees(lib, fl, batch, fields, target, batch)
  {
    LayoutsAt(lib, fields, target, |fields|);
    forall c | 0 <= c < |fields| ensures Alike(lib, fields[c], target[c]) {
      LayoutIsAlike(lib, fields[c], target[c]);
    }
    KeepingAgrees(lib, fl, batch, fields, target);
  }

  /** The decision to convert: some column has another layout than its target. */
  predicate MustConvert(lib: Library, fields: seq<ArrowSchema>, target: seq<ArrowSchema>) {
    !SchemasEqual(fields, target) && |fields| == |target| && Layouts(lib, fields, target, |fields|).No?
  }

  /**
   A batch whose buffers are kept has what converting each cell would give, wherever that conversion
   succeeds; a rebuilt one is the conversion of every cell exactly if reading each shows its value. The
   buffers are kept exactly if the schemas are equal or every column has the layout of its target; a batch is
   rebuilt only over a column that has not, and fails only over a column count, an unsupported type, a
   cell that does not convert or an offset that overflows.
   */
  method ReconcileBatchToSchema(lib: Library, fl: Floats, batch: Batch, fields: seq<ArrowSchema>,
                                target: seq<ArrowSchema>)
    returns (r: Reconciled)
    requires HasTypes(lib, batch, fields) && Exact(fl)
    requires MustConvert(lib, fields, target) ==> ReadyToConvert(lib, batch, fields, target)
    ensures r.Unchanged? || r.Relabelled? ==> Agrees(lib, fl, batch, fields, target, batch)
    ensures r.Rebuilt? ==> MustConvert(lib, fields, target) && AllConverted(lib, fl, batch, fields, target, r.batch)
    ensures r.Rebuilt? ==>
      (IsConversion(lib, fl, batch, fields, target, r.batch) <==> AllReadTrue(lib, batch, fields, target))
    ensures r.Unchanged? <==> SchemasEqual(fields, target)
    ensures r.Relabelled? <==>
      (!SchemasEqual(fields, target) && |fields| == |target| &&
       forall c :: 0 <= c < |fields| ==> SameLayout(lib, fields[c], target[c]).Yes?)
    ensures r.Failed? && |fields| == |target| ==>
      Layouts(lib, fields, target, |fields|).Unsupported? ||
      (MustConvert(lib, fields, target) && exists c :: 0 <= c < |fields| && !Converts(lib, fl, batch, fields, target, c))
  {
    if SchemasEqual(fields, target) {
      EqualSchemasKeep(lib, fl, batch, fields, target);
      return Unchanged;
    }
    if |fields| != |target| { return Failed; }
    var relabel := Layouts(lib, fields, target, |fields|);
    LayoutsAt(lib, fields, target, |fields|);
    if relabel.Unsupported? { return Failed; }
    if relabel.Yes? {
      SameLayoutsKeep(lib, fl, batch, fields, target);
      return Relabelled;
    }
    var rebuilt := ConvertColumns(lib, fl, batch, fields, target);
    if rebuilt.None? { return Failed; }
    RebuildingAgreesIff(lib, fl, batch, fields, target, rebuilt.value);
    r := Rebuilt(rebuilt.value);
  }

  lemma {:induction false} GuardedLayouts(lib: Library, fields: seq<ArrowSchema>, declared: seq<ArrowSchema>, n: nat)
    requires n <= |fields| == |declared| && forall c :: 0 <= c < |fields| ==> SameTypeStructure(fields[c], declared[c])
    ensures !Layouts(lib, fields, declared, n).No?
    ensures (forall c :: 0 <= c < n ==> AllSupported(lib, fields[c]) && AllSupported(lib, declared[c])) ==>
      Layouts(lib, fields, declared, n).Yes?
  {
    if n > 0 {
      GuardedLayouts(lib, fields, declared, n - 1);
      StructureImpliesLayout(lib, fields[n - 1], declared[n - 1]);
    }
  }

  /** The schema the scan is reconciled to: the declared columns, as projected. */
  predicate Projects(declared: seq<ArrowSchema>, projection: seq<int>, target: seq<ArrowSchema>) {
    |target| == (if projection == [] then |declared| else |projection|) &&
    forall c :: 0 <= c < |target| ==> ExpectedAt(declared, projection, c) == Some(target[c])
  }

  /**
   The guard, then reconciliation to the projected bind schema: a batch that passes is never rebuilt,
   and with the bind types supported it keeps its buffers.
   */
  method ReconcileGuarded(lib: Library, fl: Floats, batch: Batch, fields: seq<ArrowSchema>,
                          declared: seq<ArrowSchema>, projection: seq<int>, target: seq<ArrowSchema>)
    returns (ok: bool, r: Reconciled)
    requires HasTypes(lib, batch, fields) && Exact(fl) && Projects(declared, projection, target)
    ensures ok <==> |fields| == |target| && forall c :: 0 <= c < |fields| ==> SameTypeStructure(fields[c], target[c])
    ensures ok ==> !r.Rebuilt?
    ensures ok && (forall c :: 0 <= c < |target| ==> AllSupported(lib, target[c])) ==> r.Unchanged? || r.Relabelled?
  {
    ok := ValidateProjectedWireBatch(true, fields, Some(declared), projection);
    if !ok { return false, Failed; }
    forall c | 0 <= c < |fields| ensures SameTypeStructure(fields[c], target[c]) && AllSupported(lib, fields[c]) {
      assert ExpectedAt(declared, projection, c) == Some(target[c]);
      StoredSupported(lib, fields[c], batch.columns[c]);
    }
    GuardedLayouts(lib, fields, target, |fields|);
    LayoutsAt(lib, fields, target, |fields|);
    r := ReconcileBatchToSchema(lib, fl, batch, fields, target);
  }
}
