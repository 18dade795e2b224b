/**
 Record batches: row gather, concatenation, zero-copy slices and column selection, from
 src/vgi_arrow.cpp.
 */
module Batches {
  import opened Arrow
  import opened Builders
  import opened Options
  import opened RowEngine

  datatype Batch = Batch(numRows: nat, columns: seq<Array>)

  /** The cell values of a batch, column by column. */
  function Cells(b: Batch, c: nat): (vs: seq<Value>)
    requires c < |b.columns|
    ensures |vs| == b.numRows
  {
    Rows(b.columns[c], 0, b.numRows)
  }

  /** A batch whose buffers were validated: every row and every dictionary can be read. */
  predicate ValidBatch(b: Batch) {
    forall c :: 0 <= c < |b.columns| ==> AllReadable(b.columns[c], 0, b.numRows) && DictionariesReadable(SkeletonOf(b.columns[c]))
  }

  /** An empty builder for a schema's layout. */
  function EmptyOf(l: Layout): (r: Array)
    decreases l
  {
    Array(0, 0, [],
          match l
          case NaLayout => Na
          case FixedLayout => Fixed([])
          case VariableLayout(limit) => Variable(limit, [0], [])
          case StructLayout(children) =>
            Struct(seq(|children|, c requires 0 <= c < |children| => EmptyOf(children[c])))
          case ListLayout(limit, items) => List(limit, [0], EmptyOf(items))
          case FixedListLayout(size, elements) => FixedList(size, EmptyOf(elements))
          case DictionaryLayout(maxIndex, values) => Dictionary(maxIndex, [], EmptyOf(values))
          case OtherLayout => Other)
  }

  lemma {:induction false} EmptyOfOk(l: Layout)
    ensures Building(EmptyOf(l)) && LayoutOf(EmptyOf(l)) == l && EmptyDictionaries(SkeletonOf(EmptyOf(l)))
    ensures DictionariesReadable(SkeletonOf(EmptyOf(l)))
    decreases l
  {
    match l
    case StructLayout(children) =>
      forall c | 0 <= c < |children| { EmptyOfOk(children[c]); }
      assert LayoutOf(EmptyOf(l)).children == children;
    case ListLayout(_, items) => EmptyOfOk(items);
    case FixedListLayout(_, elements) => EmptyOfOk(elements);
    case DictionaryLayout(_, values) => EmptyOfOk(values);
    case _ =>
  }

  /** Preparing dictionaries changes nothing about the room for rows. */
  lemma {:induction false} RoomCarries(d: Array, r: Array, vs: seq<Value>)
    requires LayoutOf(d) == LayoutOf(r) && ExtentOf(d) == ExtentOf(r) && Room(d, vs)
    ensures Room(r, vs)
  {
    LayoutFits(d, r, PlusAll(ExtentOf(d), vs));
  }

  /** Supported types, and dictionaries that have room beside those of `d` and can still be named. */
  predicate AppendableTo(d: Array, a: Array) {
    Supported(a) && FlatDictionaries(a) && TogetherFit(SkeletonOf(d), a) && DictionariesRoom(SkeletonOf(d), a)
  }

  /** Appends one element of a column, dictionaries first. */
  method AppendElement(d: Array, src: Column, row: nat) returns (r: Option<Array>)
    requires Building(d) && LayoutOf(d) == LayoutOf(src.base) && DictionariesReadable(SkeletonOf(src.base)) && src.CanRead(row)
    ensures r.Some? ==> Building(r.value) && Extends(d, r.value) && r.value.length == d.length + 1
    ensures r.Some? ==> At(r.value, d.length) == src.Value(row)
    ensures AppendableTo(d, src.base) && Room(d, [src.Value(row)]) ==> r.Some?
  {
    var prepared, offs := PrepareDictionaries(d, src.base, map[], []);
    if prepared.None? { return None; }
    if TogetherFit(SkeletonOf(d), src.base) {
      GrownFit(SkeletonOf(d), src.base, SkeletonOf(prepared.value), offs, []);
      MergedIndicesFit(SkeletonOf(prepared.value), src.base, offs, []);
    }
    assert Pick(src, [row]) == [src.Value(row)];
    if Room(d, [src.Value(row)]) { RoomCarries(d, prepared.value, [src.Value(row)]); }
    r := AppendRows(prepared.value, src, [row], offs, []);
    if r.Some? {
      assert At(r.value, d.length) == Rows(r.value, d.length, 1)[0];
    }
  }

  /** A fresh builder of the same layout has room for `vs`. */
  predicate FreshRoom(like: Array, vs: seq<Value>) {
    Room(EmptyOf(LayoutOf(like)), vs)
  }

  /** What it takes to gather rows of a column: supported types, and room for the rows and dictionaries. */
  predicate Takeable(src: Array, rows: seq<nat>) {
    Supported(src) && FlatDictionaries(src) && IndicesFit(src, map[], []) &&
    DictionariesRoom(SkeletonOf(EmptyOf(LayoutOf(src))), src) && FreshRoom(src, Pick(Column(src, 0), rows))
  }

  /** `r` is column `src`, row by row as listed. */
  ghost predicate TakenColumn(src: Array, rows: seq<nat>, r: Array) {
    LayoutOf(r) == LayoutOf(src) && DictionariesReadable(SkeletonOf(r)) && r.length == |rows| &&
    AllReadable(r, 0, |rows|) && Rows(r, 0, |rows|) == Pick(Column(src, 0), rows) &&
    FreshRoom(src, Pick(Column(src, 0), rows))
  }

  /** The column of `TakeRows`: gather into a fresh builder. */
  method TakeColumn(src: Array, rows: seq<nat>) returns (r: Option<Array>)
    requires DictionariesReadable(SkeletonOf(src)) && forall k :: 0 <= k < |rows| ==> Readable(src, rows[k])
    ensures r.Some? ==> TakenColumn(src, rows, r.value)
    ensures Takeable(src, rows) ==> r.Some?
  {
    var empty := EmptyOf(LayoutOf(src));
    EmptyOfOk(LayoutOf(src));
    var prepared, offs := PrepareDictionaries(empty, src, map[], []);
    if prepared.None? { return None; }
    if IndicesFit(src, map[], []) {
      FreshIndicesFit(SkeletonOf(empty), src, SkeletonOf(prepared.value), offs, []);
    }
    if Takeable(src, rows) { RoomCarries(empty, prepared.value, Pick(Column(src, 0), rows)); }
    r := AppendRows(prepared.value, Column(src, 0), rows, offs, []);
    if r.Some? {
      SkeletonLayout(prepared.value, r.value);
      RoomCarries(prepared.value, empty, Pick(Column(src, 0), rows));
    }
  }

  lemma {:induction false} TakenCells(b: Batch, rows: seq<nat>, r: Batch, c: nat)
    requires c < |b.columns| == |r.columns| && r.numRows == |rows| && TakenColumn(b.columns[c], rows, r.columns[c])
    requires forall k :: 0 <= k < |rows| ==> rows[k] < b.numRows
    ensures forall k :: 0 <= k < |rows| ==> Cells(r, c)[k] == Cells(b, c)[rows[k]]
  {
    forall k | 0 <= k < |rows| ensures Cells(r, c)[k] == Cells(b, c)[rows[k]] {
      assert Cells(r, c)[k] == Pick(Column(b.columns[c], 0), rows)[k];
    }
  }

  /** Row gather. Cell `k` of every result column is cell `rows[k]` of the source column. */
  method TakeRows(b: Batch, rows: seq<nat>) returns (r: Option<Batch>)
    requires ValidBatch(b) && forall k :: 0 <= k < |rows| ==> rows[k] < b.numRows
    ensures r.Some? ==> ValidBatch(r.value) && r.value.numRows == |rows| && |r.value.columns| == |b.columns|
    ensures r.Some? ==>
              forall c :: 0 <= c < |b.columns| ==>
                LayoutOf(r.value.columns[c]) == LayoutOf(b.columns[c]) && r.value.columns[c].length == |rows| &&
                forall k :: 0 <= k < |rows| ==> Cells(r.value, c)[k] == Cells(b, c)[rows[k]]
    ensures r.Some? ==>
              forall c :: 0 <= c < |b.columns| ==> FreshRoom(b.columns[c], Pick(Column(b.columns[c], 0), rows))
    ensures (forall c :: 0 <= c < |b.columns| ==> Takeable(b.columns[c], rows)) ==> r.Some?
  {
    var columns: seq<Array> := [];
    for c := 0 to |b.columns|
      invariant |columns| == c && forall i :: 0 <= i < c ==> TakenColumn(b.columns[i], rows, columns[i])
    {
      var column := TakeColumn(b.columns[c], rows);
      if column.None? { return None; }
      columns := columns + [column.value];
    }
    r := Some(Batch(|rows|, columns));
    forall c | 0 <= c < |b.columns| ensures forall k :: 0 <= k < |rows| ==> Cells(r.value, c)[k] == Cells(b, c)[rows[k]] {
      assert TakenColumn(b.columns[c], rows, columns[c]);
      TakenCells(b, rows, r.value, c);
    }
  }

  // ---------------------------------------------------------------------------------------------
  // Concatenation
  // ---------------------------------------------------------------------------------------------

  function SumDictionaries(cols: seq<Array>): nat
    requires forall i :: 0 <= i < |cols| ==> cols[i].node.Dictionary?
  {
    if cols == [] then 0
    else SumDictionaries(cols[..|cols| - 1]) + cols[|cols| - 1].node.dictionary.length
  }

  /** The entries of the dictionaries, end to end. */
  function JoinedEntries(cols: seq<Array>): (vs: seq<Value>)
    requires forall i :: 0 <= i < |cols| ==> cols[i].node.Dictionary?
  {
    if cols == [] then [] else
      var dict := cols[|cols| - 1].node.dictionary;
      JoinedEntries(cols[..|cols| - 1]) + Rows(dict, 0, dict.length)
  }

  predicate AllLike(cols: seq<Array>, l: Layout) {
    forall i :: 0 <= i < |cols| ==> LayoutOf(cols[i]) == l
  }

  function ChildrenAt(cols: seq<Array>, l: Layout, c: nat): (r: seq<Array>)
    requires l.StructLayout? && AllLike(cols, l) && c < |l.children|
    ensures |r| == |cols| && AllLike(r, l.children[c])
  {
    assert forall i :: 0 <= i < |cols| ==> |LayoutOf(cols[i]).children| == |l.children|;
    seq(|cols|, i requires 0 <= i < |cols| => assert LayoutOf(cols[i]).children[c] == l.children[c]; cols[i].node.children[c])
  }

  function ItemsOf(cols: seq<Array>, l: Layout): (r: seq<Array>)
    requires (l.ListLayout? || l.FixedListLayout?) && AllLike(cols, l)
    ensures |r| == |cols| && AllLike(r, if l.ListLayout? then l.items else l.elements)
  {
    seq(|cols|, i requires 0 <= i < |cols| =>
      if l.ListLayout? then assert LayoutOf(cols[i]) == l; cols[i].node.items
      else assert LayoutOf(cols[i]) == l; cols[i].node.elements)
  }

  /** All dictionaries of `cols` put together, node by node, have room and can be named by the index types. */
  predicate MergedFit(cols: seq<Array>, l: Layout)
    requires AllLike(cols, l)
    decreases l
  {
    match l
    case StructLayout(children) =>
      forall c :: 0 <= c < |children| ==> MergedFit(ChildrenAt(cols, l, c), children[c])
    case ListLayout(_, items) => MergedFit(ItemsOf(cols, l), items)
    case FixedListLayout(_, elements) => MergedFit(ItemsOf(cols, l), elements)
    case DictionaryLayout(maxIndex, values) =>
      (forall i :: 0 <= i < |cols| ==> LayoutOf(cols[i]) == l && cols[i].node.Dictionary?) &&
      SumDictionaries(cols) <= maxIndex + 1 && Room(EmptyOf(values), JoinedEntries(cols))
    case _ => true
  }

  /** The dictionaries of skeleton `s` are, by length, those of `cols` put together. */
  predicate HoldsSums(s: Skeleton, cols: seq<Array>, l: Layout)
    requires AllLike(cols, l)
    decreases l
  {
    match l
    case StructLayout(children) =>
      s.StructShape? && |s.children| == |children| &&
      forall c :: 0 <= c < |children| ==> HoldsSums(s.children[c], ChildrenAt(cols, l, c), children[c])
    case ListLayout(_, items) => s.ListShape? && HoldsSums(s.items, ItemsOf(cols, l), items)
    case FixedListLayout(_, elements) => s.FixedListShape? && HoldsSums(s.elements, ItemsOf(cols, l), elements)
    case DictionaryLayout(maxIndex, values) =>
      (forall i :: 0 <= i < |cols| ==> LayoutOf(cols[i]) == l && cols[i].node.Dictionary?) &&
      s.DictionaryShape? && s.maxIndex == maxIndex && s.dictionary.length == SumDictionaries(cols) &&
      LayoutOf(s.dictionary) == values && ExtentOf(s.dictionary) == PlusAll(ExtentOf(EmptyOf(values)), JoinedEntries(cols))
    case _ => !s.StructShape? && !s.ListShape? && !s.FixedListShape? && !s.DictionaryShape?
  }

  lemma {:induction false} EmptyHoldsSums(l: Layout)
    ensures HoldsSums(SkeletonOf(EmptyOf(l)), [], l)
    decreases l
  {
    match l
    case StructLayout(children) =>
      forall c | 0 <= c < |children|
        ensures HoldsSums(SkeletonOf(EmptyOf(l)).children[c], ChildrenAt([], l, c), children[c])
      {
        EmptyHoldsSums(children[c]);
        assert ChildrenAt([], l, c) == [];
      }
    case ListLayout(_, items) => EmptyHoldsSums(items); assert ItemsOf([], l) == [];
    case FixedListLayout(_, elements) => EmptyHoldsSums(elements); assert ItemsOf([], l) == [];
    case DictionaryLayout(_, values) => EmptyOfOk(values);
    case _ =>
  }

  lemma {:induction false} GrownHoldsSums(s: Skeleton, a: Array, t: Skeleton, cols: seq<Array>, l: Layout)
    requires AllLike(cols, l) && LayoutOf(a) == l && HoldsSums(s, cols, l) && DictionariesGrown(s, a, t)
    ensures AllLike(cols + [a], l) && HoldsSums(t, cols + [a], l)
    decreases l
  {
    match l
    case StructLayout(children) =>
      forall c | 0 <= c < |children|
        ensures HoldsSums(t.children[c], ChildrenAt(cols + [a], l, c), children[c])
      {
        assert LayoutOf(a).children[c] == children[c];
        GrownHoldsSums(s.children[c], a.node.children[c], t.children[c], ChildrenAt(cols, l, c), children[c]);
        assert ChildrenAt(cols + [a], l, c) == ChildrenAt(cols, l, c) + [a.node.children[c]];
      }
    case ListLayout(_, items) =>
      GrownHoldsSums(s.items, a.node.items, t.items, ItemsOf(cols, l), items);
      assert ItemsOf(cols + [a], l) == ItemsOf(cols, l) + [a.node.items];
    case FixedListLayout(_, elements) =>
      GrownHoldsSums(s.elements, a.node.elements, t.elements, ItemsOf(cols, l), elements);
      assert ItemsOf(cols + [a], l) == ItemsOf(cols, l) + [a.node.elements];
    case DictionaryLayout(_, values) =>
      assert (cols + [a])[..|cols|] == cols;
      PlusConcat(ExtentOf(EmptyOf(values)), JoinedEntries(cols), Rows(a.node.dictionary, 0, a.node.dictionary.length));
    case _ =>
  }

  lemma {:induction false} SumOfPrefix(cols: seq<Array>, n: nat)
    requires n <= |cols| && forall i :: 0 <= i < |cols| ==> cols[i].node.Dictionary?
    ensures SumDictionaries(cols[..n]) <= SumDictionaries(cols)
    decreases |cols|
  {
    if n < |cols| {
      SumOfPrefix(cols[..|cols| - 1], n);
      assert cols[..|cols| - 1][..n] == cols[..n];
    } else {
      assert cols[..n] == cols;
    }
  }

  lemma {:induction false} HeldDictionariesFit(s: Skeleton, cols: seq<Array>, n: nat, l: Layout)
    requires AllLike(cols, l) && n <= |cols| && HoldsSums(s, cols[..n], l) && MergedFit(cols, l)
    ensures DictionariesFit(s)
    decreases l
  {
    match l
    case StructLayout(children) =>
      forall c | 0 <= c < |children| ensures DictionariesFit(s.children[c]) {
        assert ChildrenAt(cols[..n], l, c) == ChildrenAt(cols, l, c)[..n];
        HeldDictionariesFit(s.children[c], ChildrenAt(cols, l, c), n, children[c]);
      }
    case ListLayout(_, items) =>
      assert ItemsOf(cols[..n], l) == ItemsOf(cols, l)[..n];
      HeldDictionariesFit(s.items, ItemsOf(cols, l), n, items);
    case FixedListLayout(_, elements) =>
      assert ItemsOf(cols[..n], l) == ItemsOf(cols, l)[..n];
      HeldDictionariesFit(s.elements, ItemsOf(cols, l), n, elements);
    case DictionaryLayout(_, _) => SumOfPrefix(cols, n);
    case _ =>
  }

  lemma {:induction false} EntriesOfPrefix(cols: seq<Array>, n: nat)
    requires n <= |cols| && forall i :: 0 <= i < |cols| ==> cols[i].node.Dictionary?
    ensures JoinedEntries(cols[..n]) <= JoinedEntries(cols)
    decreases |cols|
  {
    if n < |cols| {
      EntriesOfPrefix(cols[..|cols| - 1], n);
      assert cols[..|cols| - 1][..n] == cols[..n];
    } else {
      assert cols[..n] == cols;
    }
  }

  lemma {:induction false} DictionaryRoom(s: Skeleton, cols: seq<Array>, n: nat, l: Layout)
    requires l.DictionaryLayout? && AllLike(cols, l) && n < |cols| && HoldsSums(s, cols[..n], l) && MergedFit(cols, l)
    ensures cols[n].node.Dictionary? && DictionariesRoom(s, cols[n])
  {
    var dict, empty := cols[n].node.dictionary, EmptyOf(l.values);
    assert cols[..n + 1][..n] == cols[..n];
    EmptyOfOk(l.values);
    EntriesOfPrefix(cols, n + 1);
    var joined := JoinedEntries(cols[..n + 1]);
    assert JoinedEntries(cols)[..|joined|] == joined;
    FitsPrefix(SkeletonOf(empty), ExtentOf(empty), JoinedEntries(cols), |joined|);
    PlusConcat(ExtentOf(empty), JoinedEntries(cols[..n]), Rows(dict, 0, dict.length));
    LayoutFits(empty, s.dictionary, PlusAll(ExtentOf(empty), joined));
  }

  /** With the first `n` merged, the next one's dictionaries still have room. */
  lemma {:induction false} HeldDictionariesRoom(s: Skeleton, cols: seq<Array>, n: nat, l: Layout)
    requires AllLike(cols, l) && n < |cols| && HoldsSums(s, cols[..n], l) && MergedFit(cols, l)
    ensures DictionariesRoom(s, cols[n])
    decreases l
  {
    assert LayoutOf(cols[n]) == l;
    match l
    case StructLayout(children) =>
      assert |LayoutOf(cols[n]).children| == |children|;
      forall c | 0 <= c < |children| ensures DictionariesRoom(s.children[c], cols[n].node.children[c]) {
        assert ChildrenAt(cols[..n], l, c) == ChildrenAt(cols, l, c)[..n];
        HeldDictionariesRoom(s.children[c], ChildrenAt(cols, l, c), n, children[c]);
      }
    case ListLayout(_, items) =>
      assert ItemsOf(cols[..n], l) == ItemsOf(cols, l)[..n];
      HeldDictionariesRoom(s.items, ItemsOf(cols, l), n, items);
    case FixedListLayout(_, elements) =>
      assert ItemsOf(cols[..n], l) == ItemsOf(cols, l)[..n];
      HeldDictionariesRoom(s.elements, ItemsOf(cols, l), n, elements);
    case DictionaryLayout(_, _) => DictionaryRoom(s, cols, n, l);
    case _ =>
  }

  function TotalRows(bs: seq<Batch>): nat {
    if bs == [] then 0 else TotalRows(bs[..|bs| - 1]) + bs[|bs| - 1].numRows
  }

  /** Column `c` of the batches, end to end. */
  function JoinedCells(bs: seq<Batch>, c: nat): (vs: seq<Value>)
    requires forall i :: 0 <= i < |bs| ==> c < |bs[i].columns|
    ensures |vs| == TotalRows(bs)
  {
    if bs == [] then [] else JoinedCells(bs[..|bs| - 1], c) + Cells(bs[|bs| - 1], c)
  }

  function ColumnOf(bs: seq<Batch>, c: nat): (cols: seq<Array>)
    requires forall i :: 0 <= i < |bs| ==> c < |bs[i].columns|
    ensures |cols| == |bs| && forall i :: 0 <= i < |bs| ==> cols[i] == bs[i].columns[c]
  {
    seq(|bs|, i requires 0 <= i < |bs| => bs[i].columns[c])
  }

  /** Preparing and appending one more batch extends what the column decodes to. */
  lemma {:induction false} JoinStep(out: Array, prepared: Array, next: Array, vs: seq<Value>, more: seq<Value>)
    requires Rows(out, 0, out.length) == vs && AllReadable(out, 0, out.length)
    requires Extends(out, prepared) && prepared.length == out.length && Appended(prepared, next, more)
    ensures AllReadable(next, 0, next.length) && Rows(next, 0, next.length) == vs + more
  {
    forall j | 0 <= j < next.length ensures Readable(next, j) && At(next, j) == (vs + more)[j] {
      if j < out.length {
        assert At(out, j) == Rows(out, 0, out.length)[j];
        assert Readable(out, j) && Readable(prepared, j);
      } else {
        assert At(next, j) == Rows(next, prepared.length, |more|)[j - prepared.length];
      }
    }
  }

  /** The first `n` batches are in the column being built. */
  ghost predicate Joined(out: Array, bs: seq<Batch>, n: nat, c: nat, l: Layout)
    requires n <= |bs| && forall i :: 0 <= i < |bs| ==> c < |bs[i].columns| && LayoutOf(bs[i].columns[c]) == l
  {
    Building(out) && LayoutOf(out) == l && DictionariesReadable(SkeletonOf(out)) &&
    out.length == TotalRows(bs[..n]) && AllReadable(out, 0, out.length) &&
    Rows(out, 0, out.length) == JoinedCells(bs[..n], c) &&
    ExtentOf(out) == PlusAll(ExtentOf(EmptyOf(l)), JoinedCells(bs[..n], c)) &&
    HoldsSums(SkeletonOf(out), ColumnOf(bs, c)[..n], l)
  }

  /** Every batch's column `c` can be appended, dictionaries included. */
  predicate ColumnJoins(bs: seq<Batch>, c: nat)
    requires |bs| > 0 && forall i :: 0 <= i < |bs| ==> c < |bs[i].columns|
    requires forall i :: 0 <= i < |bs| ==> LayoutOf(bs[i].columns[c]) == LayoutOf(bs[0].columns[c])
  {
    (forall i :: 0 <= i < |bs| ==> Supported(bs[i].columns[c]) && FlatDictionaries(bs[i].columns[c])) &&
    MergedFit(ColumnOf(bs, c), LayoutOf(bs[0].columns[c])) &&
    FreshRoom(bs[0].columns[c], JoinedCells(bs, c))
  }

  /** Equal column counts and layouts, supported types, and room for all cells and the merged dictionaries. */
  predicate Joinable(bs: seq<Batch>) {
    |bs| > 0 && (forall i :: 0 <= i < |bs| ==> |bs[i].columns| == |bs[0].columns|) &&
    (forall i, c :: 0 <= i < |bs| && 0 <= c < |bs[0].columns| ==>
       LayoutOf(bs[i].columns[c]) == LayoutOf(bs[0].columns[c])) &&
    forall c :: 0 <= c < |bs[0].columns| ==> ColumnJoins(bs, c)
  }

  lemma {:induction false} JoinSums(out: Array, prepared: Array, bs: seq<Batch>, n: nat, c: nat, l: Layout,
                                    offs: DictOffsets)
    requires n < |bs| && forall i :: 0 <= i < |bs| ==> c < |bs[i].columns| && LayoutOf(bs[i].columns[c]) == l
    requires HoldsSums(SkeletonOf(out), ColumnOf(bs, c)[..n], l)
    requires DictionariesGrown(SkeletonOf(out), bs[n].columns[c], SkeletonOf(prepared))
    requires Prepared(SkeletonOf(prepared), bs[n].columns[c], offs, [])
    ensures HoldsSums(SkeletonOf(prepared), ColumnOf(bs, c)[..n + 1], l)
    ensures MergedFit(ColumnOf(bs, c), l) ==> IndicesFit(bs[n].columns[c], offs, [])
  {
    var col, cols := bs[n].columns[c], ColumnOf(bs, c);
    GrownHoldsSums(SkeletonOf(out), col, SkeletonOf(prepared), cols[..n], l);
    assert cols[..n] + [col] == cols[..n + 1];
    if MergedFit(cols, l) {
      HeldDictionariesFit(SkeletonOf(prepared), cols, n + 1, l);
      MergedIndicesFit(SkeletonOf(prepared), col, offs, []);
    }
  }

  lemma {:induction false} CellsOfPrefix(bs: seq<Batch>, n: nat, c: nat)
    requires n <= |bs| && forall i :: 0 <= i < |bs| ==> c < |bs[i].columns|
    ensures JoinedCells(bs[..n], c) <= JoinedCells(bs, c)
    decreases |bs|
  {
    if n < |bs| {
      CellsOfPrefix(bs[..|bs| - 1], n, c);
      assert bs[..|bs| - 1][..n] == bs[..n];
    } else {
      assert bs[..n] == bs;
    }
  }

  /** Room for all cells is, with the first `n` batches joined, room for the next batch's. */
  lemma {:induction false} RoomForBatch(out: Array, prepared: Array, bs: seq<Batch>, n: nat, c: nat, l: Layout)
    requires n < |bs| && forall i :: 0 <= i < |bs| ==> c < |bs[i].columns|
    requires LayoutOf(out) == LayoutOf(prepared) == l && ExtentOf(prepared) == ExtentOf(out)
    requires ExtentOf(out) == PlusAll(ExtentOf(EmptyOf(l)), JoinedCells(bs[..n], c)) && Room(EmptyOf(l), JoinedCells(bs, c))
    ensures Room(prepared, Cells(bs[n], c))
  {
    var empty, joined := EmptyOf(l), JoinedCells(bs[..n + 1], c);
    EmptyOfOk(l);
    assert bs[..n + 1][..n] == bs[..n];
    CellsOfPrefix(bs, n + 1, c);
    assert JoinedCells(bs, c)[..|joined|] == joined;
    FitsPrefix(SkeletonOf(empty), ExtentOf(empty), JoinedCells(bs, c), |joined|);
    PlusConcat(ExtentOf(empty), JoinedCells(bs[..n], c), Cells(bs[n], c));
    LayoutFits(empty, prepared, PlusAll(ExtentOf(empty), joined));
  }

  lemma {:induction false} JoinedNext(out: Array, prepared: Array, next: Array, bs: seq<Batch>, n: nat, c: nat, l: Layout)
    requires n < |bs| && forall i :: 0 <= i < |bs| ==> c < |bs[i].columns| && LayoutOf(bs[i].columns[c]) == l
    requires Joined(out, bs, n, c, l) && Extends(out, prepared) && prepared.length == out.length
    requires LayoutOf(prepared) == l && ExtentOf(prepared) == ExtentOf(out) && DictionariesReadable(SkeletonOf(prepared))
    requires HoldsSums(SkeletonOf(prepared), ColumnOf(bs, c)[..n + 1], l) && Appended(prepared, next, Cells(bs[n], c))
    ensures Joined(next, bs, n + 1, c, l)
  {
    SkeletonLayout(prepared, next);
    JoinStep(out, prepared, next, JoinedCells(bs[..n], c), Cells(bs[n], c));
    assert bs[..n + 1][..n] == bs[..n];
    PlusConcat(ExtentOf(EmptyOf(l)), JoinedCells(bs[..n], c), Cells(bs[n], c));
  }

  method JoinBatch(out: Array, bs: seq<Batch>, n: nat, c: nat, l: Layout) returns (r: Option<Array>)
    requires n < |bs| && forall i :: 0 <= i < |bs| ==> c < |bs[i].columns| && LayoutOf(bs[i].columns[c]) == l
    requires ValidBatch(bs[n]) && Joined(out, bs, n, c, l)
    ensures r.Some? ==> Joined(r.value, bs, n + 1, c, l)
    ensures ColumnJoins(bs, c) ==> r.Some?
  {
    var col := bs[n].columns[c];
    if ColumnJoins(bs, c) { HeldDictionariesRoom(SkeletonOf(out), ColumnOf(bs, c), n, l); }
    var prepared, offs := PrepareDictionaries(out, col, map[], []);
    if prepared.None? { return None; }
    if ColumnJoins(bs, c) { RoomForBatch(out, prepared.value, bs, n, c, l); }
    JoinSums(out, prepared.value, bs, n, c, l, offs);
    var rows: seq<nat> := [];
    for i := 0 to bs[n].numRows
      invariant |rows| == i && forall j :: 0 <= j < i ==> rows[j] == j
    {
      rows := rows + [i];
    }
    PickRange(Column(col, 0), rows, 0);
    r := AppendRows(prepared.value, Column(col, 0), rows, offs, []);
    if r.Some? { JoinedNext(out, prepared.value, r.value, bs, n, c, l); }
  }

  /** `r` is column `c` of the batches, end to end. */
  ghost predicate JoinedColumn(bs: seq<Batch>, c: nat, r: Array)
    requires |bs| > 0 && forall i :: 0 <= i < |bs| ==> c < |bs[i].columns|
  {
    r.length == TotalRows(bs) && AllReadable(r, 0, TotalRows(bs)) && Rows(r, 0, TotalRows(bs)) == JoinedCells(bs, c) &&
    DictionariesReadable(SkeletonOf(r)) && FreshRoom(bs[0].columns[c], JoinedCells(bs, c))
  }

  method ConcatColumn(bs: seq<Batch>, c: nat) returns (r: Option<Array>)
    requires |bs| > 0 && forall i :: 0 <= i < |bs| ==> ValidBatch(bs[i])
    requires forall i :: 0 <= i < |bs| ==> c < |bs[i].columns|
    requires forall i :: 0 <= i < |bs| ==> LayoutOf(bs[i].columns[c]) == LayoutOf(bs[0].columns[c])
    ensures r.Some? ==> JoinedColumn(bs, c, r.value)
    ensures ColumnJoins(bs, c) ==> r.Some?
  {
    var l := LayoutOf(bs[0].columns[c]);
    var out := EmptyOf(l);
    EmptyOfOk(l);
    EmptyHoldsSums(l);
    assert bs[..0] == [] && ColumnOf(bs, c)[..0] == [];
    for i := 0 to |bs|
      invariant Joined(out, bs, i, c, l)
    {
      var next := JoinBatch(out, bs, i, c, l);
      if next.None? { return None; }
      out := next.value;
    }
    assert bs[..|bs|] == bs;
    BuildingFits(out);
    LayoutFits(out, EmptyOf(l), ExtentOf(out));
    return Some(out);
  }

  lemma {:induction false} SingleBatch(bs: seq<Batch>)
    requires |bs| == 1
    ensures TotalRows(bs) == bs[0].numRows
    ensures forall c :: 0 <= c < |bs[0].columns| ==> Cells(bs[0], c) == JoinedCells(bs, c)
  {
    var none: seq<Batch> := [];
    assert bs[..0] == none;
    forall c | 0 <= c < |bs[0].columns| ensures Cells(bs[0], c) == JoinedCells(bs, c) {
      assert JoinedCells(none, c) == [];
    }
  }

  /** The number of rows in all, unless the column counts differ. */
  method CountRows(bs: seq<Batch>) returns (total: Option<nat>)
    requires |bs| > 0
    ensures total.Some? <==> forall i :: 0 <= i < |bs| ==> |bs[i].columns| == |bs[0].columns|
    ensures total.Some? ==> total.value == TotalRows(bs)
  {
    var n := 0;
    for i := 0 to |bs|
      invariant n == TotalRows(bs[..i]) && forall j :: 0 <= j < i ==> |bs[j].columns| == |bs[0].columns|
    {
      if |bs[i].columns| != |bs[0].columns| { return None; }
      n := n + bs[i].numRows;
      assert bs[..i + 1][..i] == bs[..i];
    }
    assert bs[..|bs|] == bs;
    total := Some(n);
  }

  lemma {:induction false} JoinedBatch(bs: seq<Batch>, columns: seq<Array>)
    requires |bs| > 0 && forall i :: 0 <= i < |bs| ==> |bs[i].columns| == |bs[0].columns|
    requires |columns| == |bs[0].columns| && forall c :: 0 <= c < |columns| ==> JoinedColumn(bs, c, columns[c])
    ensures ValidBatch(Batch(TotalRows(bs), columns))
    ensures forall c :: 0 <= c < |columns| ==> Cells(Batch(TotalRows(bs), columns), c) == JoinedCells(bs, c)
    ensures forall c :: 0 <= c < |columns| ==> FreshRoom(bs[0].columns[c], JoinedCells(bs, c))
  {
  }

  /**
   Concatenation. A single batch is returned as it is; otherwise every column is rebuilt, batch
   after batch, with the dictionaries merged and the indices of later batches shifted.
   */
  method ConcatBatches(bs: seq<Batch>) returns (r: Option<Batch>)
    requires forall i :: 0 <= i < |bs| ==> ValidBatch(bs[i])
    requires forall i, c :: 0 <= i < |bs| && 0 <= c < |bs[i].columns| && c < |bs[0].columns| ==>
               LayoutOf(bs[i].columns[c]) == LayoutOf(bs[0].columns[c])
    ensures r.Some? ==> |bs| > 0 && forall i :: 0 <= i < |bs| ==> |bs[i].columns| == |bs[0].columns|
    ensures r.Some? ==> ValidBatch(r.value) && |r.value.columns| == |bs[0].columns| && r.value.numRows == TotalRows(bs)
    ensures r.Some? ==> forall c :: 0 <= c < |bs[0].columns| ==> Cells(r.value, c) == JoinedCells(bs, c)
    ensures r.Some? && |bs| > 1 ==> forall c :: 0 <= c < |bs[0].columns| ==> FreshRoom(bs[0].columns[c], JoinedCells(bs, c))
    ensures Joinable(bs) ==> r.Some?
  {
    if bs == [] { return None; }
    if |bs| == 1 {
      SingleBatch(bs);
      return Some(bs[0]);
    }
    var total := CountRows(bs);
    if total.None? { return None; }
    var columns: seq<Array> := [];
    for c := 0 to |bs[0].columns|
      invariant |columns| == c && forall d :: 0 <= d < c ==> JoinedColumn(bs, d, columns[d])
    {
      var column := ConcatColumn(bs, c);
      if column.None? { return None; }
      columns := columns + [column.value];
    }
    JoinedBatch(bs, columns);
    return Some(Batch(total.value, columns));
  }

  // ---------------------------------------------------------------------------------------------
  // Zero-copy slices and column selection
  // ---------------------------------------------------------------------------------------------

  function SliceColumn(a: Array, offset: nat, length: nat): Array {
    a.(offset := a.offset + offset, length := length)
  }

  /** Only the top-level columns move; children and buffers are shared. */
  function Slice(b: Batch, offset: int, length: int): Option<Batch> {
    if offset < 0 || length < 0 || offset + length > b.numRows then None
    else Some(Batch(length, seq(|b.columns|, c requires 0 <= c < |b.columns| => SliceColumn(b.columns[c], offset, length))))
  }

  function SelectColumns(b: Batch, indices: seq<nat>): Batch
    requires forall k :: 0 <= k < |indices| ==> indices[k] < |b.columns|
  {
    Batch(b.numRows, seq(|indices|, k requires 0 <= k < |indices| => b.columns[indices[k]]))
  }

  /** A sliced column decodes to its base, moved. */
  lemma {:induction false} SliceColumnAt(a: Array, offset: nat, length: nat, k: nat)
    ensures At(SliceColumn(a, offset, length), k) == At(a, offset + k)
    ensures Readable(SliceColumn(a, offset, length), k) == Readable(a, offset + k)
  {
    assert a.offset + offset + k == a.offset + (offset + k);
  }

  lemma {:induction false} SliceCells(b: Batch, offset: nat, length: nat)
    requires offset + length <= b.numRows
    ensures var s := Slice(b, offset, length).value;
            |s.columns| == |b.columns| && (ValidBatch(b) ==> ValidBatch(s)) &&
            forall c :: 0 <= c < |b.columns| ==> Cells(s, c) == Cells(b, c)[offset..offset + length]
  {
    var s := Slice(b, offset, length).value;
    forall c, k | 0 <= c < |b.columns| && 0 <= k < length
      ensures At(s.columns[c], k) == At(b.columns[c], offset + k)
      ensures Readable(s.columns[c], k) == Readable(b.columns[c], offset + k)
    {
      SliceColumnAt(b.columns[c], offset, length, k);
    }
    forall c | 0 <= c < |b.columns| ensures Cells(s, c) == Cells(b, c)[offset..offset + length] {
    }
    forall c | 0 <= c < |b.columns| ensures SkeletonOf(s.columns[c]) == SkeletonOf(b.columns[c]) {
    }
  }

  /** The struct member column reached by following child positions `path`. */
  function Descend(col: Column, path: seq<nat>): Option<Column>
    decreases |path|
  {
    if path == [] then Some(col)
    else if col.base.node.Struct? && path[0] < |col.base.node.children| then Descend(col.Child(path[0]), path[1..])
    else None
  }

  /** The inherited shift carries a displacement unchanged through any number of struct levels. */
  lemma {:induction false} DescendShift(col: Column, delta: nat, path: seq<nat>, i: nat)
    ensures var moved := Descend(Column(col.base, col.shift + delta), path);
            Descend(col, path).Some? == moved.Some? &&
            (moved.Some? ==> moved.value.Value(i) == Descend(col, path).value.Value(delta + i))
    decreases |path|
  {
    if path == [] {
      assert col.shift + delta + i == col.shift + (delta + i);
    } else if col.base.node.Struct? && path[0] < |col.base.node.children| {
      DescendShift(col.Child(path[0]), delta, path[1..], i);
      assert col.shift + delta + col.base.offset == col.shift + col.base.offset + delta;
    }
  }

  /** At every struct nesting level, row `i` of a slice is row `offset + i` of its base. */
  lemma {:induction false} SliceDescend(a: Array, offset: nat, length: nat, path: seq<nat>, i: nat)
    ensures var moved := Descend(Column(SliceColumn(a, offset, length), 0), path);
            Descend(Column(a, 0), path).Some? == moved.Some? &&
            (moved.Some? ==> moved.value.Value(i) == Descend(Column(a, 0), path).value.Value(offset + i))
  {
    if path == [] {
      SliceColumnAt(a, offset, length, i);
    } else if a.node.Struct? && path[0] < |a.node.children| {
      DescendShift(Column(a, 0).Child(path[0]), offset, path[1..], i);
    }
  }

  lemma {:induction false} SliceOfSlice(b: Batch, offset: nat, length: nat, offset2: nat, length2: nat)
    requires offset + length <= b.numRows && offset2 + length2 <= length
    ensures Slice(Slice(b, offset, length).value, offset2, length2) == Slice(b, offset + offset2, length2)
  {
    var once, twice := Slice(b, offset + offset2, length2).value, Slice(Slice(b, offset, length).value, offset2, length2).value;
    assert once.columns == twice.columns;
  }

  lemma {:induction false} SliceThenSelect(b: Batch, offset: nat, length: nat, indices: seq<nat>)
    requires offset + length <= b.numRows && forall k :: 0 <= k < |indices| ==> indices[k] < |b.columns|
    ensures Some(SelectColumns(Slice(b, offset, length).value, indices)) == Slice(SelectColumns(b, indices), offset, length)
  {
    assert SelectColumns(Slice(b, offset, length).value, indices).columns
        == Slice(SelectColumns(b, indices), offset, length).value.columns;
  }

  function Moved(rows: seq<nat>, offset: nat): seq<nat> {
    seq(|rows|, k requires 0 <= k < |rows| => offset + rows[k])
  }

  lemma {:induction false} SlicePick(a: Array, offset: nat, length: nat, rows: seq<nat>)
    ensures Pick(Column(SliceColumn(a, offset, length), 0), rows) == Pick(Column(a, 0), Moved(rows, offset))
  {
    forall k | 0 <= k < |rows| ensures At(SliceColumn(a, offset, length), rows[k]) == At(a, offset + rows[k]) {
      SliceColumnAt(a, offset, length, rows[k]);
    }
  }

  lemma {:induction false} SliceTakeable(a: Array, offset: nat, length: nat, rows: seq<nat>)
    requires Takeable(a, Moved(rows, offset))
    ensures Takeable(SliceColumn(a, offset, length), rows)
  {
    var slice := SliceColumn(a, offset, length);
    assert LayoutOf(slice) == LayoutOf(a);
    SlicePick(a, offset, length, rows);
  }

  lemma {:induction false} GatheredAlike(b: Batch, offset: nat, length: nat, rows: seq<nat>, x: Batch, y: Batch, c: nat)
    requires offset + length <= b.numRows && forall k :: 0 <= k < |rows| ==> rows[k] < length
    requires c < |b.columns| == |x.columns| == |y.columns| && x.numRows == y.numRows == |rows|
    requires var s := Slice(b, offset, length).value;
      |s.columns| == |b.columns| && forall k :: 0 <= k < |rows| ==> Cells(x, c)[k] == Cells(s, c)[rows[k]]
    requires forall k :: 0 <= k < |rows| ==> Cells(y, c)[k] == Cells(b, c)[Moved(rows, offset)[k]]
    ensures Cells(x, c) == Cells(y, c)
  {
    SliceCells(b, offset, length);
    forall k | 0 <= k < |rows| ensures Cells(x, c)[k] == Cells(y, c)[k] {
      assert Cells(Slice(b, offset, length).value, c)[rows[k]] == Cells(b, c)[offset + rows[k]];
    }
  }

  /** Gathering from a slice is gathering from its base with the rows moved. */
  method TakeRowsOfSlice(b: Batch, offset: nat, length: nat, rows: seq<nat>)
    returns (x: Option<Batch>, y: Option<Batch>)
    requires ValidBatch(b) && offset + length <= b.numRows && forall k :: 0 <= k < |rows| ==> rows[k] < length
    ensures x.Some? && y.Some? ==> x.value.numRows == y.value.numRows && |x.value.columns| == |y.value.columns| == |b.columns|
    ensures x.Some? && y.Some? ==> forall c :: 0 <= c < |b.columns| ==> Cells(x.value, c) == Cells(y.value, c)
    ensures (forall c :: 0 <= c < |b.columns| ==> Takeable(b.columns[c], Moved(rows, offset))) ==> x.Some? && y.Some?
  {
    SliceCells(b, offset, length);
    forall c | 0 <= c < |b.columns| && Takeable(b.columns[c], Moved(rows, offset)) {
      SliceTakeable(b.columns[c], offset, length, rows);
    }
    x := TakeRows(Slice(b, offset, length).value, rows);
    var moved := Moved(rows, offset);
    y := TakeRows(b, moved);
    if x.Some? && y.Some? {
      forall c | 0 <= c < |b.columns| ensures Cells(x.value, c) == Cells(y.value, c) {
        GatheredAlike(b, offset, length, rows, x.value, y.value, c);
      }
    }
  }
}
