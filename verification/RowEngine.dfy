/**
 Row selection over nested columns: `AppendRows`, `PrepareDictionaries` and their offset table, from
 src/vgi_arrow.cpp. Dictionaries at any depth are merged into the destination's and the indices of
 appended rows shifted; the contracts speak of decoded values only.
 */
module RowEngine {
  import opened Arrow
  import opened Builders
  import opened Options

  // ---------------------------------------------------------------------------------------------
  // Dictionary offsets
  // ---------------------------------------------------------------------------------------------

  /**
   Where each source dictionary starts in the destination's dictionary, keyed by the node that owns
   it: the path of child positions from the column's root.
   */
  type DictOffsets = map<seq<nat>, nat>

  function OffsetAt(offs: DictOffsets, path: seq<nat>): nat {
    if path in offs then offs[path] else 0
  }

  /** The dictionary `values` makes up `merged` from position `from` to its end. */
  ghost predicate Merged(merged: Array, values: Array, from: nat) {
    from + values.length == merged.length &&
    forall i :: from <= i < from + values.length ==> Readable(merged, i) && At(merged, i) == At(values, i - from)
  }

  /**
   The builder skeleton `s` has the shape of source `a`, and holds every dictionary of `a`, at any
   depth, at the recorded offset.
   */
  ghost predicate Prepared(s: Skeleton, a: Array, offs: DictOffsets, path: seq<nat>)
    decreases a
  {
    match a.node
    case Na => s.NaShape?
    case Fixed(_) => s.FixedShape?
    case Variable(_, _, _) => s.VariableShape?
    case Struct(children) =>
      s.StructShape? && |s.children| == |children| &&
      forall c :: 0 <= c < |children| ==> Prepared(s.children[c], children[c], offs, path + [c])
    case List(_, _, items) => s.ListShape? && Prepared(s.items, items, offs, path + [0])
    case FixedList(size, elements) =>
      s.FixedListShape? && s.size == size && Prepared(s.elements, elements, offs, path + [0])
    case Dictionary(maxIndex, _, dictionary) =>
      s.DictionaryShape? && s.maxIndex == maxIndex && Merged(s.dictionary, dictionary, OffsetAt(offs, path))
    case Other => s.OtherShape?
  }

  /** No node that row selection refuses. */
  predicate Supported(a: Array)
    decreases a
  {
    match a.node
    case Struct(children) => forall c :: 0 <= c < |children| ==> Supported(children[c])
    case List(_, _, items) => Supported(items)
    case FixedList(_, elements) => Supported(elements)
    case Other => false
    case _ => true
  }

  /** Every stored index that names an entry still fits the index type of its column once shifted. */
  predicate IndicesFit(a: Array, offs: DictOffsets, path: seq<nat>)
    decreases a
  {
    match a.node
    case Struct(children) => forall c :: 0 <= c < |children| ==> IndicesFit(children[c], offs, path + [c])
    case List(_, _, items) => IndicesFit(items, offs, path + [0])
    case FixedList(_, elements) => IndicesFit(elements, offs, path + [0])
    case Dictionary(maxIndex, indices, dictionary) =>
      forall p :: 0 <= p < |indices| && 0 <= indices[p] < dictionary.length ==>
        indices[p] + OffsetAt(offs, path) <= maxIndex
    case _ => true
  }

  // ---------------------------------------------------------------------------------------------
  // AppendRows
  // ---------------------------------------------------------------------------------------------

  /** The values of rows `rows` of `src`, in that order. */
  function Pick(src: Column, rows: seq<nat>): (vs: seq<Value>)
    ensures |vs| == |rows|
    ensures forall k :: 0 <= k < |rows| ==> vs[k] == src.Value(rows[k])
  {
    seq(|rows|, k requires 0 <= k < |rows| => src.Value(rows[k]))
  }

  lemma {:induction false} PickOne(src: Column, rows: seq<nat>, k: nat)
    requires k < |rows|
    ensures Pick(src, rows[..k + 1]) == Pick(src, rows[..k]) + [src.Value(rows[k])]
  {
  }

  lemma {:induction false} PickRange(src: Column, rows: seq<nat>, from: nat)
    requires forall j :: 0 <= j < |rows| ==> rows[j] == from + j
    requires src.shift == 0 && AllReadable(src.base, from, |rows|)
    ensures Pick(src, rows) == Rows(src.base, from, |rows|)
    ensures forall k :: 0 <= k < |rows| ==> src.CanRead(rows[k])
  {
  }

  /** The stored index of a dictionary row, shifted, finds the row's value in the merged dictionary. */
  lemma {:induction false} ShiftedIndex(d: Array, src: Column, row: nat, offs: DictOffsets, path: seq<nat>, index: int)
    requires src.base.node.Dictionary? && d.node.Dictionary? && Prepared(SkeletonOf(d), src.base, offs, path)
    requires src.CanRead(row) && !src.IsNull(row)
    requires index == src.base.node.indices[src.base.offset + (src.shift + row)]
    ensures var i := index + OffsetAt(offs, path);
            0 <= index && i < d.node.dictionary.length &&
            Readable(d.node.dictionary, i) && At(d.node.dictionary, i) == src.Value(row)
  {
  }

  method AppendIndexRow(d: Array, src: Column, row: nat, offs: DictOffsets, path: seq<nat>)
    returns (r: Option<Array>)
    requires src.base.node.Dictionary? && Building(d) && Prepared(SkeletonOf(d), src.base, offs, path)
    requires src.CanRead(row)
    ensures r.Some? ==> Appended(d, r.value, [src.Value(row)])
    ensures IndicesFit(src.base, offs, path) ==> r.Some?
  {
    if src.IsNull(row) {
      AppendedNull(d);
      return Some(AppendNull(d));
    }
    var index := src.base.node.indices[src.base.offset + (src.shift + row)];
    ShiftedIndex(d, src, row, offs, path, index);
    r := AppendIndex(d, index + OffsetAt(offs, path));
    if r.Some? {
      AppendedIndex(d, index + OffsetAt(offs, path));
    }
  }

  method AppendLeafRow(d: Array, src: Column, row: nat) returns (r: Option<Array>)
    requires src.base.node.Na? || src.base.node.Fixed? || src.base.node.Variable?
    requires Building(d) && Prepared(SkeletonOf(d), src.base, map[], []) && src.CanRead(row)
    ensures r.Some? ==> Appended(d, r.value, [src.Value(row)])
    ensures Room(d, [src.Value(row)]) ==> r.Some?
  {
    var p := src.base.offset + (src.shift + row);
    if src.IsNull(row) {
      AppendedNull(d);
      return Some(AppendNull(d));
    }
    match src.base.node
    case Fixed(data) =>
      AppendedScalar(d, data[p]);
      return Some(AppendScalar(d, data[p]));
    case Variable(_, ends, bytes) =>
      AppendedBytes(d, bytes[ends[p]..ends[p + 1]]);
      return AppendBytes(d, bytes[ends[p]..ends[p + 1]]);
  }

  /** One non-null struct element: every field from the matching child column. */
  method AppendStruct(d: Array, src: Column, row: nat, offs: DictOffsets, path: seq<nat>)
    returns (r: Option<Array>)
    requires src.base.node.Struct? && Building(d) && Prepared(SkeletonOf(d), src.base, offs, path)
    requires src.CanRead(row) && !src.IsNull(row)
    ensures r.Some? ==> Appended(d, r.value, [src.Value(row)])
    ensures Supported(src.base) && IndicesFit(src.base, offs, path) && Room(d, [src.Value(row)]) ==> r.Some?
    decreases src.base, 0
  {
    var n := |src.base.node.children|;
    var children: seq<Array> := [];
    ghost var fields := src.Value(row).fields;
    RoomInStruct(d, fields);
    for c := 0 to n
      invariant |children| == c
      invariant forall i :: 0 <= i < c ==> Appended(d.node.children[i], children[i], [fields[i]])
    {
      ChildValue(src, c, row);
      assert SkeletonOf(d).children[c] == SkeletonOf(d.node.children[c]);
      var child := AppendRows(d.node.children[c], src.Child(c), [row], offs, path + [c]);
      if child.None? { return None; }
      assert Pick(src.Child(c), [row]) == [fields[c]];
      children := children + [child.value];
    }
    AppendedStruct(d, children, fields);
    return Some(FinishStruct(d, children));
  }

  /** One non-null list element: the whole range of the child column. */
  method AppendList(d: Array, src: Column, row: nat, offs: DictOffsets, path: seq<nat>)
    returns (r: Option<Array>)
    requires (src.base.node.List? || src.base.node.FixedList?) && Building(d)
    requires Prepared(SkeletonOf(d), src.base, offs, path)
    requires src.CanRead(row) && !src.IsNull(row)
    ensures r.Some? ==> Appended(d, r.value, [src.Value(row)])
    ensures Supported(src.base) && IndicesFit(src.base, offs, path) && Room(d, [src.Value(row)]) ==> r.Some?
    decreases src.base, 0
  {
    var (begin, end) := src.ListRange(row);
    var rows: seq<nat> := [];
    for i := begin to end
      invariant |rows| == i - begin && forall j :: 0 <= j < |rows| ==> rows[j] == begin + j
    {
      rows := rows + [i];
    }
    PickRange(src.Items(), rows, begin);
    RoomInList(d, Pick(src.Items(), rows));
    var items := AppendRows(ItemsBuilder(d), src.Items(), rows, offs, path + [0]);
    if items.None? { return None; }
    if d.node.List? {
      AppendedList(d, items.value, Pick(src.Items(), rows));
    } else {
      AppendedFixedList(d, items.value, Pick(src.Items(), rows));
    }
    return FinishList(d, items.value);
  }

  /** One element, whatever its layout. */
  method AppendOne(d: Array, src: Column, row: nat, offs: DictOffsets, path: seq<nat>) returns (r: Option<Array>)
    requires Building(d) && Prepared(SkeletonOf(d), src.base, offs, path) && src.CanRead(row) && !src.base.node.Other?
    ensures r.Some? ==> Appended(d, r.value, [src.Value(row)])
    ensures Supported(src.base) && IndicesFit(src.base, offs, path) && Room(d, [src.Value(row)]) ==> r.Some?
    decreases src.base, 1
  {
    if src.base.node.Dictionary? {
      r := AppendIndexRow(d, src, row, offs, path);
    } else if src.IsNull(row) {
      AppendedNull(d);
      r := Some(AppendNull(d));
    } else if src.base.node.Struct? {
      r := AppendStruct(d, src, row, offs, path);
    } else if src.base.node.List? || src.base.node.FixedList? {
      r := AppendList(d, src, row, offs, path);
    } else {
      r := AppendLeafRow(d, src, row);
    }
  }

  /**
   Appends rows `rows` of `src`. The column types are equal and every dictionary of `src` is already
   in the destination; a node that row selection does not support, an index that does not fit or an
   offset that overflows fails the call.
   */
  method AppendRows(d: Array, src: Column, rows: seq<nat>, offs: DictOffsets, path: seq<nat>)
    returns (r: Option<Array>)
    requires Building(d) && Prepared(SkeletonOf(d), src.base, offs, path)
    requires forall k :: 0 <= k < |rows| ==> src.CanRead(rows[k])
    ensures r.Some? ==> Appended(d, r.value, Pick(src, rows))
    ensures r.Some? ==> Room(d, Pick(src, rows))
    ensures Supported(src.base) && IndicesFit(src.base, offs, path) && Room(d, Pick(src, rows)) ==> r.Some?
    decreases src.base, 2
  {
    if src.base.node.Other? { return None; }
    var out := d;
    AppendedNone(d);
    assert Pick(src, rows[..0]) == [];
    for k := 0 to |rows|
      invariant Appended(d, out, Pick(src, rows[..k]))
    {
      if Room(d, Pick(src, rows)) {
        assert Pick(src, rows)[..k] == Pick(src, rows[..k]);
        RoomForNext(d, out, Pick(src, rows), k);
      }
      var next := AppendOne(out, src, rows[k], offs, path);
      if next.None? { return None; }
      AppendedThen(d, out, next.value, Pick(src, rows[..k]), src.Value(rows[k]));
      PickOne(src, rows, k);
      out := next.value;
    }
    assert rows[..|rows|] == rows;
    AppendedHadRoom(d, out, Pick(src, rows));
    return Some(out);
  }

  // ---------------------------------------------------------------------------------------------
  // PrepareDictionaries
  // ---------------------------------------------------------------------------------------------

  /** The storage layout a schema fixes. */
  datatype Layout =
    | NaLayout
    | FixedLayout
    | VariableLayout(limit: nat)
    | StructLayout(children: seq<Layout>)
    | ListLayout(limit: nat, items: Layout)
    | FixedListLayout(size: nat, elements: Layout)
    | DictionaryLayout(maxIndex: nat, values: Layout)
    | OtherLayout

  function LayoutOf(a: Array): Layout
    decreases a
  {
    match a.node
    case Na => NaLayout
    case Fixed(_) => FixedLayout
    case Variable(limit, _, _) => VariableLayout(limit)
    case Struct(children) =>
      StructLayout(seq(|children|, c requires 0 <= c < |children| => LayoutOf(children[c])))
    case List(limit, _, items) => ListLayout(limit, LayoutOf(items))
    case FixedList(size, elements) => FixedListLayout(size, LayoutOf(elements))
    case Dictionary(maxIndex, _, dictionary) => DictionaryLayout(maxIndex, LayoutOf(dictionary))
    case Other => OtherLayout
  }

  lemma {:induction false} SkeletonLayout(x: Array, y: Array)
    requires SkeletonOf(x) == SkeletonOf(y)
    ensures LayoutOf(x) == LayoutOf(y)
    decreases x
  {
    match x.node
    case Struct(children) =>
      forall c | 0 <= c < |children| ensures LayoutOf(children[c]) == LayoutOf(y.node.children[c]) {
        assert SkeletonOf(x).children[c] == SkeletonOf(y).children[c];
        SkeletonLayout(children[c], y.node.children[c]);
      }
      assert LayoutOf(x).children == LayoutOf(y).children;
    case List(_, _, items) => SkeletonLayout(items, y.node.items);
    case FixedList(_, elements) => SkeletonLayout(elements, y.node.elements);
    case _ =>
  }

  /** What fits depends on the layout only. */
  lemma {:induction false} LayoutFits(x: Array, y: Array, e: Extent)
    requires LayoutOf(x) == LayoutOf(y) && Fits(SkeletonOf(x), e)
    ensures Fits(SkeletonOf(y), e)
    decreases x
  {
    match x.node
    case Struct(children) =>
      assert |LayoutOf(x).children| == |LayoutOf(y).children|;
      forall c | 0 <= c < |children| ensures Fits(SkeletonOf(y).children[c], e.children[c]) {
        assert LayoutOf(x).children[c] == LayoutOf(y).children[c];
        assert SkeletonOf(x).children[c] == SkeletonOf(children[c]);
        LayoutFits(children[c], y.node.children[c], e.children[c]);
      }
    case List(_, _, items) => LayoutFits(items, y.node.items, e.items);
    case FixedList(_, elements) => LayoutFits(elements, y.node.elements, e.elements);
    case _ =>
  }

  /** Every dictionary, at any depth, can be read in full. */
  predicate DictionariesReadable(s: Skeleton)
    decreases s
  {
    match s
    case StructShape(children) => forall c :: 0 <= c < |children| ==> DictionariesReadable(children[c])
    case ListShape(_, items) => DictionariesReadable(items)
    case FixedListShape(_, elements) => DictionariesReadable(elements)
    case DictionaryShape(_, dictionary) => AllReadable(dictionary, 0, dictionary.length)
    case _ => true
  }

  /** A dictionary whose values are themselves nested or dictionary encoded. */
  predicate NestedValues(dict: Array) {
    match dict.node
    case Struct(children) => |children| > 0
    case List(_, _, _) | FixedList(_, _) | Dictionary(_, _, _) => true
    case _ => false
  }

  predicate FlatDictionaries(a: Array)
    decreases a
  {
    match a.node
    case Struct(children) => forall c :: 0 <= c < |children| ==> FlatDictionaries(children[c])
    case List(_, _, items) => FlatDictionaries(items)
    case FixedList(_, elements) => FlatDictionaries(elements)
    case Dictionary(_, _, dictionary) => !NestedValues(dictionary) && !dictionary.node.Other?
    case _ => true
  }

  /** Merging the dictionaries of `a` made each dictionary of skeleton `s` longer by that of `a`. */
  predicate DictionariesGrown(s: Skeleton, a: Array, t: Skeleton)
    decreases a
  {
    match a.node
    case Struct(children) =>
      s.StructShape? && t.StructShape? && |s.children| == |t.children| == |children| &&
      forall c :: 0 <= c < |children| ==> DictionariesGrown(s.children[c], children[c], t.children[c])
    case List(_, _, items) => s.ListShape? && t.ListShape? && DictionariesGrown(s.items, items, t.items)
    case FixedList(_, elements) =>
      s.FixedListShape? && t.FixedListShape? && DictionariesGrown(s.elements, elements, t.elements)
    case Dictionary(maxIndex, _, dictionary) =>
      s.DictionaryShape? && t.DictionaryShape? && s.maxIndex == t.maxIndex == maxIndex &&
      LayoutOf(t.dictionary) == LayoutOf(s.dictionary) &&
      t.dictionary.length == s.dictionary.length + dictionary.length &&
      ExtentOf(t.dictionary) == PlusAll(ExtentOf(s.dictionary), Rows(dictionary, 0, dictionary.length))
    case _ => s == t
  }

  /** Every dictionary of `a` still has room in the one of `s`. */
  predicate DictionariesRoom(s: Skeleton, a: Array)
    decreases a
  {
    match a.node
    case Struct(children) =>
      s.StructShape? && |s.children| == |children| &&
      forall c :: 0 <= c < |children| ==> DictionariesRoom(s.children[c], children[c])
    case List(_, _, items) => s.ListShape? && DictionariesRoom(s.items, items)
    case FixedList(_, elements) => s.FixedListShape? && DictionariesRoom(s.elements, elements)
    case Dictionary(_, _, dictionary) => s.DictionaryShape? && Room(s.dictionary, Rows(dictionary, 0, dictionary.length))
    case _ => true
  }

  /** Two offset maps agree on every node outside the subtree at `path`. */
  ghost predicate SameOutside(x: DictOffsets, y: DictOffsets, path: seq<nat>) {
    forall q :: !(path <= q) ==> OffsetAt(x, q) == OffsetAt(y, q)
  }

  /** `Prepared` at `path` does not depend on a subtree that parts from it at depth `at`. */
  lemma {:induction false} PreparedFrame(s: Skeleton, a: Array, x: DictOffsets, y: DictOffsets,
                                         path: seq<nat>, other: seq<nat>, at: nat)
    requires Prepared(s, a, x, path) && SameOutside(x, y, other)
    requires at < |path| && at < |other| && path[at] != other[at]
    ensures Prepared(s, a, y, path)
    decreases a
  {
    match a.node
    case Struct(children) =>
      forall c | 0 <= c < |children| ensures Prepared(s.children[c], children[c], y, path + [c]) {
        PreparedFrame(s.children[c], children[c], x, y, path + [c], other, at);
      }
    case List(_, _, items) => PreparedFrame(s.items, items, x, y, path + [0], other, at);
    case FixedList(_, elements) => PreparedFrame(s.elements, elements, x, y, path + [0], other, at);
    case _ =>
  }

  /** What preparing `a` at `path` gives: the dictionaries moved in, nothing else changed. */
  ghost predicate PreparedInto(d: Array, r: Array, a: Array, x: DictOffsets, y: DictOffsets, path: seq<nat>) {
    Building(r) && Extends(d, r) && r.length == d.length && LayoutOf(r) == LayoutOf(d) && ExtentOf(r) == ExtentOf(d) &&
    Prepared(SkeletonOf(r), a, y, path) && SameOutside(x, y, path) &&
    DictionariesGrown(SkeletonOf(d), a, SkeletonOf(r)) &&
    (DictionariesReadable(SkeletonOf(d)) ==> DictionariesReadable(SkeletonOf(r)))
  }

  lemma {:induction false} AppendedMerges(d: Array, r: Array, dict: Array)
    requires Appended(d, r, Rows(dict, 0, dict.length))
    ensures Merged(r, dict, d.length)
  {
    forall i | d.length <= i < d.length + dict.length ensures At(r, i) == At(dict, i - d.length) {
      assert Rows(r, d.length, dict.length)[i - d.length] == At(r, i);
    }
  }

  lemma {:induction false} FlatPrepared(d: Array, a: Array)
    requires LayoutOf(d) == LayoutOf(a) && !NestedValues(a)
    ensures Prepared(SkeletonOf(d), a, map[], [])
  {
    if a.node.Struct? {
      assert |LayoutOf(d).children| == |LayoutOf(a).children|;
    }
  }

  method PrepareDictionary(d: Array, a: Array, offs: DictOffsets, path: seq<nat>)
    returns (r: Option<Array>, out: DictOffsets)
    requires a.node.Dictionary? && Building(d) && LayoutOf(d) == LayoutOf(a) && DictionariesReadable(SkeletonOf(a))
    ensures r.Some? ==> PreparedInto(d, r.value, a, offs, out, path)
    ensures FlatDictionaries(a) && DictionariesRoom(SkeletonOf(d), a) ==> r.Some?
  {
    var dict := a.node.dictionary;
    if NestedValues(dict) { return None, offs; }
    out := offs[path := d.node.dictionary.length];
    var all: seq<nat> := [];
    for i := 0 to dict.length
      invariant |all| == i && forall j :: 0 <= j < i ==> all[j] == j
    {
      all := all + [i];
    }
    FlatPrepared(d.node.dictionary, dict);
    PickRange(Column(dict, 0), all, 0);
    var values := AppendRows(d.node.dictionary, Column(dict, 0), all, map[], []);
    if values.None? { return None, offs; }
    var res := d.(node := Dictionary(d.node.maxIndex, d.node.indices, values.value));
    r := Some(res);
    GrowsExtends(d, res);
    SkeletonLayout(d.node.dictionary, values.value);
    AppendedMerges(d.node.dictionary, values.value, dict);
  }

  /** One struct level: prepare the children one after the other. */
  method PrepareChildren(d: Array, a: Array, offs: DictOffsets, path: seq<nat>)
    returns (r: Option<Array>, out: DictOffsets)
    requires a.node.Struct? && Building(d) && LayoutOf(d) == LayoutOf(a) && DictionariesReadable(SkeletonOf(a))
    ensures r.Some? ==> PreparedInto(d, r.value, a, offs, out, path)
    ensures FlatDictionaries(a) && DictionariesRoom(SkeletonOf(d), a) ==> r.Some?
    decreases a, 0
  {
    out := offs;
    var was, src := d.node.children, a.node.children;
    assert |LayoutOf(d).children| == |LayoutOf(a).children|;
    var children: seq<Array> := [];
    for c := 0 to |src|
      invariant |children| == c && SameOutside(offs, out, path)
      invariant forall i :: 0 <= i < c ==> ChildPrepared(was[i], children[i], src[i], out, path + [i])
    {
      assert LayoutOf(d).children[c] == LayoutOf(a).children[c];
      assert DictionariesReadable(SkeletonOf(a).children[c]);
      var child, next := PrepareDictionaries(was[c], src[c], out, path + [c]);
      if child.None? { return None, offs; }
      forall i | 0 <= i < c ensures ChildPrepared(was[i], children[i], src[i], next, path + [i]) {
        PreparedFrame(SkeletonOf(children[i]), src[i], out, next, path + [i], path + [c], |path|);
      }
      SameOutsideChild(offs, out, next, path, c);
      children := children + [child.value];
      out := next;
    }
    StructPrepared(d, children, a, offs, out, path);
    r := Some(d.(node := Struct(children)));
  }

  ghost predicate ChildPrepared(d: Array, r: Array, a: Array, offs: DictOffsets, path: seq<nat>) {
    Building(r) && Extends(d, r) && r.length == d.length && LayoutOf(r) == LayoutOf(d) && ExtentOf(r) == ExtentOf(d) &&
    Prepared(SkeletonOf(r), a, offs, path) && DictionariesGrown(SkeletonOf(d), a, SkeletonOf(r)) &&
    (DictionariesReadable(SkeletonOf(d)) ==> DictionariesReadable(SkeletonOf(r)))
  }

  lemma {:induction false} PrefixOfChild(path: seq<nat>, c: nat, q: seq<nat>)
    ensures path + [c] <= q ==> path <= q
  {
  }

  lemma {:induction false} SameOutsideChild(x: DictOffsets, y: DictOffsets, z: DictOffsets, path: seq<nat>, c: nat)
    requires SameOutside(x, y, path) && SameOutside(y, z, path + [c])
    ensures SameOutside(x, z, path)
  {
    forall q | !(path <= q) ensures OffsetAt(x, q) == OffsetAt(z, q) {
      PrefixOfChild(path, c, q);
    }
  }

  lemma {:induction false} StructPrepared(d: Array, children: seq<Array>, a: Array, x: DictOffsets, y: DictOffsets,
                                          path: seq<nat>)
    requires d.node.Struct? && a.node.Struct? && Building(d) && SameOutside(x, y, path)
    requires |children| == |d.node.children| == |a.node.children|
    requires forall i :: 0 <= i < |children| ==>
               ChildPrepared(d.node.children[i], children[i], a.node.children[i], y, path + [i])
    ensures PreparedInto(d, d.(node := Struct(children)), a, x, y, path)
  {
    var r := d.(node := Struct(children));
    GrowsExtends(d, r);
    assert LayoutOf(r).children == LayoutOf(d).children && ExtentOf(r).children == ExtentOf(d).children;
  }

  lemma {:induction false} ItemsPrepared(d: Array, items: Array, a: Array, x: DictOffsets, y: DictOffsets,
                                         path: seq<nat>)
    requires Building(d)
    requires (d.node.List? && a.node.List?) || (d.node.FixedList? && a.node.FixedList? && d.node.size == a.node.size)
    requires var (before, src) := if d.node.List? then (d.node.items, a.node.items) else (d.node.elements, a.node.elements);
             PreparedInto(before, items, src, x, y, path + [0])
    ensures PreparedInto(d, d.(node := if d.node.List? then d.node.(items := items) else d.node.(elements := items)), a, x, y, path)
  {
    var r := d.(node := if d.node.List? then d.node.(items := items) else d.node.(elements := items));
    GrowsExtends(d, r);
    SameOutsideChild(x, x, y, path, 0);
  }

  /**
   Appends every dictionary of `a`, at any depth, to the matching dictionary of `d`, and records
   where each one starts. Dictionaries of nested values are refused.
   */
  method PrepareDictionaries(d: Array, a: Array, offs: DictOffsets, path: seq<nat>)
    returns (r: Option<Array>, out: DictOffsets)
    requires Building(d) && LayoutOf(d) == LayoutOf(a) && DictionariesReadable(SkeletonOf(a))
    ensures r.Some? ==> PreparedInto(d, r.value, a, offs, out, path)
    ensures FlatDictionaries(a) && DictionariesRoom(SkeletonOf(d), a) ==> r.Some?
    decreases a, 1
  {
    match a.node
    case Dictionary(_, _, _) => r, out := PrepareDictionary(d, a, offs, path);
    case Struct(_) => r, out := PrepareChildren(d, a, offs, path);
    case List(_, _, items) =>
      r, out := PrepareDictionaries(d.node.items, items, offs, path + [0]);
      if r.Some? {
        ItemsPrepared(d, r.value, a, offs, out, path);
        r := Some(d.(node := d.node.(items := r.value)));
      }
    case FixedList(_, elements) =>
      r, out := PrepareDictionaries(d.node.elements, elements, offs, path + [0]);
      if r.Some? {
        ItemsPrepared(d, r.value, a, offs, out, path);
        r := Some(d.(node := d.node.(elements := r.value)));
      }
    case _ => r, out := Some(d), offs;
  }

  // ---------------------------------------------------------------------------------------------
  // Whether the shifted indices fit
  // ---------------------------------------------------------------------------------------------

  predicate EmptyDictionaries(s: Skeleton)
    decreases s
  {
    match s
    case StructShape(children) => forall c :: 0 <= c < |children| ==> EmptyDictionaries(children[c])
    case ListShape(_, items) => EmptyDictionaries(items)
    case FixedListShape(_, elements) => EmptyDictionaries(elements)
    case DictionaryShape(_, dictionary) => dictionary.length == 0
    case _ => true
  }

  /** No dictionary has more entries than its index type can name. */
  predicate DictionariesFit(s: Skeleton)
    decreases s
  {
    match s
    case StructShape(children) => forall c :: 0 <= c < |children| ==> DictionariesFit(children[c])
    case ListShape(_, items) => DictionariesFit(items)
    case FixedListShape(_, elements) => DictionariesFit(elements)
    case DictionaryShape(maxIndex, dictionary) => dictionary.length <= maxIndex + 1
    case _ => true
  }

  lemma {:induction false} FreshIndicesFit(s: Skeleton, a: Array, t: Skeleton, offs: DictOffsets, path: seq<nat>)
    requires EmptyDictionaries(s) && DictionariesGrown(s, a, t) && Prepared(t, a, offs, path)
    requires IndicesFit(a, map[], path)
    ensures IndicesFit(a, offs, path)
    decreases a
  {
    match a.node
    case Struct(children) =>
      forall c | 0 <= c < |children| ensures IndicesFit(children[c], offs, path + [c]) {
        FreshIndicesFit(s.children[c], children[c], t.children[c], offs, path + [c]);
      }
    case List(_, _, items) => FreshIndicesFit(s.items, items, t.items, offs, path + [0]);
    case FixedList(_, elements) => FreshIndicesFit(s.elements, elements, t.elements, offs, path + [0]);
    case _ =>
  }

  lemma {:induction false} MergedIndicesFit(t: Skeleton, a: Array, offs: DictOffsets, path: seq<nat>)
    requires DictionariesFit(t) && Prepared(t, a, offs, path)
    ensures IndicesFit(a, offs, path)
    decreases a
  {
    match a.node
    case Struct(children) =>
      forall c | 0 <= c < |children| ensures IndicesFit(children[c], offs, path + [c]) {
        MergedIndicesFit(t.children[c], children[c], offs, path + [c]);
      }
    case List(_, _, items) => MergedIndicesFit(t.items, items, offs, path + [0]);
    case FixedList(_, elements) => MergedIndicesFit(t.elements, elements, offs, path + [0]);
    case _ =>
  }

  /** Every dictionary of `s` and the one of `a` together can be named by the index type. */
  predicate TogetherFit(s: Skeleton, a: Array)
    decreases a
  {
    match a.node
    case Struct(children) =>
      s.StructShape? && |s.children| == |children| &&
      forall c :: 0 <= c < |children| ==> TogetherFit(s.children[c], children[c])
    case List(_, _, items) => s.ListShape? && TogetherFit(s.items, items)
    case FixedList(_, elements) => s.FixedListShape? && TogetherFit(s.elements, elements)
    case Dictionary(maxIndex, _, dictionary) =>
      s.DictionaryShape? && s.dictionary.length + dictionary.length <= maxIndex + 1
    case _ => true
  }

  lemma {:induction false} GrownFit(s: Skeleton, a: Array, t: Skeleton, offs: DictOffsets, path: seq<nat>)
    requires TogetherFit(s, a) && DictionariesGrown(s, a, t) && Prepared(t, a, offs, path)
    ensures DictionariesFit(t)
    decreases a
  {
    match a.node
    case Struct(children) =>
      forall c | 0 <= c < |children| ensures DictionariesFit(t.children[c]) {
        GrownFit(s.children[c], children[c], t.children[c], offs, path + [c]);
      }
    case List(_, _, items) => GrownFit(s.items, items, t.items, offs, path + [0]);
    case FixedList(_, elements) => GrownFit(s.elements, elements, t.elements, offs, path + [0]);
    case _ =>
  }
}
