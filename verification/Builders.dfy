/**
 Arrays under construction. A builder is an `Array` at offset 0 that satisfies `Building`; the append
 primitives are nanoarrow's, and `Appended` says what appending means: the old slots keep their
 values and the new slots decode to the given ones. The physical work in between -- rebuilt offsets,
 padding under null parents -- has no specification of its own.
 */
module Builders {
  import opened Arrow
  import opened Basics
  import opened Options

  // ---------------------------------------------------------------------------------------------
  // Builders
  // ---------------------------------------------------------------------------------------------

  /** The representation invariant of an array under construction. */
  predicate Building(d: Array)
    decreases d
  {
    d.offset == 0 && (if d.node.Na? then d.validity == [] else |d.validity| == d.length) &&
    match d.node
    case Na => true
    case Fixed(data) => |data| == d.length
    case Variable(limit, ends, bytes) =>
      |ends| == d.length + 1 && Monotone(ends) && ends[d.length] == |bytes| <= limit
    case Struct(children) =>
      forall c :: 0 <= c < |children| ==> Building(children[c]) && children[c].length == d.length
    case List(limit, offsets, items) =>
      |offsets| == d.length + 1 && Monotone(offsets) && offsets[d.length] == items.length <= limit && Building(items)
    case FixedList(size, elements) => elements.length == d.length * size && Building(elements)
    case Dictionary(maxIndex, indices, dictionary) => |indices| == d.length && Building(dictionary)
    case Other => true
  }

  /** Everything readable in `d` is still there, with the same value, in `r`. */
  ghost predicate Extends(d: Array, r: Array) {
    d.length <= r.length &&
    forall k :: 0 <= k < d.length && Readable(d, k) ==> Readable(r, k) && At(r, k) == At(d, k)
  }

  /** One level of growth: own buffers extended on the right, children extended. */
  ghost predicate Grows(d: Array, r: Array) {
    d.offset == r.offset == 0 && d.length <= r.length && d.validity <= r.validity &&
    match d.node
    case Na => r.node.Na? && r.validity == []
    case Fixed(x) => r.node.Fixed? && x <= r.node.data
    case Variable(m, x, b) => r.node.Variable? && m == r.node.limit && x <= r.node.ends && b <= r.node.bytes
    case Struct(x) =>
      r.node.Struct? && |x| == |r.node.children| && forall c :: 0 <= c < |x| ==> Extends(x[c], r.node.children[c])
    case List(m, x, i) => r.node.List? && m == r.node.limit && x <= r.node.offsets && Extends(i, r.node.items)
    case FixedList(n, i) => r.node.FixedList? && n == r.node.size && Extends(i, r.node.elements)
    case Dictionary(m, x, i) =>
      r.node.Dictionary? && m == r.node.maxIndex && x <= r.node.indices && Extends(i, r.node.dictionary)
    case Other => r.node.Other?
  }

  lemma {:induction false} MulStep(p: nat, n: nat, size: nat)
    requires p < n
    ensures p * size + size <= n * size
  {
    assert (p + 1) * size <= n * size;
  }

  lemma {:induction false} ExtendsRows(x: Array, y: Array, from: nat, n: nat)
    requires Extends(x, y) && AllReadable(x, from, n) && from + n <= x.length
    ensures AllReadable(y, from, n) && Rows(y, from, n) == Rows(x, from, n)
  {
  }

  lemma {:induction false} GrowsFixedList(d: Array, r: Array, k: nat)
    requires d.node.FixedList? && Building(d) && Grows(d, r) && k < d.length && Readable(d, k) && !NullSlot(d, k)
    ensures Readable(r, k) && At(r, k) == At(d, k)
  {
    MulStep(k, d.length, d.node.size);
    ExtendsRows(d.node.elements, r.node.elements, k * d.node.size, d.node.size);
  }

  lemma {:induction false} GrowsList(d: Array, r: Array, k: nat)
    requires d.node.List? && Building(d) && Grows(d, r) && k < d.length && Readable(d, k) && !NullSlot(d, k)
    ensures Readable(r, k) && At(r, k) == At(d, k)
  {
    var from, to := d.node.offsets[k], d.node.offsets[k + 1];
    ExtendsRows(d.node.items, r.node.items, from, to - from);
  }

  lemma {:induction false} GrowsStruct(d: Array, r: Array, k: nat)
    requires d.node.Struct? && Building(d) && Grows(d, r) && k < d.length && Readable(d, k) && !NullSlot(d, k)
    ensures Readable(r, k) && At(r, k) == At(d, k)
  {
    assert At(r, k).fields == At(d, k).fields;
  }

  lemma {:induction false} GrowsFlat(d: Array, r: Array, k: nat)
    requires !d.node.Struct? && !d.node.List? && !d.node.FixedList?
    requires Building(d) && Grows(d, r) && k < d.length && Readable(d, k) && !NullSlot(d, k)
    ensures Readable(r, k) && At(r, k) == At(d, k)
  {
    if d.node.Variable? {
      var from, to := d.node.ends[k], d.node.ends[k + 1];
      assert r.node.bytes[from..to] == d.node.bytes[from..to];
    }
  }

  lemma {:induction false} GrowsSlot(d: Array, r: Array, k: nat)
    requires Building(d) && Grows(d, r) && k < d.length && Readable(d, k)
    ensures Readable(r, k) && At(r, k) == At(d, k)
  {
    if NullSlot(d, k) {
      assert NullSlot(r, k);
    } else if d.node.Struct? {
      GrowsStruct(d, r, k);
    } else if d.node.List? {
      GrowsList(d, r, k);
    } else if d.node.FixedList? {
      GrowsFixedList(d, r, k);
    } else {
      GrowsFlat(d, r, k);
    }
  }

  lemma {:induction false} GrowsExtends(d: Array, r: Array)
    requires Building(d) && Grows(d, r)
    ensures Extends(d, r)
  {
    forall k | 0 <= k < d.length && Readable(d, k) { GrowsSlot(d, r, k); }
  }

  // ---------------------------------------------------------------------------------------------
  // Append primitives (nanoarrow's ArrowArrayAppend*)
  // ---------------------------------------------------------------------------------------------

  function Fill<T>(n: nat, x: T): seq<T> {
    seq(n, _ => x)
  }

  /** `n` valid zero elements; what the children of a null struct or fixed-size list receive. */
  function Pad(d: Array, n: nat): (r: Array)
    requires Building(d)
    decreases d, 1
  {
    Array(0, d.length + n, if d.node.Na? then [] else d.validity + Fill(n, true), PadNode(d, n))
  }

  function PadNode(d: Array, n: nat): Node
    requires Building(d)
    decreases d, 0
  {
    match d.node
    case Na => Na
    case Fixed(data) => Fixed(data + Fill(n, SInt(0)))
    case Variable(limit, ends, bytes) => Variable(limit, ends + Fill(n, |bytes|), bytes)
    case Struct(children) =>
      Struct(seq(|children|, c requires 0 <= c < |children| => Pad(children[c], n)))
    case List(limit, offsets, items) => List(limit, offsets + Fill(n, items.length), items)
    case FixedList(size, elements) => FixedList(size, Pad(elements, n * size))
    case Dictionary(maxIndex, indices, dictionary) => Dictionary(maxIndex, indices + Fill(n, 0), dictionary)
    case Other => Other
  }

  function AppendNull(d: Array): (r: Array)
    requires Building(d)
  {
    Array(0, d.length + 1, if d.node.Na? then [] else d.validity + [false], PadNode(d, 1))
  }

  function AppendScalar(d: Array, v: Scalar): (r: Array)
    requires d.node.Fixed?
  {
    Array(0, d.length + 1, d.validity + [true], Fixed(d.node.data + [v]))
  }

  /** Refused when the offsets cannot reach that far. */
  function AppendBytes(d: Array, text: seq<Byte>): (r: Option<Array>)
    requires d.node.Variable?
  {
    if |d.node.bytes| + |text| <= d.node.limit
    then Some(Array(0, d.length + 1, d.validity + [true],
                    Variable(d.node.limit, d.node.ends + [|d.node.bytes| + |text|], d.node.bytes + text)))
    else None
  }

  /** Appends a dictionary index; refused when it does not fit the index type. */
  function AppendIndex(d: Array, index: int): (r: Option<Array>)
    requires d.node.Dictionary?
  {
    if index <= d.node.maxIndex
    then Some(Array(0, d.length + 1, d.validity + [true],
                    Dictionary(d.node.maxIndex, d.node.indices + [index], d.node.dictionary)))
    else None
  }

  /** Closes one struct element whose fields were appended to the children. */
  function FinishStruct(d: Array, children: seq<Array>): (r: Array)
    requires forall c :: 0 <= c < |children| ==> children[c].length == d.length + 1
  {
    Array(0, d.length + 1, d.validity + [true], Struct(children))
  }

  /** Closes one list element: everything appended to the items since the last one. */
  function FinishList(d: Array, items: Array): (r: Option<Array>)
    requires d.node.List? || (d.node.FixedList? && items.length == (d.length + 1) * d.node.size)
  {
    if d.node.FixedList? then Some(Array(0, d.length + 1, d.validity + [true], FixedList(d.node.size, items)))
    else if items.length <= d.node.limit
    then Some(Array(0, d.length + 1, d.validity + [true], List(d.node.limit, d.node.offsets + [items.length], items)))
    else None
  }

  // ---------------------------------------------------------------------------------------------
  // Skeletons: the shape of a builder together with its dictionaries
  // ---------------------------------------------------------------------------------------------

  datatype Skeleton =
    | NaShape
    | FixedShape
    | VariableShape(limit: nat)
    | StructShape(children: seq<Skeleton>)
    | ListShape(limit: nat, items: Skeleton)
    | FixedListShape(size: nat, elements: Skeleton)
    | DictionaryShape(maxIndex: nat, dictionary: Array)
    | OtherShape

  function SkeletonOf(a: Array): Skeleton
    decreases a
  {
    match a.node
    case Na => NaShape
    case Fixed(_) => FixedShape
    case Variable(limit, _, _) => VariableShape(limit)
    case Struct(children) =>
      StructShape(seq(|children|, c requires 0 <= c < |children| => SkeletonOf(children[c])))
    case List(limit, _, items) => ListShape(limit, SkeletonOf(items))
    case FixedList(size, elements) => FixedListShape(size, SkeletonOf(elements))
    case Dictionary(maxIndex, _, dictionary) => DictionaryShape(maxIndex, dictionary)
    case Other => OtherShape
  }

  // ---------------------------------------------------------------------------------------------
  // Extents: how far the offsets of a builder reach
  // ---------------------------------------------------------------------------------------------

  datatype Extent =
    | NoExtent
    | BytesExtent(n: nat)
    | ItemsExtent(n: nat, items: Extent)
    | StructExtent(children: seq<Extent>)
    | ElementsExtent(elements: Extent)

  function ExtentOf(a: Array): Extent
    decreases a
  {
    match a.node
    case Variable(_, _, bytes) => BytesExtent(|bytes|)
    case List(_, _, items) => ItemsExtent(items.length, ExtentOf(items))
    case Struct(children) => StructExtent(seq(|children|, c requires 0 <= c < |children| => ExtentOf(children[c])))
    case FixedList(_, elements) => ElementsExtent(ExtentOf(elements))
    case _ => NoExtent
  }

  /** What appending `v` makes of an extent; nulls and padding take nothing. */
  function Plus(e: Extent, v: Value): Extent
    decreases v
  {
    match e
    case BytesExtent(n) => if v.Leaf? && v.scalar.SBytes? then BytesExtent(n + |v.scalar.text|) else e
    case ItemsExtent(n, items) => if v.Sequence? then ItemsExtent(n + |v.elems|, PlusAll(items, v.elems)) else e
    case StructExtent(children) =>
      if v.Record? && |v.fields| == |children|
      then StructExtent(seq(|children|, c requires 0 <= c < |children| => Plus(children[c], v.fields[c]))) else e
    case ElementsExtent(elements) => if v.Sequence? then ElementsExtent(PlusAll(elements, v.elems)) else e
    case NoExtent => e
  }

  function PlusAll(e: Extent, vs: seq<Value>): Extent
    decreases vs
  {
    if vs == [] then e else Plus(PlusAll(e, vs[..|vs| - 1]), vs[|vs| - 1])
  }

  /** Every offset buffer can reach as far as the extent says. */
  predicate Fits(s: Skeleton, e: Extent)
    decreases s
  {
    match s
    case VariableShape(limit) => e.BytesExtent? && e.n <= limit
    case ListShape(limit, items) => e.ItemsExtent? && e.n <= limit && Fits(items, e.items)
    case StructShape(children) =>
      e.StructExtent? && |e.children| == |children| && forall c :: 0 <= c < |children| ==> Fits(children[c], e.children[c])
    case FixedListShape(_, elements) => e.ElementsExtent? && Fits(elements, e.elements)
    case _ => true
  }

  /** There is room for `vs` in `d`: no offset overflows, at any depth. */
  predicate Room(d: Array, vs: seq<Value>) {
    Fits(SkeletonOf(d), PlusAll(ExtentOf(d), vs))
  }

  lemma {:induction false} PlusNext(e: Extent, vs: seq<Value>, v: Value)
    ensures PlusAll(e, vs + [v]) == Plus(PlusAll(e, vs), v)
  {
    var all := vs + [v];
    assert all[..|all| - 1] == vs;
  }

  lemma {:induction false} PlusOne(e: Extent, v: Value)
    ensures PlusAll(e, [v]) == Plus(e, v)
  {
    var none: seq<Value> := [];
    assert [v] == none + [v];
    PlusNext(e, none, v);
  }

  lemma {:induction false} PlusConcat(e: Extent, a: seq<Value>, b: seq<Value>)
    ensures PlusAll(e, a + b) == PlusAll(PlusAll(e, a), b)
    decreases |b|
  {
    if b == [] {
      assert a + b == a;
    } else {
      var n := |b| - 1;
      assert a + b == (a + b[..n]) + [b[n]];
      PlusNext(e, a + b[..n], b[n]);
      PlusConcat(e, a, b[..n]);
    }
  }

  /** Appending never makes room. */
  lemma {:induction false} FitsBefore(s: Skeleton, e: Extent, v: Value)
    requires Fits(s, Plus(e, v))
    ensures Fits(s, e)
    decreases v
  {
    if e.ItemsExtent? && v.Sequence? {
      if s.ListShape? { FitsPrefix(s.items, e.items, v.elems, 0); }
    } else if e.ElementsExtent? && v.Sequence? {
      if s.FixedListShape? { FitsPrefix(s.elements, e.elements, v.elems, 0); }
    } else if e.StructExtent? && v.Record? && s.StructShape? && |v.fields| == |e.children| {
      forall c | 0 <= c < |s.children| ensures Fits(s.children[c], e.children[c]) {
        FitsBefore(s.children[c], e.children[c], v.fields[c]);
      }
    }
  }

  lemma {:induction false} FitsPrefix(s: Skeleton, e: Extent, vs: seq<Value>, n: nat)
    requires n <= |vs| && Fits(s, PlusAll(e, vs))
    ensures Fits(s, PlusAll(e, vs[..n]))
    decreases vs
  {
    if n < |vs| {
      var most := vs[..|vs| - 1];
      FitsBefore(s, PlusAll(e, most), vs[|vs| - 1]);
      FitsPrefix(s, e, most, n);
      assert most[..n] == vs[..n];
    } else {
      assert vs[..n] == vs;
    }
  }

  lemma {:induction false} BuildingFits(d: Array)
    requires Building(d)
    ensures Fits(SkeletonOf(d), ExtentOf(d))
    decreases d
  {
    match d.node
    case Struct(children) => forall c | 0 <= c < |children| { BuildingFits(children[c]); }
    case List(_, _, items) => BuildingFits(items);
    case FixedList(_, elements) => BuildingFits(elements);
    case _ =>
  }

  lemma {:induction false} PadOk(d: Array, n: nat)
    requires Building(d)
    ensures Building(Pad(d, n)) && SkeletonOf(Pad(d, n)) == SkeletonOf(d)
    ensures Pad(d, n).length == d.length + n && Extends(d, Pad(d, n)) && ExtentOf(Pad(d, n)) == ExtentOf(d)
    decreases d, 1
  {
    PadNodeOk(d, n, Pad(d, n).validity);
  }

  lemma {:induction false} PadNodeOk(d: Array, n: nat, v: seq<bool>)
    requires Building(d)
    requires if d.node.Na? then v == [] else |v| == d.length + n && d.validity <= v
    ensures var r := Array(0, d.length + n, v, PadNode(d, n));
            Building(r) && SkeletonOf(r) == SkeletonOf(d) && Extends(d, r) && ExtentOf(r) == ExtentOf(d)
    decreases d, 0
  {
    var r := Array(0, d.length + n, v, PadNode(d, n));
    if d.node.Struct? {
      forall c | 0 <= c < |d.node.children| { PadOk(d.node.children[c], n); }
      PadStruct(d, n, v);
    } else if d.node.FixedList? {
      PadOk(d.node.elements, n * d.node.size);
      assert (d.length + n) * d.node.size == d.length * d.node.size + n * d.node.size;
    } else {
      PadFlat(d, n, v);
    }
    GrowsExtends(d, r);
  }

  predicate Padded(d: Array, r: Array, n: nat) {
    Building(r) && SkeletonOf(r) == SkeletonOf(d) && r.length == d.length + n && ExtentOf(r) == ExtentOf(d)
  }

  lemma {:induction false} PadStruct(d: Array, n: nat, v: seq<bool>)
    requires Building(d) && d.node.Struct? && |v| == d.length + n && d.validity <= v
    requires forall c :: 0 <= c < |d.node.children| ==>
      Padded(d.node.children[c], Pad(d.node.children[c], n), n) && Extends(d.node.children[c], Pad(d.node.children[c], n))
    ensures var r := Array(0, d.length + n, v, PadNode(d, n)); Padded(d, r, n) && Grows(d, r)
  {
    var r := Array(0, d.length + n, v, PadNode(d, n));
    assert SkeletonOf(r).children == SkeletonOf(d).children;
    assert ExtentOf(r).children == ExtentOf(d).children;
  }

  lemma {:induction false} PadFlat(d: Array, n: nat, v: seq<bool>)
    requires Building(d) && !d.node.Struct? && !d.node.FixedList?
    requires if d.node.Na? then v == [] else |v| == d.length + n && d.validity <= v
    ensures var r := Array(0, d.length + n, v, PadNode(d, n));
            Building(r) && SkeletonOf(r) == SkeletonOf(d) && Grows(d, r) && ExtentOf(r) == ExtentOf(d)
  {
  }

  // ---------------------------------------------------------------------------------------------
  // What appending means
  // ---------------------------------------------------------------------------------------------

  /** `r` is `d` followed by elements that decode to `vals`; the dictionaries are untouched. */
  ghost predicate Appended(d: Array, r: Array, vals: seq<Value>) {
    Building(r) && SkeletonOf(r) == SkeletonOf(d) && Extends(d, r) && r.length == d.length + |vals| &&
    AllReadable(r, d.length, |vals|) && Rows(r, d.length, |vals|) == vals &&
    ExtentOf(r) == PlusAll(ExtentOf(d), vals)
  }

  lemma {:induction false} AppendedNone(d: Array)
    requires Building(d)
    ensures Appended(d, d, [])
  {
  }

  /** `Appended` for one element, from the facts about its slot. */
  lemma {:induction false} AppendedOne(d: Array, r: Array, v: Value)
    requires Building(r) && SkeletonOf(r) == SkeletonOf(d) && Extends(d, r) && r.length == d.length + 1
    requires Readable(r, d.length) && At(r, d.length) == v && ExtentOf(r) == Plus(ExtentOf(d), v)
    ensures Appended(d, r, [v])
  {
    PlusOne(ExtentOf(d), v);
  }

  /** What was appended had room. */
  lemma {:induction false} AppendedHadRoom(d: Array, r: Array, vals: seq<Value>)
    requires Appended(d, r, vals)
    ensures Room(d, vals)
  {
    BuildingFits(r);
  }

  /** The slots of two appends, one after the other. */
  lemma {:induction false} AppendedRows(d: Array, m: Array, r: Array, vs: seq<Value>, v: Value)
    requires m.length == d.length + |vs| && r.length == m.length + 1 && Extends(m, r)
    requires AllReadable(m, d.length, |vs|) && Rows(m, d.length, |vs|) == vs
    requires AllReadable(r, m.length, 1) && Rows(r, m.length, 1) == [v]
    ensures AllReadable(r, d.length, |vs| + 1) && Rows(r, d.length, |vs| + 1) == vs + [v]
  {
    assert Readable(r, m.length) && At(r, m.length) == Rows(r, m.length, 1)[0];
    forall j | d.length <= j < r.length
      ensures Readable(r, j) && At(r, j) == (vs + [v])[j - d.length]
    {
      if j < m.length {
        assert Readable(m, j) && At(m, d.length + (j - d.length)) == Rows(m, d.length, |vs|)[j - d.length];
      }
    }
  }

  lemma {:induction false} AppendedThen(d: Array, m: Array, r: Array, vs: seq<Value>, v: Value)
    requires Appended(d, m, vs) && Appended(m, r, [v])
    ensures Appended(d, r, vs + [v])
  {
    AppendedRows(d, m, r, vs, v);
    PlusNext(ExtentOf(d), vs, v);
    PlusOne(ExtentOf(m), v);
  }

  /** Room for all is, with the first `k` appended, room for the next. */
  lemma {:induction false} RoomForNext(d: Array, m: Array, all: seq<Value>, k: nat)
    requires k < |all| && Appended(d, m, all[..k]) && Room(d, all)
    ensures Room(m, [all[k]])
  {
    assert all[..k + 1] == all[..k] + [all[k]];
    FitsPrefix(SkeletonOf(d), ExtentOf(d), all, k + 1);
    PlusNext(ExtentOf(d), all[..k], all[k]);
    PlusOne(ExtentOf(m), all[k]);
  }

  lemma {:induction false} AppendedNull(d: Array)
    requires Building(d)
    ensures Appended(d, AppendNull(d), [Null])
  {
    PadNodeOk(d, 1, AppendNull(d).validity);
    AppendedOne(d, AppendNull(d), Null);
  }

  lemma {:induction false} AppendedScalar(d: Array, v: Scalar)
    requires Building(d) && d.node.Fixed?
    ensures Appended(d, AppendScalar(d, v), [Leaf(v)])
  {
    GrowsExtends(d, AppendScalar(d, v));
    AppendedOne(d, AppendScalar(d, v), Leaf(v));
  }

  lemma {:induction false} BytesBuilding(d: Array, text: seq<Byte>)
    requires Building(d) && d.node.Variable? && AppendBytes(d, text).Some?
    ensures Building(AppendBytes(d, text).value) && Grows(d, AppendBytes(d, text).value)
  {
  }

  lemma {:induction false} BytesSlot(d: Array, text: seq<Byte>)
    requires Building(d) && d.node.Variable? && AppendBytes(d, text).Some?
    ensures Readable(AppendBytes(d, text).value, d.length)
    ensures At(AppendBytes(d, text).value, d.length) == Leaf(SBytes(text))
  {
    var bytes := d.node.bytes;
    assert (bytes + text)[|bytes|..|bytes| + |text|] == text;
  }

  lemma {:induction false} AppendedBytes(d: Array, text: seq<Byte>)
    requires Building(d) && d.node.Variable?
    ensures AppendBytes(d, text).Some? ==> Appended(d, AppendBytes(d, text).value, [Leaf(SBytes(text))])
    ensures AppendBytes(d, text).Some? <==> Room(d, [Leaf(SBytes(text))])
  {
    PlusOne(ExtentOf(d), Leaf(SBytes(text)));
    if AppendBytes(d, text).Some? {
      var r := AppendBytes(d, text).value;
      BytesBuilding(d, text);
      GrowsExtends(d, r);
      BytesSlot(d, text);
      AppendedOne(d, r, Leaf(SBytes(text)));
    }
  }

  lemma {:induction false} AppendedIndex(d: Array, index: nat)
    requires Building(d) && d.node.Dictionary? && AppendIndex(d, index).Some?
    requires index < d.node.dictionary.length && Readable(d.node.dictionary, index)
    ensures Appended(d, AppendIndex(d, index).value, [At(d.node.dictionary, index)])
  {
    var r := AppendIndex(d, index).value;
    GrowsExtends(d, r);
    assert Readable(r, d.length);
    AppendedOne(d, r, At(d.node.dictionary, index));
  }

  /** What each child contributes to a finished struct element. */
  ghost predicate ChildReady(d: Array, child: Array, before: Array, v: Value) {
    Building(child) && child.length == d.length + 1 && Extends(before, child) &&
    SkeletonOf(child) == SkeletonOf(before) && Readable(child, d.length) && At(child, d.length) == v &&
    ExtentOf(child) == Plus(ExtentOf(before), v)
  }

  lemma {:induction false} ChildIsReady(d: Array, child: Array, before: Array, v: Value)
    requires Appended(before, child, [v]) && before.length == d.length
    ensures ChildReady(d, child, before, v)
  {
    assert At(child, d.length) == Rows(child, d.length, 1)[0];
    PlusOne(ExtentOf(before), v);
  }

  lemma {:induction false} StructSlot(d: Array, children: seq<Array>, fields: seq<Value>)
    requires Building(d) && d.node.Struct? && |children| == |d.node.children| == |fields|
    requires forall c :: 0 <= c < |children| ==> ChildReady(d, children[c], d.node.children[c], fields[c])
    requires forall c :: 0 <= c < |children| ==> children[c].length == d.length + 1
    ensures Building(FinishStruct(d, children)) && Grows(d, FinishStruct(d, children))
    ensures SkeletonOf(FinishStruct(d, children)) == SkeletonOf(d)
    ensures Readable(FinishStruct(d, children), d.length)
    ensures At(FinishStruct(d, children), d.length) == Record(fields)
    ensures ExtentOf(FinishStruct(d, children)) == Plus(ExtentOf(d), Record(fields))
  {
    var r := FinishStruct(d, children);
    assert SkeletonOf(r).children == SkeletonOf(d).children;
    assert At(r, d.length).fields == fields;
    assert ExtentOf(r).children == Plus(ExtentOf(d), Record(fields)).children;
  }

  /** Every child got its component, so the struct got the record. */
  lemma {:induction false} AppendedStruct(d: Array, children: seq<Array>, fields: seq<Value>)
    requires Building(d) && d.node.Struct? && |children| == |d.node.children| == |fields|
    requires forall c :: 0 <= c < |children| ==> Appended(d.node.children[c], children[c], [fields[c]])
    ensures forall c :: 0 <= c < |children| ==> children[c].length == d.length + 1
    ensures Appended(d, FinishStruct(d, children), [Record(fields)])
  {
    forall c | 0 <= c < |children| ensures ChildReady(d, children[c], d.node.children[c], fields[c]) {
      ChildIsReady(d, children[c], d.node.children[c], fields[c]);
    }
    StructSlot(d, children, fields);
    GrowsExtends(d, FinishStruct(d, children));
    AppendedOne(d, FinishStruct(d, children), Record(fields));
  }

  /** Room for a struct element is room for every field in its child. */
  lemma {:induction false} RoomInStruct(d: Array, fields: seq<Value>)
    requires d.node.Struct? && |fields| == |d.node.children|
    ensures Room(d, [Record(fields)]) <==> forall c :: 0 <= c < |fields| ==> Room(d.node.children[c], [fields[c]])
  {
    PlusOne(ExtentOf(d), Record(fields));
    forall c | 0 <= c < |fields|
      ensures PlusAll(ExtentOf(d.node.children[c]), [fields[c]]) == Plus(ExtentOf(d), Record(fields)).children[c]
      ensures SkeletonOf(d).children[c] == SkeletonOf(d.node.children[c])
    {
      PlusOne(ExtentOf(d.node.children[c]), fields[c]);
    }
  }

  /** The items a list builder collects. */
  function ItemsBuilder(d: Array): Array
    requires d.node.List? || d.node.FixedList?
  {
    if d.node.List? then d.node.items else d.node.elements
  }

  /** Room for a list element is room for its items, and for the offset past them. */
  lemma {:induction false} RoomInList(d: Array, elems: seq<Value>)
    requires d.node.List? || d.node.FixedList?
    ensures Room(d, [Sequence(elems)]) <==>
      Room(ItemsBuilder(d), elems) && (d.node.List? ==> d.node.items.length + |elems| <= d.node.limit)
  {
    PlusOne(ExtentOf(d), Sequence(elems));
  }

  lemma {:induction false} AppendedList(d: Array, items: Array, elems: seq<Value>)
    requires Building(d) && d.node.List? && Appended(d.node.items, items, elems)
    ensures FinishList(d, items).Some? ==> Appended(d, FinishList(d, items).value, [Sequence(elems)])
    ensures FinishList(d, items).Some? <==> Room(d, [Sequence(elems)])
  {
    RoomInList(d, elems);
    AppendedHadRoom(d.node.items, items, elems);
    if FinishList(d, items).Some? {
      var r := FinishList(d, items).value;
      GrowsExtends(d, r);
      AppendedOne(d, r, Sequence(elems));
    }
  }

  lemma {:induction false} AppendedFixedList(d: Array, items: Array, elems: seq<Value>)
    requires Building(d) && d.node.FixedList? && |elems| == d.node.size && Appended(d.node.elements, items, elems)
    ensures items.length == (d.length + 1) * d.node.size
    ensures FinishList(d, items).Some? && Appended(d, FinishList(d, items).value, [Sequence(elems)])
    ensures Room(d, [Sequence(elems)])
  {
    assert (d.length + 1) * d.node.size == d.length * d.node.size + d.node.size;
    RoomInList(d, elems);
    AppendedHadRoom(d.node.elements, items, elems);
    var r := FinishList(d, items).value;
    GrowsExtends(d, r);
    AppendedOne(d, r, Sequence(elems));
  }
}
