/**
 Converting a column to another type, element by element (`AppendConverted` in
 src/vgi_arrow_utils.cpp). `Convert` says what conversion means for a decoded value; the builder code
 is proved against it, and where two types have the same layout it is the identity.
 */
module Conversion {
  import opened Arrow
  import opened Basics
  import opened Builders
  import opened Options
  import opened SchemaTypes
  import opened TimeUnits

  // ---------------------------------------------------------------------------------------------
  // Kinds
  // ---------------------------------------------------------------------------------------------

  predicate Signed(k: Kind) {
    k.Int8? || k.Int16? || k.Int32? || k.Int64?
  }

  predicate Unsigned(k: Kind) {
    k.UInt8? || k.UInt16? || k.UInt32? || k.UInt64?
  }

  predicate Floating(k: Kind) {
    k.HalfFloat? || k.Float? || k.Double?
  }

  predicate Date(k: Kind) {
    k.Date32? || k.Date64?
  }

  predicate Textual(k: Kind) {
    k.String? || k.LargeString? || k.StringView? || k.Binary? || k.LargeBinary? || k.BinaryView? || k.FixedSizeBinary?
  }

  predicate Listing(k: Kind) {
    k.ListKind? || k.LargeListKind? || k.MapKind? || k.FixedSizeListKind?
  }

  /** A leaf stored in a fixed-width slot. */
  predicate Slotted(k: Kind) {
    k.Bool? || Signed(k) || Unsigned(k) || Floating(k) || Date(k) || HasUnit(k) || k.FixedSizeBinary? ||
    k.Decimal128? || k.Decimal256? || k.OtherKind?
  }

  /** Half the number of values of the integer type that stores the kind. */
  function HalfRange(k: Kind): int {
    match k
    case Int8 | UInt8 => 0x80
    case Int16 | UInt16 => 0x8000
    case Int32 | UInt32 | Date32 | Time32 => 0x8000_0000
    case _ => HALF
  }

  predicate IntFits(k: Kind, x: int) {
    -HalfRange(k) <= x < HalfRange(k)
  }

  predicate UIntFits(k: Kind, x: int) {
    0 <= x < 2 * HalfRange(k)
  }

  /** What a slot of this kind may hold. */
  predicate ScalarOk(v: View, x: Scalar) {
    if v.kind.Bool? then x.SInt? && 0 <= x.i <= 1
    else if Signed(v.kind) || Date(v.kind) || HasUnit(v.kind) then x.SInt? && IntFits(v.kind, x.i)
    else if Unsigned(v.kind) then x.SUInt? && UIntFits(v.kind, x.n)
    else if Floating(v.kind) then x.SFloat?
    else if Textual(v.kind) then x.SBytes? && (v.kind.FixedSizeBinary? ==> |x.text| == v.fixedSize)
    else true
  }

  // ---------------------------------------------------------------------------------------------
  // Converting values
  // ---------------------------------------------------------------------------------------------

  /** Floating point is opaque: reading a slot as a double and storing it, and storing an integer. */
  datatype Floats = Floats(recast: (Kind, Kind, int) -> int, ofInt: (Kind, int) -> int)

  /** Storing back what was read from a slot of the same kind changes nothing. */
  ghost predicate Exact(fl: Floats) {
    forall k, bits {:trigger fl.recast(k, k, bits)} :: fl.recast(k, k, bits) == bits
  }

  /** `append::Int` and `append::UInt` refuse what the slot cannot hold; a boolean slot keeps one bit. */
  function StoreInt(k: Kind, x: int): Option<Scalar> {
    if k.Bool? then Some(SInt(if x != 0 then 1 else 0))
    else if IntFits(k, x) then Some(SInt(x))
    else None
  }

  function StoreUInt(k: Kind, x: int): Option<Scalar> {
    if UIntFits(k, x) then Some(SUInt(x)) else None
  }

  /** Casts between int64_t and uint64_t. */
  function AsInt64(n: nat): int {
    if n >= HALF then n - WORD else n
  }

  function AsUInt64(i: int): int {
    if i < 0 then i + WORD else i
  }

  function ToInt(sv: View, dv: View, x: Scalar): Option<Scalar> {
    if Unsigned(sv.kind) && x.SUInt? then StoreInt(dv.kind, AsInt64(x.n))
    else if x.SInt? && (sv.kind.Bool? || Signed(sv.kind) || (Date(sv.kind) && sv.kind == dv.kind)) then StoreInt(dv.kind, x.i)
    else None
  }

  function ToUInt(sv: View, dv: View, x: Scalar): Option<Scalar> {
    if Unsigned(sv.kind) && x.SUInt? then StoreUInt(dv.kind, x.n)
    else if Signed(sv.kind) && x.SInt? then StoreUInt(dv.kind, AsUInt64(x.i))
    else None
  }

  function ToFloat(fl: Floats, sv: View, dv: View, x: Scalar): Option<Scalar> {
    if Floating(sv.kind) && x.SFloat? then Some(SFloat(fl.recast(sv.kind, dv.kind, x.bits)))
    else if Signed(sv.kind) && x.SInt? then Some(SFloat(fl.ofInt(dv.kind, x.i)))
    else None
  }

  function ToText(sv: View, dv: View, x: Scalar): Option<Scalar> {
    if Textual(sv.kind) && x.SBytes? && (dv.kind.FixedSizeBinary? ==> |x.text| == dv.fixedSize) then Some(x) else None
  }

  function ToTime(sv: View, dv: View, x: Scalar): Option<Scalar> {
    if x.SInt? && HasUnit(sv.kind) &&
       (sv.kind == dv.kind || (sv.kind.Time32? && dv.kind.Time64?) || (sv.kind.Time64? && dv.kind.Time32?))
    then StoreInt(dv.kind, Rescale(x.i, sv.unit, dv.unit)) else None
  }

  /** A leaf; `None` is the refusal to cast. */
  function ConvertLeaf(fl: Floats, sv: View, dv: View, x: Scalar): Option<Scalar> {
    if dv.kind.Bool? || Signed(dv.kind) || Date(dv.kind) then ToInt(sv, dv, x)
    else if Unsigned(dv.kind) then ToUInt(sv, dv, x)
    else if Floating(dv.kind) then ToFloat(fl, sv, dv, x)
    else if Textual(dv.kind) then ToText(sv, dv, x)
    else if HasUnit(dv.kind) then ToTime(sv, dv, x)
    else None
  }

  /** The type a leaf is read as: a dictionary column reads through its dictionary. */
  function LeafSchema(s: ArrowSchema): ArrowSchema {
    if s.dictionary.Some? then s.dictionary.value else s
  }

  /** The value `v` of a column of type `s`, as a value of type `t`; `None` when that is refused. */
  function Convert(lib: Library, fl: Floats, s: ArrowSchema, t: ArrowSchema, v: Value): Option<Value>
    decreases v
  {
    if v.Null? then Some(Null)
    else if t.dictionary.Some? || ViewOf(lib, t).None? then None
    else
      var dv := ViewOf(lib, t).value;
      if dv.kind.StructKind? then
        if |s.children| == |t.children| && v.Record? && |v.fields| == |t.children| &&
           forall c :: 0 <= c < |v.fields| ==> Convert(lib, fl, s.children[c], t.children[c], v.fields[c]).Some?
        then Some(Record(seq(|v.fields|, c requires 0 <= c < |v.fields| =>
                    Convert(lib, fl, s.children[c], t.children[c], v.fields[c]).value)))
        else None
      else if Listing(dv.kind) then
        if s.dictionary.None? && ViewOf(lib, s).Some? && Listing(ViewOf(lib, s).value.kind) &&
           |s.children| == 1 && |t.children| == 1 && v.Sequence? &&
           (dv.kind.FixedSizeListKind? ==> |v.elems| == dv.fixedSize) &&
           forall j :: 0 <= j < |v.elems| ==> Convert(lib, fl, s.children[0], t.children[0], v.elems[j]).Some?
        then Some(Sequence(seq(|v.elems|, j requires 0 <= j < |v.elems| =>
                    Convert(lib, fl, s.children[0], t.children[0], v.elems[j]).value)))
        else None
      else
        var sv := ViewOf(lib, LeafSchema(s));
        if sv.None? || !v.Leaf? || ConvertLeaf(fl, sv.value, dv, v.scalar).None? then None
        else Some(Leaf(ConvertLeaf(fl, sv.value, dv, v.scalar).value))
  }

  /** The values a column of type `s` can decode to. */
  predicate Typed(lib: Library, s: ArrowSchema, v: Value)
    decreases v, s
  {
    v.Null? ||
    (if s.dictionary.Some? then Typed(lib, s.dictionary.value, v)
     else
       ViewOf(lib, s).Some? &&
       var sv := ViewOf(lib, s).value;
       if sv.kind.StructKind? then
         v.Record? && |v.fields| == |s.children| &&
         forall c :: 0 <= c < |v.fields| ==> Typed(lib, s.children[c], v.fields[c])
       else if Listing(sv.kind) then
         v.Sequence? && |s.children| == 1 && (sv.kind.FixedSizeListKind? ==> |v.elems| == sv.fixedSize) &&
         forall j :: 0 <= j < |v.elems| ==> Typed(lib, s.children[0], v.elems[j])
       else v.Leaf? && ScalarOk(sv, v.scalar))
  }

  // ---------------------------------------------------------------------------------------------
  // Relabelling agrees with conversion
  // ---------------------------------------------------------------------------------------------

  /** The types agree wherever both can be read at all. */
  predicate Alike(lib: Library, s: ArrowSchema, t: ArrowSchema)
    decreases s
  {
    |s.children| == |t.children| && s.dictionary.Some? == t.dictionary.Some? &&
    (ViewOf(lib, s).Some? && ViewOf(lib, t).Some? ==> SameView(ViewOf(lib, s).value, ViewOf(lib, t).value)) &&
    forall c :: 0 <= c < |s.children| ==> Alike(lib, s.children[c], t.children[c])
  }

  lemma {:induction false} StructureIsAlike(lib: Library, s: ArrowSchema, t: ArrowSchema)
    requires SameTypeStructure(s, t)
    ensures Alike(lib, s, t)
    decreases s
  {
    forall c | 0 <= c < |s.children| ensures Alike(lib, s.children[c], t.children[c]) {
      StructureIsAlike(lib, s.children[c], t.children[c]);
    }
  }

  lemma {:induction false} LayoutIsAlike(lib: Library, s: ArrowSchema, t: ArrowSchema)
    requires SameLayout(lib, s, t).Yes?
    ensures Alike(lib, s, t)
    decreases s
  {
    forall c | 0 <= c < |s.children| ensures Alike(lib, s.children[c], t.children[c]) {
      ChildLayoutsAt(lib, s, t, |s.children|, c);
      LayoutIsAlike(lib, s.children[c], t.children[c]);
    }
  }

  lemma {:induction false} ChildLayoutsAt(lib: Library, s: ArrowSchema, t: ArrowSchema, n: nat, c: nat)
    requires c < n <= |s.children| == |t.children| && SameChildLayouts(lib, s, t, n).Yes?
    ensures SameLayout(lib, s.children[c], t.children[c]).Yes?
    decreases n
  {
    if c < n - 1 { ChildLayoutsAt(lib, s, t, n - 1, c); }
  }

  lemma {:induction false} LeafUnchanged(fl: Floats, sv: View, dv: View, x: Scalar)
    requires SameView(sv, dv) && Exact(fl) && ScalarOk(sv, x) && ConvertLeaf(fl, sv, dv, x).Some?
    ensures ConvertLeaf(fl, sv, dv, x).value == x
  {
    if x.SFloat? { assert fl.recast(sv.kind, sv.kind, x.bits) == x.bits; }
  }

  /** Between types that agree, conversion returns every value it accepts unchanged. */
  lemma {:induction false} ConvertIsIdentity(lib: Library, fl: Floats, s: ArrowSchema, t: ArrowSchema, v: Value)
    requires Alike(lib, s, t) && Exact(fl) && Typed(lib, s, v) && Convert(lib, fl, s, t, v).Some?
    ensures Convert(lib, fl, s, t, v).value == v
    decreases v
  {
    if !v.Null? {
      var sv, dv := ViewOf(lib, s).value, ViewOf(lib, t).value;
      if dv.kind.StructKind? {
        forall c | 0 <= c < |v.fields|
          ensures Convert(lib, fl, s.children[c], t.children[c], v.fields[c]).value == v.fields[c]
        {
          ConvertIsIdentity(lib, fl, s.children[c], t.children[c], v.fields[c]);
        }
        assert Convert(lib, fl, s, t, v).value.fields == v.fields;
      } else if Listing(dv.kind) {
        forall j | 0 <= j < |v.elems|
          ensures Convert(lib, fl, s.children[0], t.children[0], v.elems[j]).value == v.elems[j]
        {
          ConvertIsIdentity(lib, fl, s.children[0], t.children[0], v.elems[j]);
        }
        assert Convert(lib, fl, s, t, v).value.elems == v.elems;
      } else {
        LeafUnchanged(fl, sv, dv, v.scalar);
      }
    }
  }

  // ---------------------------------------------------------------------------------------------
  // Physical columns of a type
  // ---------------------------------------------------------------------------------------------

  /** The buffers hold something for row `k`, null or not. */
  predicate InBuffers(a: Array, k: nat) {
    var p := a.offset + k;
    match a.node
    case Fixed(data) => p < |data|
    case Variable(_, ends, bytes) => p + 1 < |ends| && ends[p] <= ends[p + 1] <= |bytes|
    case _ => true
  }

  predicate Backed(a: Array) {
    forall k :: 0 <= k < a.length ==> InBuffers(a, k)
  }

  /** The array `a` stores a column of type `s`. */
  predicate Stores(lib: Library, s: ArrowSchema, a: Array)
    decreases a
  {
    ViewOf(lib, s).Some? &&
    var sv := ViewOf(lib, s).value;
    if s.dictionary.Some? then
      s.children == [] && a.node.Dictionary? && Stores(lib, s.dictionary.value, a.node.dictionary) && Backed(a.node.dictionary)
    else if sv.kind.StructKind? then
      a.node.Struct? && |a.node.children| == |s.children| &&
      forall c :: 0 <= c < |s.children| ==> Stores(lib, s.children[c], a.node.children[c])
    else if Listing(sv.kind) then
      |s.children| == 1 &&
      (if sv.kind.FixedSizeListKind?
       then a.node.FixedList? && a.node.size == sv.fixedSize && Stores(lib, s.children[0], a.node.elements)
       else a.node.List? && Stores(lib, s.children[0], a.node.items))
    else if |s.children| > 0 then false
    else if sv.kind.NaKind? then a.node.Na?
    else if Slotted(sv.kind) then a.node.Fixed? && forall p :: 0 <= p < |a.node.data| ==> ScalarOk(sv, a.node.data[p])
    else Textual(sv.kind) && a.node.Variable?
  }

  // ---------------------------------------------------------------------------------------------
  // What AppendConverted reads
  // ---------------------------------------------------------------------------------------------

  predicate WantsStruct(lib: Library, t: ArrowSchema) {
    t.dictionary.None? && ViewOf(lib, t).Some? && ViewOf(lib, t).value.kind.StructKind?
  }

  predicate WantsList(lib: Library, t: ArrowSchema) {
    t.dictionary.None? && ViewOf(lib, t).Some? && Listing(ViewOf(lib, t).value.kind)
  }

  /** A struct is wanted of as many fields as the source has children: that is all the code looks at. */
  predicate FieldByField(lib: Library, s: ArrowSchema, t: ArrowSchema) {
    WantsStruct(lib, t) && |s.children| == |t.children|
  }

  /** Both types are lists of one item type. */
  predicate BothLists(lib: Library, s: ArrowSchema, t: ArrowSchema) {
    WantsList(lib, t) && s.dictionary.None? && ViewOf(lib, s).Some? &&
    Listing(ViewOf(lib, s).value.kind) && |s.children| == |t.children| == 1
  }

  /** How many children a column has, of whatever kind, and child `c`; only a struct passes its shift on. */
  function ChildCount(src: Column): nat {
    match src.base.node
    case Struct(children) => |children|
    case List(_, _, _) => 1
    case FixedList(_, _) => 1
    case _ => 0
  }

  function AnyChild(src: Column, c: nat): Column
    requires c < ChildCount(src)
  {
    if src.base.node.Struct? then src.Child(c) else src.Items()
  }

  /** The leaf in a slot, whatever its validity; a slot that is no leaf shows as an empty record. */
  function Stored(a: Array, k: nat): Value {
    var p := a.offset + k;
    match a.node
    case Fixed(data) => if p < |data| then Leaf(data[p]) else Record([])
    case Variable(_, ends, bytes) =>
      if p + 1 < |ends| && ends[p] <= ends[p + 1] <= |bytes| then Leaf(SBytes(bytes[ends[p]..ends[p + 1]])) else Record([])
    case _ => Record([])
  }

  predicate ListNode(src: Column) {
    src.base.node.List? || src.base.node.FixedList?
  }

  /** Every slot that converting row `i` reads exists. */
  predicate InBounds(lib: Library, s: ArrowSchema, t: ArrowSchema, src: Column, i: nat)
    decreases src.base, 0
  {
    src.CanRead(i) &&
    (!src.IsNull(i) ==>
       if FieldByField(lib, s, t) then
         ChildCount(src) == |s.children| &&
         forall c :: 0 <= c < |s.children| ==> InBounds(lib, s.children[c], t.children[c], AnyChild(src, c), i)
       else if BothLists(lib, s, t) then
         ListNode(src) &&
         var (begin, end) := src.ListRange(i);
         ItemsInBounds(lib, s.children[0], t.children[0], src.Items(), begin, end)
       else true)
  }

  predicate ItemsInBounds(lib: Library, s: ArrowSchema, t: ArrowSchema, src: Column, begin: nat, end: nat)
    decreases src.base, 1
  {
    forall k :: begin <= k < end ==> InBounds(lib, s, t, src, k)
  }

  /**
   Row `i` as AppendConverted reads it for type `t`. It is like the row's value, but a dictionary's own
   validity is not looked at, and where a struct is wanted row `i` of every child is read, also of the
   items of a list.
   */
  function Seen(lib: Library, s: ArrowSchema, t: ArrowSchema, src: Column, i: nat): Value
    requires InBounds(lib, s, t, src, i)
    decreases src.base, 0
  {
    if src.IsNull(i) then Null
    else if FieldByField(lib, s, t) then
      Record(seq(|s.children|, c requires 0 <= c < |s.children| =>
                   Seen(lib, s.children[c], t.children[c], AnyChild(src, c), i)))
    else if BothLists(lib, s, t) then
      var (begin, end) := src.ListRange(i);
      Sequence(SeenItems(lib, s.children[0], t.children[0], src.Items(), begin, end))
    else if src.base.node.Dictionary? then
      Stored(src.base.node.dictionary, src.base.node.indices[src.base.offset + (src.shift + i)])
    else src.Value(i)
  }

  function SeenItems(lib: Library, s: ArrowSchema, t: ArrowSchema, src: Column, begin: nat, end: nat): (r: seq<Value>)
    requires begin <= end && ItemsInBounds(lib, s, t, src, begin, end)
    ensures |r| == end - begin
    ensures forall j :: 0 <= j < end - begin ==> r[j] == Seen(lib, s, t, src, begin + j)
    decreases src.base, 1
  {
    seq(end - begin, j requires 0 <= j < end - begin => Seen(lib, s, t, src, begin + j))
  }

  /** The builder `d` was made for type `t`. */
  predicate Matches(lib: Library, t: ArrowSchema, sk: Skeleton)
    decreases t
  {
    if t.dictionary.Some? then sk.DictionaryShape?
    else if ViewOf(lib, t).None? then true
    else
      var dv := ViewOf(lib, t).value;
      if dv.kind.StructKind? then
        sk.StructShape? && |sk.children| == |t.children| &&
        forall c :: 0 <= c < |t.children| ==> Matches(lib, t.children[c], sk.children[c])
      else if dv.kind.FixedSizeListKind? then
        sk.FixedListShape? && sk.size == dv.fixedSize && |t.children| == 1 && Matches(lib, t.children[0], sk.elements)
      else if Listing(dv.kind) then sk.ListShape? && |t.children| == 1 && Matches(lib, t.children[0], sk.items)
      else if Slotted(dv.kind) then sk.FixedShape?
      else if Textual(dv.kind) then sk.VariableShape?
      else true
  }

  // ---------------------------------------------------------------------------------------------
  // AppendConverted
  // ---------------------------------------------------------------------------------------------

  /** A slot that is not null is read as something. */
  lemma {:induction false} PresentValue(lib: Library, s: ArrowSchema, t: ArrowSchema, src: Column, i: nat)
    requires Stores(lib, s, src.base) && InBounds(lib, s, t, src, i)
    ensures Seen(lib, s, t, src, i).Null? <==> src.IsNull(i)
  {
  }

  /** What a leaf column holds in a slot, null or not. */
  method ReadScalar(lib: Library, s: ArrowSchema, src: Column, i: nat) returns (x: Scalar)
    requires Stores(lib, s, src.base) && s.dictionary.None? && InBuffers(src.base, src.shift + i)
    requires var k := ViewOf(lib, s).value.kind; Slotted(k) || Textual(k)
    ensures Stored(src.base, src.shift + i) == Leaf(x)
  {
    var p := src.base.offset + (src.shift + i);
    match src.base.node
    case Fixed(data) => x := data[p];
    case Variable(_, ends, bytes) => x := SBytes(bytes[ends[p]..ends[p + 1]]);
  }

  method AppendLeaf(d: Array, dv: View, x: Scalar) returns (r: Option<Array>)
    requires Building(d)
    requires if Slotted(dv.kind) then d.node.Fixed? else x.SBytes? && d.node.Variable?
    ensures r.Some? ==> Appended(d, r.value, [Leaf(x)])
    ensures r.Some? <==> Room(d, [Leaf(x)])
  {
    if Slotted(dv.kind) {
      AppendedScalar(d, x);
      r := Some(AppendScalar(d, x));
    } else {
      AppendedBytes(d, x.text);
      r := AppendBytes(d, x.text);
    }
  }

  /** What `AppendConverted` may rely on. */
  predicate Convertible(lib: Library, d: Array, t: ArrowSchema, src: Column, s: ArrowSchema) {
    Building(d) && Matches(lib, t, SkeletonOf(d)) && Stores(lib, s, src.base)
  }

  /** `r` is the outcome of appending `v`, a value of type `s`, to a builder of type `t`. */
  ghost predicate Outcome(lib: Library, fl: Floats, d: Array, t: ArrowSchema, s: ArrowSchema, v: Value,
                          r: Option<Array>) {
    (r.Some? <==> Convert(lib, fl, s, t, v).Some? && Room(d, [Convert(lib, fl, s, t, v).value])) &&
    (r.Some? ==> Appended(d, r.value, [Convert(lib, fl, s, t, v).value]))
  }

  /** The slot a leaf is read from. */
  function LeafColumn(src: Column, i: nat): (r: (Column, nat))
    requires src.CanRead(i) && !src.IsNull(i)
  {
    if src.base.node.Dictionary? then
      (Column(src.base.node.dictionary, 0), src.base.node.indices[src.base.offset + (src.shift + i)])
    else (src, i)
  }

  lemma {:induction false} LeafRead(lib: Library, s: ArrowSchema, t: ArrowSchema, src: Column, i: nat)
    requires Stores(lib, s, src.base) && InBounds(lib, s, t, src, i) && !src.IsNull(i) && LeafTarget(lib, t)
    ensures var (values, row) := LeafColumn(src, i);
      var sv := ViewOf(lib, LeafSchema(s));
      Stores(lib, LeafSchema(s), values.base) && InBuffers(values.base, values.shift + row) && sv.Some? &&
      (Slotted(sv.value.kind) || Textual(sv.value.kind) ==>
         LeafSchema(s).dictionary.None? && Seen(lib, s, t, src, i) == Stored(values.base, values.shift + row))
  {
  }

  predicate LeafTarget(lib: Library, t: ArrowSchema) {
    t.dictionary.None? && ViewOf(lib, t).Some? &&
    !ViewOf(lib, t).value.kind.StructKind? && !Listing(ViewOf(lib, t).value.kind)
  }

  lemma {:induction false} LeafConverts(lib: Library, fl: Floats, s: ArrowSchema, t: ArrowSchema, x: Scalar)
    requires LeafTarget(lib, t) && ViewOf(lib, LeafSchema(s)).Some?
    ensures var y := ConvertLeaf(fl, ViewOf(lib, LeafSchema(s)).value, ViewOf(lib, t).value, x);
      Convert(lib, fl, s, t, Leaf(x)) == if y.Some? then Some(Leaf(y.value)) else None
  {
  }

  /** A time column brought to a finer unit. */
  predicate FinerTime(sv: View, dv: View) {
    HasUnit(sv.kind) && UnitsPerSecond(sv.unit) <= UnitsPerSecond(dv.unit) &&
    (sv.kind == dv.kind || (sv.kind.Time32? && dv.kind.Time64?) || (sv.kind.Time64? && dv.kind.Time32?))
  }

  /**
   A time converts to the same instant in a finer unit exactly if the product fits its slot. A 64-bit
   slot never refuses: what does not fit is stored as the overflowing product leaves it.
   */
  lemma {:induction false} TimeConvertsExactlyIffFits(
    lib: Library, fl: Floats, s: ArrowSchema, t: ArrowSchema, x: int)
    requires LeafTarget(lib, t) && ViewOf(lib, LeafSchema(s)).Some? && Fits64(x)
    requires FinerTime(ViewOf(lib, LeafSchema(s)).value, ViewOf(lib, t).value)
    ensures
      var sv, dv := ViewOf(lib, LeafSchema(s)).value, ViewOf(lib, t).value;
      var product := x * Ratio(dv.unit, sv.unit);
      (Convert(lib, fl, s, t, Leaf(SInt(x))) == Some(Leaf(SInt(product))) <==> IntFits(dv.kind, product)) &&
      (!dv.kind.Time32? ==> Convert(lib, fl, s, t, Leaf(SInt(x))) == Some(Leaf(SInt(Wrap64(product)))))
  {
    var sv, dv := ViewOf(lib, LeafSchema(s)).value, ViewOf(lib, t).value;
    RescaleIsProduct(x, sv.unit, dv.unit);
    LeafConverts(lib, fl, s, t, SInt(x));
  }

  lemma {:induction false} NestedRefused(lib: Library, fl: Floats, s: ArrowSchema, t: ArrowSchema, v: Value)
    requires LeafTarget(lib, t) && ViewOf(lib, LeafSchema(s)).Some? && !v.Null?
    requires var k := ViewOf(lib, LeafSchema(s)).value.kind; !Slotted(k) && !Textual(k)
    ensures Convert(lib, fl, s, t, v).None?
  {
  }

  /** Reads and converts a leaf. */
  method ConvertSlot(lib: Library, fl: Floats, t: ArrowSchema, src: Column, s: ArrowSchema, i: nat)
    returns (y: Option<Scalar>)
    requires Stores(lib, s, src.base) && InBounds(lib, s, t, src, i) && !src.IsNull(i) && LeafTarget(lib, t)
    ensures Convert(lib, fl, s, t, Seen(lib, s, t, src, i)) == if y.Some? then Some(Leaf(y.value)) else None
    ensures y.Some? ==> Slotted(ViewOf(lib, t).value.kind) || (Textual(ViewOf(lib, t).value.kind) && y.value.SBytes?)
  {
    PresentValue(lib, s, t, src, i);
    var (values, row) := LeafColumn(src, i);
    var schema := LeafSchema(s);
    LeafRead(lib, s, t, src, i);
    var sv := ViewOf(lib, schema).value;
    if !Slotted(sv.kind) && !Textual(sv.kind) {
      NestedRefused(lib, fl, s, t, Seen(lib, s, t, src, i));
      return None;
    }
    var x := ReadScalar(lib, schema, values, row);
    LeafConverts(lib, fl, s, t, x);
    y := ConvertLeaf(fl, sv, ViewOf(lib, t).value, x);
  }

  method AppendConvertedLeaf(lib: Library, fl: Floats, d: Array, t: ArrowSchema, src: Column, s: ArrowSchema, i: nat)
    returns (r: Option<Array>)
    requires Convertible(lib, d, t, src, s) && InBounds(lib, s, t, src, i) && !src.IsNull(i) && LeafTarget(lib, t)
    ensures Outcome(lib, fl, d, t, s, Seen(lib, s, t, src, i), r)
  {
    var y := ConvertSlot(lib, fl, t, src, s, i);
    if y.None? { return None; }
    r := AppendLeaf(d, ViewOf(lib, t).value, y.value);
  }

  /** A field that does not convert, or has no room, refuses the struct. */
  lemma {:induction false} StructRefused(lib: Library, fl: Floats, d: Array, t: ArrowSchema, s: ArrowSchema,
                                         v: Value, c: nat)
    requires d.node.Struct? && WantsStruct(lib, t)
    requires v.Record? && c < |v.fields| == |t.children| == |s.children| == |d.node.children|
    requires Outcome(lib, fl, d.node.children[c], t.children[c], s.children[c], v.fields[c], None)
    ensures Outcome(lib, fl, d, t, s, v, None)
  {
    if Convert(lib, fl, s, t, v).Some? {
      RoomInStruct(d, Convert(lib, fl, s, t, v).value.fields);
    }
  }

  lemma {:induction false} StructsMatch(lib: Library, d: Array, t: ArrowSchema, src: Column, s: ArrowSchema, i: nat)
    requires Convertible(lib, d, t, src, s) && InBounds(lib, s, t, src, i) && !src.IsNull(i) && FieldByField(lib, s, t)
    ensures d.node.Struct? && Seen(lib, s, t, src, i).Record?
    ensures ChildCount(src) == |d.node.children| == |Seen(lib, s, t, src, i).fields| == |t.children|
  {
  }

  /** What the struct method may rely on for a field. */
  lemma {:induction false} ChildConvertible(lib: Library, d: Array, t: ArrowSchema, src: Column, s: ArrowSchema,
                                            i: nat, c: nat)
    requires Convertible(lib, d, t, src, s) && InBounds(lib, s, t, src, i) && !src.IsNull(i) && FieldByField(lib, s, t)
    requires d.node.Struct? && c < |s.children| == |t.children| == |d.node.children| == ChildCount(src)
    ensures Convertible(lib, d.node.children[c], t.children[c], AnyChild(src, c), s.children[c])
    ensures InBounds(lib, s.children[c], t.children[c], AnyChild(src, c), i)
    ensures var v := Seen(lib, s, t, src, i);
      v.Record? && c < |v.fields| && Seen(lib, s.children[c], t.children[c], AnyChild(src, c), i) == v.fields[c]
  {
    assert SkeletonOf(d).children[c] == SkeletonOf(d.node.children[c]);
    assert Stores(lib, s.children[c], AnyChild(src, c).base);
  }

  /** The first fields of record `v`, converted to `fields` and appended to the builders of `d`. */
  ghost predicate FieldsAppended(lib: Library, fl: Floats, d: Array, t: ArrowSchema, s: ArrowSchema, v: Value,
                                 children: seq<Array>, fields: seq<Value>) {
    d.node.Struct? && v.Record? && |v.fields| == |t.children| == |s.children| == |d.node.children| &&
    |children| == |fields| <= |v.fields| &&
    (forall k :: 0 <= k < |fields| ==> Convert(lib, fl, s.children[k], t.children[k], v.fields[k]) == Some(fields[k])) &&
    forall k :: 0 <= k < |fields| ==> Appended(d.node.children[k], children[k], [fields[k]])
  }

  lemma {:induction false} FieldAppended(lib: Library, fl: Floats, d: Array, t: ArrowSchema, s: ArrowSchema, v: Value,
                                         children: seq<Array>, fields: seq<Value>, child: Array)
    requires FieldsAppended(lib, fl, d, t, s, v, children, fields) && |fields| < |v.fields|
    requires var c := |fields|; Outcome(lib, fl, d.node.children[c], t.children[c], s.children[c], v.fields[c], Some(child))
    ensures var c := |fields|; FieldsAppended(lib, fl, d, t, s, v, children + [child],
      fields + [Convert(lib, fl, s.children[c], t.children[c], v.fields[c]).value])
  {
  }

  lemma {:induction false} StructAppended(lib: Library, fl: Floats, d: Array, t: ArrowSchema, s: ArrowSchema, v: Value,
                                          children: seq<Array>, fields: seq<Value>)
    requires Building(d) && WantsStruct(lib, t)
    requires FieldsAppended(lib, fl, d, t, s, v, children, fields) && |fields| == |v.fields|
    ensures forall k :: 0 <= k < |children| ==> children[k].length == d.length + 1
    ensures Outcome(lib, fl, d, t, s, v, Some(FinishStruct(d, children)))
  {
    AppendedStruct(d, children, fields);
    assert Convert(lib, fl, s, t, v).value.fields == fields;
    AppendedHadRoom(d, FinishStruct(d, children), [Record(fields)]);
  }

  method AppendConvertedStruct(lib: Library, fl: Floats, d: Array, t: ArrowSchema, src: Column, s: ArrowSchema, i: nat)
    returns (r: Option<Array>)
    requires Convertible(lib, d, t, src, s) && InBounds(lib, s, t, src, i) && !src.IsNull(i)
    requires WantsStruct(lib, t)
    ensures Outcome(lib, fl, d, t, s, Seen(lib, s, t, src, i), r)
    decreases src.base, 0
  {
    PresentValue(lib, s, t, src, i);
    if |s.children| != |t.children| { return None; }
    StructsMatch(lib, d, t, src, s, i);
    ghost var v := Seen(lib, s, t, src, i);
    var children: seq<Array> := [];
    ghost var fields: seq<Value> := [];
    for c := 0 to |t.children|
      invariant |children| == |fields| == c && FieldsAppended(lib, fl, d, t, s, v, children, fields)
    {
      ChildConvertible(lib, d, t, src, s, i, c);
      var child := AppendConverted(lib, fl, d.node.children[c], t.children[c], AnyChild(src, c), s.children[c], i);
      if child.None? {
        StructRefused(lib, fl, d, t, s, v, c);
        return None;
      }
      FieldAppended(lib, fl, d, t, s, v, children, fields, child.value);
      fields := fields + [Convert(lib, fl, s.children[c], t.children[c], v.fields[c]).value];
      children := children + [child.value];
    }
    StructAppended(lib, fl, d, t, s, v, children, fields);
    r := Some(FinishStruct(d, children));
  }

  predicate AllConvert(lib: Library, fl: Floats, s: ArrowSchema, t: ArrowSchema, vs: seq<Value>) {
    forall j :: 0 <= j < |vs| ==> Convert(lib, fl, s, t, vs[j]).Some?
  }

  function Converted(lib: Library, fl: Floats, s: ArrowSchema, t: ArrowSchema, vs: seq<Value>): (r: seq<Value>)
    requires AllConvert(lib, fl, s, t, vs)
    ensures |r| == |vs|
  {
    seq(|vs|, j requires 0 <= j < |vs| => Convert(lib, fl, s, t, vs[j]).value)
  }

  /** A list converts exactly if its items do and a fixed size is met. */
  lemma {:induction false} ListConverts(lib: Library, fl: Floats, s: ArrowSchema, t: ArrowSchema, v: Value)
    requires v.Sequence? && BothLists(lib, s, t)
    ensures
      var ok := (ViewOf(lib, t).value.kind.FixedSizeListKind? ==> |v.elems| == ViewOf(lib, t).value.fixedSize) &&
                AllConvert(lib, fl, s.children[0], t.children[0], v.elems);
      Convert(lib, fl, s, t, v) ==
        if ok then Some(Sequence(Converted(lib, fl, s.children[0], t.children[0], v.elems))) else None
  {
    if AllConvert(lib, fl, s.children[0], t.children[0], v.elems) && Convert(lib, fl, s, t, v).Some? {
      assert Convert(lib, fl, s, t, v).value.elems == Converted(lib, fl, s.children[0], t.children[0], v.elems);
    }
  }

  /** An item that does not convert, or has no room after those before it, refuses them all. */
  lemma {:induction false} ItemsRefused(lib: Library, fl: Floats, d: Array, out: Array, t: ArrowSchema, s: ArrowSchema,
                                        vs: seq<Value>, done: seq<Value>)
    requires |done| < |vs| && Appended(d, out, done)
    requires forall j :: 0 <= j < |done| ==> Convert(lib, fl, s, t, vs[j]) == Some(done[j])
    requires Outcome(lib, fl, out, t, s, vs[|done|], None)
    ensures !(AllConvert(lib, fl, s, t, vs) && Room(d, Converted(lib, fl, s, t, vs)))
  {
    if AllConvert(lib, fl, s, t, vs) && Room(d, Converted(lib, fl, s, t, vs)) {
      assert Converted(lib, fl, s, t, vs)[..|done|] == done;
      RoomForNext(d, out, Converted(lib, fl, s, t, vs), |done|);
    }
  }

  /** The next item, converted and appended. */
  lemma {:induction false} ItemAppended(lib: Library, fl: Floats, d: Array, out: Array, next: Array, t: ArrowSchema,
                                        s: ArrowSchema, vs: seq<Value>, done: seq<Value>)
    requires Building(d) && |done| < |vs| && Appended(d, out, done)
    requires forall j :: 0 <= j < |done| ==> Convert(lib, fl, s, t, vs[j]) == Some(done[j])
    requires Outcome(lib, fl, out, t, s, vs[|done|], Some(next))
    ensures var more := done + [Convert(lib, fl, s, t, vs[|done|]).value];
      Appended(d, next, more) && forall j :: 0 <= j < |more| ==> Convert(lib, fl, s, t, vs[j]) == Some(more[j])
  {
    AppendedThen(d, out, next, done, Convert(lib, fl, s, t, vs[|done|]).value);
  }

  lemma {:induction false} ItemSeen(lib: Library, s: ArrowSchema, t: ArrowSchema, src: Column, begin: nat, end: nat, k: nat)
    requires begin <= k < end && ItemsInBounds(lib, s, t, src, begin, end)
    ensures InBounds(lib, s, t, src, k) && SeenItems(lib, s, t, src, begin, end)[k - begin] == Seen(lib, s, t, src, k)
  {
  }

  /** The items of a list, one after the other. */
  method AppendConvertedItems(
    lib: Library, fl: Floats, d: Array, t: ArrowSchema, src: Column, s: ArrowSchema, begin: nat, end: nat)
    returns (r: Option<Array>)
    requires Convertible(lib, d, t, src, s) && begin <= end && ItemsInBounds(lib, s, t, src, begin, end)
    ensures r.Some? <==>
      AllConvert(lib, fl, s, t, SeenItems(lib, s, t, src, begin, end)) &&
      Room(d, Converted(lib, fl, s, t, SeenItems(lib, s, t, src, begin, end)))
    ensures r.Some? ==> Appended(d, r.value, Converted(lib, fl, s, t, SeenItems(lib, s, t, src, begin, end)))
    decreases src.base, 2
  {
    var out := d;
    ghost var vs := SeenItems(lib, s, t, src, begin, end);
    ghost var done: seq<Value> := [];
    AppendedNone(d);
    for k := begin to end
      invariant Appended(d, out, done) && |done| == k - begin
      invariant forall j :: 0 <= j < |done| ==> Convert(lib, fl, s, t, vs[j]) == Some(done[j])
    {
      ItemSeen(lib, s, t, src, begin, end, k);
      var next := AppendConverted(lib, fl, out, t, src, s, k);
      if next.None? {
        ItemsRefused(lib, fl, d, out, t, s, vs, done);
        return None;
      }
      ItemAppended(lib, fl, d, out, next.value, t, s, vs, done);
      out, done := next.value, done + [Convert(lib, fl, s, t, vs[k - begin]).value];
    }
    assert done == Converted(lib, fl, s, t, vs);
    AppendedHadRoom(d, out, done);
    r := Some(out);
  }

  lemma {:induction false} AppendedElement(d: Array, items: Array, elems: seq<Value>)
    requires Building(d) && (d.node.List? || (d.node.FixedList? && |elems| == d.node.size))
    requires Appended(ItemsBuilder(d), items, elems)
    ensures d.node.FixedList? ==> items.length == (d.length + 1) * d.node.size
    ensures FinishList(d, items).Some? ==> Appended(d, FinishList(d, items).value, [Sequence(elems)])
    ensures FinishList(d, items).Some? <==> Room(d, [Sequence(elems)])
  {
    if d.node.List? { AppendedList(d, items, elems); } else { AppendedFixedList(d, items, elems); }
  }

  lemma {:induction false} ListBuilder(lib: Library, d: Array, t: ArrowSchema, s: ArrowSchema)
    requires Building(d) && Matches(lib, t, SkeletonOf(d)) && BothLists(lib, s, t)
    ensures d.node.List? || d.node.FixedList?
    ensures Building(ItemsBuilder(d)) && Matches(lib, t.children[0], SkeletonOf(ItemsBuilder(d)))
    ensures d.node.FixedList? <==> ViewOf(lib, t).value.kind.FixedSizeListKind?
    ensures d.node.FixedList? ==> d.node.size == ViewOf(lib, t).value.fixedSize
  {
  }

  lemma {:induction false} ListAppended(lib: Library, fl: Floats, d: Array, t: ArrowSchema, s: ArrowSchema,
                                        v: Value, items: Array)
    requires Building(d) && Matches(lib, t, SkeletonOf(d)) && BothLists(lib, s, t) && v.Sequence?
    requires AllConvert(lib, fl, s.children[0], t.children[0], v.elems)
    requires d.node.List? || (d.node.FixedList? && |v.elems| == d.node.size)
    requires Appended(ItemsBuilder(d), items, Converted(lib, fl, s.children[0], t.children[0], v.elems))
    ensures d.node.FixedList? ==> items.length == (d.length + 1) * d.node.size
    ensures Outcome(lib, fl, d, t, s, v, FinishList(d, items))
  {
    ListBuilder(lib, d, t, s);
    ListConverts(lib, fl, s, t, v);
    AppendedElement(d, items, Converted(lib, fl, s.children[0], t.children[0], v.elems));
  }

  lemma {:induction false} ListRefused(lib: Library, fl: Floats, d: Array, t: ArrowSchema, s: ArrowSchema, v: Value)
    requires Building(d) && Matches(lib, t, SkeletonOf(d)) && BothLists(lib, s, t) && v.Sequence?
    requires d.node.List? || d.node.FixedList?
    requires !(AllConvert(lib, fl, s.children[0], t.children[0], v.elems) &&
               Room(ItemsBuilder(d), Converted(lib, fl, s.children[0], t.children[0], v.elems))) ||
             (d.node.FixedList? && |v.elems| != d.node.size)
    ensures Outcome(lib, fl, d, t, s, v, None)
  {
    ListBuilder(lib, d, t, s);
    ListConverts(lib, fl, s, t, v);
    if AllConvert(lib, fl, s.children[0], t.children[0], v.elems) {
      RoomInList(d, Converted(lib, fl, s.children[0], t.children[0], v.elems));
    }
  }

  /** What the list method may rely on for its items. */
  lemma {:induction false} ItemsConvertible(lib: Library, d: Array, t: ArrowSchema, src: Column, s: ArrowSchema)
    requires Convertible(lib, d, t, src, s) && WantsList(lib, t)
    requires s.dictionary.None? && Listing(ViewOf(lib, s).value.kind)
    ensures BothLists(lib, s, t)
    ensures (d.node.List? || d.node.FixedList?) && ListNode(src)
    ensures Convertible(lib, ItemsBuilder(d), t.children[0], src.Items(), s.children[0])
  {
    ListBuilder(lib, d, t, s);
  }

  /** A source that is not a list, or a dictionary, is refused where a list is wanted. */
  lemma {:induction false} NotListRefused(lib: Library, fl: Floats, d: Array, t: ArrowSchema, src: Column,
                                          s: ArrowSchema, i: nat)
    requires Convertible(lib, d, t, src, s) && InBounds(lib, s, t, src, i) && !src.IsNull(i)
    requires WantsList(lib, t) && (s.dictionary.Some? || !Listing(ViewOf(lib, s).value.kind))
    ensures Outcome(lib, fl, d, t, s, Seen(lib, s, t, src, i), None)
  {
    PresentValue(lib, s, t, src, i);
  }

  method AppendConvertedList(lib: Library, fl: Floats, d: Array, t: ArrowSchema, src: Column, s: ArrowSchema, i: nat)
    returns (r: Option<Array>)
    requires Convertible(lib, d, t, src, s) && InBounds(lib, s, t, src, i) && !src.IsNull(i)
    requires WantsList(lib, t)
    ensures Outcome(lib, fl, d, t, s, Seen(lib, s, t, src, i), r)
    decreases src.base, 0
  {
    if s.dictionary.Some? || !Listing(ViewOf(lib, s).value.kind) {
      NotListRefused(lib, fl, d, t, src, s, i);
      return None;
    }
    ItemsConvertible(lib, d, t, src, s);
    var (begin, end) := src.ListRange(i);
    ghost var v := Seen(lib, s, t, src, i);
    assert v == Sequence(SeenItems(lib, s.children[0], t.children[0], src.Items(), begin, end));
    var items := AppendConvertedItems(lib, fl, ItemsBuilder(d), t.children[0], src.Items(), s.children[0], begin, end);
    if items.None? || (d.node.FixedList? && end - begin != d.node.size) {
      ListRefused(lib, fl, d, t, s, v);
      return None;
    }
    ListAppended(lib, fl, d, t, s, v, items.value);
    r := FinishList(d, items.value);
  }

  /**
   Appends row `i` of `src`, converted: exactly what `Convert` makes of it as read, unless that is
   refused or an offset overflows.
   */
  method AppendConverted(lib: Library, fl: Floats, d: Array, t: ArrowSchema, src: Column, s: ArrowSchema, i: nat)
    returns (r: Option<Array>)
    requires Convertible(lib, d, t, src, s) && InBounds(lib, s, t, src, i)
    ensures Outcome(lib, fl, d, t, s, Seen(lib, s, t, src, i), r)
    decreases src.base, 1
  {
    PresentValue(lib, s, t, src, i);
    if src.IsNull(i) {
      AppendedNull(d);
      AppendedHadRoom(d, AppendNull(d), [Null]);
      return Some(AppendNull(d));
    }
    if t.dictionary.Some? || ViewOf(lib, t).None? { return None; }
    var dv := ViewOf(lib, t).value;
    if dv.kind.StructKind? {
      r := AppendConvertedStruct(lib, fl, d, t, src, s, i);
    } else if Listing(dv.kind) {
      r := AppendConvertedList(lib, fl, d, t, src, s, i);
    } else {
      r := AppendConvertedLeaf(lib, fl, d, t, src, s, i);
    }
  }

  // ---------------------------------------------------------------------------------------------
  // When what is read is the row's value
  // ---------------------------------------------------------------------------------------------

  predicate RecordOf(v: Value, n: nat) {
    v.Record? && |v.fields| == n
  }

  /**
   Reading row `i` for type `t` shows its value: no dictionary entry it refers to is null, and where
   fields are read there is a record.
   */
  predicate ReadsTrue(lib: Library, s: ArrowSchema, t: ArrowSchema, src: Column, i: nat)
    requires InBounds(lib, s, t, src, i)
    decreases src.base, 0
  {
    src.IsNull(i) ||
    (if FieldByField(lib, s, t) then
       RecordOf(src.Value(i), |s.children|) &&
       forall c :: 0 <= c < |s.children| ==> ReadsTrue(lib, s.children[c], t.children[c], AnyChild(src, c), i)
     else if BothLists(lib, s, t) then
       var (begin, end) := src.ListRange(i);
       ItemsReadTrue(lib, s.children[0], t.children[0], src.Items(), begin, end)
     else if src.base.node.Dictionary? then !src.Value(i).Null?
     else true)
  }

  predicate ItemsReadTrue(lib: Library, s: ArrowSchema, t: ArrowSchema, src: Column, begin: nat, end: nat)
    requires ItemsInBounds(lib, s, t, src, begin, end)
    decreases src.base, 1
  {
    forall k :: begin <= k < end ==> ReadsTrue(lib, s, t, src, k)
  }

  /** What is read of a row, `seen`, if it converts at all, converts as its value `v` does exactly if `truly`. */
  ghost predicate ReadsAs(lib: Library, fl: Floats, s: ArrowSchema, t: ArrowSchema, seen: Value, v: Value, truly: bool) {
    (truly ==> Convert(lib, fl, s, t, seen) == Convert(lib, fl, s, t, v)) &&
    (Convert(lib, fl, s, t, seen).Some? && Convert(lib, fl, s, t, seen) == Convert(lib, fl, s, t, v) ==> truly)
  }

  /** An entry that decodes to a leaf decodes to the leaf in its slot. */
  lemma {:induction false} EntryStored(lib: Library, s: ArrowSchema, dict: Array, e: nat)
    requires Stores(lib, s, dict) && InBuffers(dict, e) && ViewOf(lib, s).Some?
    requires var k := ViewOf(lib, s).value.kind; Slotted(k) || Textual(k)
    ensures !Stored(dict, e).Null? && (At(dict, e).Null? || At(dict, e) == Stored(dict, e))
  {
  }

  lemma {:induction false} EntryReads(lib: Library, fl: Floats, s: ArrowSchema, t: ArrowSchema, dict: Array, e: nat)
    requires s.dictionary.Some? && Stores(lib, s.dictionary.value, dict) && InBuffers(dict, e) && LeafTarget(lib, t)
    ensures ReadsAs(lib, fl, s, t, Stored(dict, e), At(dict, e), !At(dict, e).Null?)
  {
    var sv := ViewOf(lib, LeafSchema(s)).value;
    if Slotted(sv.kind) || Textual(sv.kind) {
      EntryStored(lib, LeafSchema(s), dict, e);
    } else {
      NestedRefused(lib, fl, s, t, Stored(dict, e));
      if !At(dict, e).Null? { NestedRefused(lib, fl, s, t, At(dict, e)); }
    }
  }

  /** Where no struct of as many fields is wanted, a dictionary column converts to leaves only. */
  lemma {:induction false} DictionaryRefused(lib: Library, fl: Floats, s: ArrowSchema, t: ArrowSchema, v: Value)
    requires s.dictionary.Some? && !FieldByField(lib, s, t) && !LeafTarget(lib, t) && !v.Null?
    ensures Convert(lib, fl, s, t, v).None?
  {
  }

  lemma {:induction false} DictionaryReads(lib: Library, fl: Floats, s: ArrowSchema, t: ArrowSchema, src: Column, i: nat)
    requires Stores(lib, s, src.base) && InBounds(lib, s, t, src, i) && !src.IsNull(i)
    requires src.base.node.Dictionary? && !FieldByField(lib, s, t)
    ensures ReadsAs(lib, fl, s, t, Seen(lib, s, t, src, i), src.Value(i), ReadsTrue(lib, s, t, src, i))
  {
    var dict, e := src.base.node.dictionary, src.base.node.indices[src.base.offset + (src.shift + i)];
    assert s.dictionary.Some? && InBuffers(dict, e) && src.Value(i) == At(dict, e);
    if LeafTarget(lib, t) {
      EntryReads(lib, fl, s, t, dict, e);
    } else {
      DictionaryRefused(lib, fl, s, t, Stored(dict, e));
      if !At(dict, e).Null? { DictionaryRefused(lib, fl, s, t, At(dict, e)); }
    }
  }

  /** What is not a record is not converted to a struct. */
  lemma {:induction false} MisreadDiffers(lib: Library, fl: Floats, s: ArrowSchema, t: ArrowSchema, src: Column, i: nat)
    requires Stores(lib, s, src.base) && InBounds(lib, s, t, src, i) && !src.IsNull(i)
    requires FieldByField(lib, s, t) && !src.base.node.Struct?
    ensures ReadsAs(lib, fl, s, t, Seen(lib, s, t, src, i), src.Value(i), ReadsTrue(lib, s, t, src, i))
  {
    var seen, v := Seen(lib, s, t, src, i), src.Value(i);
    if RecordOf(v, |s.children|) {
      assert ChildCount(src) == 0 && seen.fields == v.fields;
    } else {
      assert v.Null? || Convert(lib, fl, s, t, v).None?;
    }
  }

  /** Field by field. */
  lemma {:induction false} RecordsReadAs(lib: Library, fl: Floats, s: ArrowSchema, t: ArrowSchema,
                                         seen: seq<Value>, vs: seq<Value>, truly: seq<bool>)
    requires |seen| == |vs| == |truly| == |s.children| && FieldByField(lib, s, t)
    requires forall c :: 0 <= c < |seen| ==> ReadsAs(lib, fl, s.children[c], t.children[c], seen[c], vs[c], truly[c])
    ensures ReadsAs(lib, fl, s, t, Record(seen), Record(vs), forall c :: 0 <= c < |truly| ==> truly[c])
  {
    var x, y := Convert(lib, fl, s, t, Record(seen)), Convert(lib, fl, s, t, Record(vs));
    if x.Some? && y.Some? && forall c :: 0 <= c < |truly| ==> truly[c] {
      assert x.value.fields == y.value.fields;
    }
    forall c | 0 <= c < |seen| && x.Some? && y.Some?
      ensures x.value.fields[c] == Convert(lib, fl, s.children[c], t.children[c], seen[c]).value
      ensures y.value.fields[c] == Convert(lib, fl, s.children[c], t.children[c], vs[c]).value
    {
    }
  }

  /** Item by item. */
  lemma {:induction false} SequencesReadAs(lib: Library, fl: Floats, s: ArrowSchema, t: ArrowSchema,
                                           seen: seq<Value>, vs: seq<Value>, truly: seq<bool>)
    requires |seen| == |vs| == |truly| && BothLists(lib, s, t)
    requires forall j :: 0 <= j < |seen| ==> ReadsAs(lib, fl, s.children[0], t.children[0], seen[j], vs[j], truly[j])
    ensures ReadsAs(lib, fl, s, t, Sequence(seen), Sequence(vs), forall j :: 0 <= j < |truly| ==> truly[j])
  {
    ListConverts(lib, fl, s, t, Sequence(seen));
    ListConverts(lib, fl, s, t, Sequence(vs));
    var x, y := s.children[0], t.children[0];
    if AllConvert(lib, fl, x, y, seen) && AllConvert(lib, fl, x, y, vs) {
      assert (forall j :: 0 <= j < |truly| ==> truly[j]) ==> Converted(lib, fl, x, y, seen) == Converted(lib, fl, x, y, vs);
      forall j | 0 <= j < |truly| && !truly[j]
        ensures Converted(lib, fl, x, y, seen)[j] != Converted(lib, fl, x, y, vs)[j]
      {
      }
    }
  }

  function TrueItems(lib: Library, s: ArrowSchema, t: ArrowSchema, src: Column, begin: nat, end: nat): (r: seq<bool>)
    requires begin <= end && ItemsInBounds(lib, s, t, src, begin, end)
    ensures |r| == end - begin && forall j :: 0 <= j < end - begin ==> r[j] == ReadsTrue(lib, s, t, src, begin + j)
  {
    seq(end - begin, j requires 0 <= j < end - begin => ReadsTrue(lib, s, t, src, begin + j))
  }

  lemma {:induction false} TrueItemsAll(lib: Library, s: ArrowSchema, t: ArrowSchema, src: Column, begin: nat, end: nat)
    requires begin <= end && ItemsInBounds(lib, s, t, src, begin, end)
    ensures (forall j :: 0 <= j < end - begin ==> TrueItems(lib, s, t, src, begin, end)[j]) <==>
      ItemsReadTrue(lib, s, t, src, begin, end)
  {
    var r := TrueItems(lib, s, t, src, begin, end);
    if forall j :: 0 <= j < end - begin ==> r[j] {
      forall k | begin <= k < end ensures ReadsTrue(lib, s, t, src, k) { assert r[k - begin]; }
    }
  }

  lemma {:induction false} RowReads(lib: Library, fl: Floats, s: ArrowSchema, t: ArrowSchema, src: Column, i: nat,
                                    seen: Value, v: Value, truly: bool)
    requires Stores(lib, s, src.base) && InBounds(lib, s, t, src, i)
    requires seen == Seen(lib, s, t, src, i) && v == src.Value(i) && truly == ReadsTrue(lib, s, t, src, i)
    ensures ReadsAs(lib, fl, s, t, seen, v, truly)
    decreases src.base, 2
  {
    ReadAgreesIff(lib, fl, s, t, src, i);
  }

  lemma {:induction false} ItemsRead(lib: Library, fl: Floats, s: ArrowSchema, t: ArrowSchema, src: Column,
                                     begin: nat, end: nat,
                                     seen: seq<Value>, vs: seq<Value>, truly: seq<bool>)
    requires Stores(lib, s, src.base) && begin <= end && ItemsInBounds(lib, s, t, src, begin, end) && src.shift == 0
    requires seen == SeenItems(lib, s, t, src, begin, end) && vs == Rows(src.base, begin, end - begin)
    requires truly == TrueItems(lib, s, t, src, begin, end)
    ensures forall j :: 0 <= j < end - begin ==> ReadsAs(lib, fl, s, t, seen[j], vs[j], truly[j])
    decreases src.base, 3
  {
    forall j | 0 <= j < end - begin ensures ReadsAs(lib, fl, s, t, seen[j], vs[j], truly[j]) {
      assert InBounds(lib, s, t, src, begin + j);
      RowReads(lib, fl, s, t, src, begin + j, seen[j], vs[j], truly[j]);
    }
  }

  lemma {:induction false} ListOfItemsReads(lib: Library, fl: Floats, s: ArrowSchema, t: ArrowSchema, items: Column,
                                            begin: nat, end: nat, seen: seq<Value>, vs: seq<Value>)
    requires BothLists(lib, s, t) && Stores(lib, s.children[0], items.base) && items.shift == 0 && begin <= end
    requires ItemsInBounds(lib, s.children[0], t.children[0], items, begin, end)
    requires seen == SeenItems(lib, s.children[0], t.children[0], items, begin, end) && vs == Rows(items.base, begin, end - begin)
    ensures ReadsAs(lib, fl, s, t, Sequence(seen), Sequence(vs), ItemsReadTrue(lib, s.children[0], t.children[0], items, begin, end))
    decreases items.base, 4
  {
    var truly := TrueItems(lib, s.children[0], t.children[0], items, begin, end);
    TrueItemsAll(lib, s.children[0], t.children[0], items, begin, end);
    ItemsRead(lib, fl, s.children[0], t.children[0], items, begin, end, seen, vs, truly);
    SequencesReadAs(lib, fl, s, t, seen, vs, truly);
  }

  lemma {:induction false} ListReads(lib: Library, fl: Floats, s: ArrowSchema, t: ArrowSchema, src: Column, i: nat)
    requires Stores(lib, s, src.base) && InBounds(lib, s, t, src, i) && !src.IsNull(i) && BothLists(lib, s, t)
    ensures ReadsAs(lib, fl, s, t, Seen(lib, s, t, src, i), src.Value(i), ReadsTrue(lib, s, t, src, i))
    decreases src.base, 0
  {
    var (begin, end) := src.ListRange(i);
    ListOfItemsReads(lib, fl, s, t, src.Items(), begin, end,
                     SeenItems(lib, s.children[0], t.children[0], src.Items(), begin, end),
                     Rows(src.Items().base, begin, end - begin));
  }

  lemma {:induction false} StructReads(lib: Library, fl: Floats, s: ArrowSchema, t: ArrowSchema, src: Column, i: nat)
    requires Stores(lib, s, src.base) && InBounds(lib, s, t, src, i) && !src.IsNull(i)
    requires FieldByField(lib, s, t) && src.base.node.Struct?
    ensures ReadsAs(lib, fl, s, t, Seen(lib, s, t, src, i), src.Value(i), ReadsTrue(lib, s, t, src, i))
    decreases src.base, 0
  {
    var n, seen, v := |s.children|, Seen(lib, s, t, src, i), src.Value(i);
    var truly := seq(n, c requires 0 <= c < n => ReadsTrue(lib, s.children[c], t.children[c], AnyChild(src, c), i));
    forall c | 0 <= c < n ensures ReadsAs(lib, fl, s.children[c], t.children[c], seen.fields[c], v.fields[c], truly[c]) {
      ChildValue(src, c, i);
      RowReads(lib, fl, s.children[c], t.children[c], AnyChild(src, c), i, seen.fields[c], v.fields[c], truly[c]);
    }
    RecordsReadAs(lib, fl, s, t, seen.fields, v.fields, truly);
    if forall c :: 0 <= c < n ==> truly[c] {
      forall c | 0 <= c < n ensures ReadsTrue(lib, s.children[c], t.children[c], AnyChild(src, c), i) { assert truly[c]; }
    }
  }

  /** Anything else but a dictionary is read as it is. */
  lemma {:induction false} OtherReads(lib: Library, fl: Floats, s: ArrowSchema, t: ArrowSchema, src: Column, i: nat)
    requires InBounds(lib, s, t, src, i) && !FieldByField(lib, s, t) && !BothLists(lib, s, t) && !src.base.node.Dictionary?
    ensures ReadsAs(lib, fl, s, t, Seen(lib, s, t, src, i), src.Value(i), ReadsTrue(lib, s, t, src, i))
  {
  }

  /**
   A row that converts is converted as its decoded value would be exactly if reading it shows that
   value. AppendConverted reads what lies in the slot of a null dictionary entry, and reads a list as a
   struct of one field.
   */
  lemma {:induction false} ReadAgreesIff(lib: Library, fl: Floats, s: ArrowSchema, t: ArrowSchema, src: Column, i: nat)
    requires Stores(lib, s, src.base) && InBounds(lib, s, t, src, i)
    ensures ReadsAs(lib, fl, s, t, Seen(lib, s, t, src, i), src.Value(i), ReadsTrue(lib, s, t, src, i))
    decreases src.base, 1
  {
    if src.IsNull(i) {
    } else if FieldByField(lib, s, t) {
      if src.base.node.Struct? { StructReads(lib, fl, s, t, src, i); } else { MisreadDiffers(lib, fl, s, t, src, i); }
    } else if BothLists(lib, s, t) {
      ListReads(lib, fl, s, t, src, i);
    } else if src.base.node.Dictionary? {
      DictionaryReads(lib, fl, s, t, src, i);
    } else {
      OtherReads(lib, fl, s, t, src, i);
    }
  }

  // ---------------------------------------------------------------------------------------------
  // Rows that are misread, and types under which none is but for null entries
  // ---------------------------------------------------------------------------------------------

  /** A struct is read field by field only where there is one. */
  predicate SameShape(lib: Library, s: ArrowSchema, t: ArrowSchema)
    decreases t
  {
    if FieldByField(lib, s, t) then
      s.dictionary.None? && ViewOf(lib, s).Some? && ViewOf(lib, s).value.kind.StructKind? &&
      forall c :: 0 <= c < |t.children| ==> SameShape(lib, s.children[c], t.children[c])
    else BothLists(lib, s, t) ==> SameShape(lib, s.children[0], t.children[0])
  }

  /** Between such types what can be read can be converted. */
  lemma {:induction false} ReadableInBounds(lib: Library, s: ArrowSchema, t: ArrowSchema, src: Column, i: nat)
    requires Stores(lib, s, src.base) && SameShape(lib, s, t) && src.CanRead(i)
    ensures InBounds(lib, s, t, src, i)
    decreases src.base
  {
    if !src.IsNull(i) {
      if FieldByField(lib, s, t) {
        forall c | 0 <= c < |s.children| ensures InBounds(lib, s.children[c], t.children[c], AnyChild(src, c), i) {
          ChildValue(src, c, i);
          ReadableInBounds(lib, s.children[c], t.children[c], AnyChild(src, c), i);
        }
      } else if BothLists(lib, s, t) {
        var (begin, end) := src.ListRange(i);
        forall k | begin <= k < end ensures InBounds(lib, s.children[0], t.children[0], src.Items(), k) {
          ReadableInBounds(lib, s.children[0], t.children[0], src.Items(), k);
        }
      }
    }
  }

  /** A null entry of a dictionary of strings comes out as the empty string. */
  lemma {:induction false} NullEntryBecomesText(lib: Library, fl: Floats, s: ArrowSchema, t: ArrowSchema)
    returns (src: Column)
    requires t.dictionary.None? && t.children == [] && ViewOf(lib, t).Some? && ViewOf(lib, t).value.kind.String?
    requires s.dictionary == Some(t) && s.children == [] && ViewOf(lib, s).Some?
    ensures Stores(lib, s, src.base) && InBounds(lib, s, t, src, 0) && SameShape(lib, s, t) && src.Value(0) == Null
    ensures Convert(lib, fl, s, t, Seen(lib, s, t, src, 0)) == Some(Leaf(SBytes([])))
  {
    src := Column(Array(0, 1, [], Dictionary(127, [0], Array(0, 1, [false], Variable(0x7FFF_FFFF, [0, 0], [])))), 0);
    assert Backed(src.base.node.dictionary);
    assert Stored(src.base.node.dictionary, 0) == Leaf(SBytes([]));
    LeafConverts(lib, fl, s, t, SBytes([]));
  }

  /** Where a struct of one field is wanted, row `i` of a list column is read as item `i`. */
  lemma {:induction false} ListSeenAsStruct(lib: Library, s: ArrowSchema, t: ArrowSchema, src: Column, i: nat, x: Value)
    requires FieldByField(lib, s, t) && |s.children| == 1 && src.base.node.List? && src.CanRead(i) && !src.IsNull(i)
    requires InBounds(lib, s.children[0], t.children[0], src.Items(), i)
    requires Seen(lib, s.children[0], t.children[0], src.Items(), i) == x
    ensures InBounds(lib, s, t, src, i) && Seen(lib, s, t, src, i) == Record([x])
  {
    assert Seen(lib, s, t, src, i).fields == [x];
  }

  lemma {:induction false} RecordOfOneConverts(lib: Library, fl: Floats, s: ArrowSchema, t: ArrowSchema, x: Value, y: Value)
    requires FieldByField(lib, s, t) && |s.children| == 1 && Convert(lib, fl, s.children[0], t.children[0], x) == Some(y)
    ensures Convert(lib, fl, s, t, Record([x])) == Some(Record([y]))
  {
    assert Convert(lib, fl, s, t, Record([x])).value.fields == [y];
  }

  lemma {:induction false} TwoLists(lib: Library, x: ArrowSchema, s: ArrowSchema) returns (src: Column)
    requires x.dictionary.None? && x.children == [] && ViewOf(lib, x).Some? && ViewOf(lib, x).value.kind.Int32?
    requires s.dictionary.None? && s.children == [x] && ViewOf(lib, s).Some? && ViewOf(lib, s).value.kind.ListKind?
    ensures src.base.node.List? && src.Items() == Column(Array(0, 3, [], Fixed([SInt(1), SInt(2), SInt(3)])), 0)
    ensures Stores(lib, s, src.base) && src.CanRead(1) && src.Value(1) == Sequence([Leaf(SInt(3))])
  {
    var items := Array(0, 3, [], Fixed([SInt(1), SInt(2), SInt(3)]));
    src := Column(Array(0, 2, [], List(0x7FFF_FFFF, [0, 2, 3], items)), 0);
    assert Rows(items, 2, 1) == [Leaf(SInt(3))];
  }

  /** Of the lists [1, 2] and [3] the second comes out as the struct {2}: the second item, not the second list. */
  lemma {:induction false} ListBecomesStruct(lib: Library, fl: Floats, x: ArrowSchema, s: ArrowSchema, t: ArrowSchema)
    returns (src: Column)
    requires x.dictionary.None? && x.children == [] && ViewOf(lib, x).Some? && ViewOf(lib, x).value.kind.Int32?
    requires s.dictionary.None? && s.children == [x] && ViewOf(lib, s).Some? && ViewOf(lib, s).value.kind.ListKind?
    requires WantsStruct(lib, t) && t.children == [x]
    ensures Stores(lib, s, src.base) && InBounds(lib, s, t, src, 1)
    ensures src.Value(1) == Sequence([Leaf(SInt(3))]) && Convert(lib, fl, s, t, src.Value(1)).None?
    ensures Convert(lib, fl, s, t, Seen(lib, s, t, src, 1)) == Some(Record([Leaf(SInt(2))]))
  {
    src := TwoLists(lib, x, s);
    ListSeenAsStruct(lib, s, t, src, 1, Leaf(SInt(2)));
    LeafConverts(lib, fl, x, x, SInt(2));
    RecordOfOneConverts(lib, fl, s, t, Leaf(SInt(2)), Leaf(SInt(2)));
  }

  lemma {:induction false} StoredSupported(lib: Library, s: ArrowSchema, a: Array)
    requires Stores(lib, s, a)
    ensures AllSupported(lib, s)
    decreases a
  {
    if s.dictionary.Some? {
      StoredSupported(lib, s.dictionary.value, a.node.dictionary);
    } else if a.node.Struct? {
      forall c | 0 <= c < |s.children| ensures AllSupported(lib, s.children[c]) {
        StoredSupported(lib, s.children[c], a.node.children[c]);
      }
    } else if a.node.List? {
      StoredSupported(lib, s.children[0], a.node.items);
    } else if a.node.FixedList? {
      StoredSupported(lib, s.children[0], a.node.elements);
    }
  }

  lemma {:induction false} StoredRows(lib: Library, s: ArrowSchema, a: Array, from: nat, n: nat)
    requires Stores(lib, s, a) && AllReadable(a, from, n)
    ensures forall j :: 0 <= j < n ==> Typed(lib, s, Rows(a, from, n)[j])
    decreases a, 1
  {
    forall j | 0 <= j < n ensures Typed(lib, s, Rows(a, from, n)[j]) {
      StoredTyped(lib, s, a, from + j);
    }
  }

  /** A column of type `s` decodes to values of type `s`. */
  lemma {:induction false} StoredTyped(lib: Library, s: ArrowSchema, a: Array, k: nat)
    requires Stores(lib, s, a) && Readable(a, k)
    ensures Typed(lib, s, At(a, k))
    decreases a, 0
  {
    var p := a.offset + k;
    if !NullSlot(a, p) {
      match a.node
      case Struct(children) =>
        forall c | 0 <= c < |children| ensures Typed(lib, s.children[c], At(a, k).fields[c]) {
          StoredTyped(lib, s.children[c], children[c], p);
        }
      case List(_, offsets, items) => StoredRows(lib, s.children[0], items, offsets[p], offsets[p + 1] - offsets[p]);
      case FixedList(size, elements) => StoredRows(lib, s.children[0], elements, p * size, size);
      case Dictionary(_, indices, dictionary) => StoredTyped(lib, s.dictionary.value, dictionary, indices[p]);
      case _ =>
    }
  }
}
