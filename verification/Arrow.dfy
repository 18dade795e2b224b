/**
 Physical Arrow columns and what they mean.

 An `Array` is one node of the tree that an `ArrowArrayView` describes: buffers, a physical
 offset into them, and children. `At` is the meaning of one slot, as a logical `Value`; every
 operation on columns is specified through it. `Readable` says that reading a slot stays inside
 the buffers, which is what validation of a worker batch establishes.
 */
module Arrow {
  import opened Basics

  /** A fixed-width cell. Floating point, decimal and interval payloads are opaque. */
  datatype Scalar =
    | SInt(i: int)
    | SUInt(n: nat)
    | SFloat(bits: int)
    | SBytes(text: seq<Byte>)
    | SDecimal(unscaled: int)
    | SInterval(months: int, days: int, nanos: int)

  /** `limit` is the largest offset the offset buffer can hold. */
  datatype Node =
    | Na
    | Fixed(data: seq<Scalar>)
    | Variable(limit: nat, ends: seq<nat>, bytes: seq<Byte>)
    | Struct(children: seq<Array>)
    | List(limit: nat, offsets: seq<nat>, items: Array)
    | FixedList(size: nat, elements: Array)
    | Dictionary(maxIndex: nat, indices: seq<int>, dictionary: Array)
    | Other

  /** `validity == []` is an absent bitmap: every slot is valid. */
  datatype Array = Array(offset: nat, length: nat, validity: seq<bool>, node: Node)

  datatype Value =
    | Null
    | Leaf(scalar: Scalar)
    | Record(fields: seq<Value>)
    | Sequence(elems: seq<Value>)

  /** Whether physical slot `p` of `a` is null. A null-typed array is null everywhere. */
  predicate NullSlot(a: Array, p: nat) {
    a.node.Na? || (p < |a.validity| && !a.validity[p])
  }

  /**
   The value of row `k` of `a`, counted from the array's own offset. A struct child is addressed by
   the struct's physical slot, a list child by the offsets stored in the list.
   */
  function At(a: Array, k: nat): Value
    decreases a, 0
  {
    var p := a.offset + k;
    if NullSlot(a, p) then Null
    else
      match a.node
      case Na => Null
      case Fixed(data) => if p < |data| then Leaf(data[p]) else Null
      case Variable(_, ends, bytes) =>
        if p + 1 < |ends| && ends[p] <= ends[p + 1] <= |bytes| then Leaf(SBytes(bytes[ends[p]..ends[p + 1]])) else Null
      case Struct(children) =>
        Record(seq(|children|, c requires 0 <= c < |children| => At(children[c], p)))
      case List(_, offsets, items) =>
        if p + 1 < |offsets| && offsets[p] <= offsets[p + 1]
        then Sequence(Rows(items, offsets[p], offsets[p + 1] - offsets[p]))
        else Null
      case FixedList(size, elements) =>
        Sequence(Rows(elements, p * size, size))
      case Dictionary(_, indices, dictionary) =>
        if p < |indices| && 0 <= indices[p] then At(dictionary, indices[p]) else Null
      case Other => Null
  }

  /** Rows `from`, ..., `from + n - 1` of `a`. */
  function Rows(a: Array, from: nat, n: nat): (r: seq<Value>)
    ensures |r| == n
    ensures forall j :: 0 <= j < n ==> r[j] == At(a, from + j)
    decreases a, 1
  {
    seq(n, j requires 0 <= j < n => At(a, from + j))
  }

  /** Reading row `k` of `a` at any depth stays within every buffer involved. */
  predicate Readable(a: Array, k: nat)
    decreases a, 0
  {
    var p := a.offset + k;
    (a.validity == [] || p < |a.validity|) &&
    (!NullSlot(a, p) ==>
       match a.node
       case Na => true
       case Fixed(data) => p < |data|
       case Variable(_, ends, bytes) => p + 1 < |ends| && ends[p] <= ends[p + 1] <= |bytes|
       case Struct(children) => forall c :: 0 <= c < |children| ==> Readable(children[c], p)
       case List(_, offsets, items) =>
         p + 1 < |offsets| && offsets[p] <= offsets[p + 1] && AllReadable(items, offsets[p], offsets[p + 1] - offsets[p])
       case FixedList(size, elements) => AllReadable(elements, p * size, size)
       case Dictionary(maxIndex, indices, dictionary) =>
         p < |indices| && 0 <= indices[p] <= maxIndex && indices[p] < dictionary.length &&
         Readable(dictionary, indices[p])
       case Other => true)
  }

  predicate AllReadable(a: Array, from: nat, n: nat)
    decreases a, 1
  {
    forall j :: from <= j < from + n ==> Readable(a, j)
  }

  // ---------------------------------------------------------------------------------------------
  // Columns: a view plus the shift a struct child inherits from its parent
  // ---------------------------------------------------------------------------------------------

  datatype Column = Column(base: Array, shift: nat) {

    function Value(i: nat): Value {
      At(base, shift + i)
    }

    predicate CanRead(i: nat) {
      Readable(base, shift + i)
    }

    predicate IsNull(i: nat) {
      NullSlot(base, base.offset + (shift + i))
    }

    function Child(c: nat): Column
      requires base.node.Struct? && c < |base.node.children|
    {
      Column(base.node.children[c], shift + base.offset)
    }

    function Items(): Column
      requires base.node.List? || base.node.FixedList?
    {
      Column(if base.node.List? then base.node.items else base.node.elements, 0)
    }

    /** [begin, end) of list element `i` in `Items()`. */
    function ListRange(i: nat): (r: (nat, nat))
      requires base.node.List? || base.node.FixedList?
      requires CanRead(i) && !IsNull(i)
      ensures r.0 <= r.1
      ensures AllReadable(Items().base, r.0, r.1 - r.0)
      ensures Value(i) == Sequence(Rows(Items().base, r.0, r.1 - r.0))
    {
      var k := base.offset + shift + i;
      assert k == base.offset + (shift + i);
      match base.node
      case List(_, offsets, _) => (offsets[k], offsets[k + 1])
      case FixedList(size, _) => (k * size, k * size + size)
    }
  }

  /** A struct child column shows, row by row, the matching component of the struct's value. */
  lemma {:induction false} ChildValue(col: Column, c: nat, i: nat)
    requires col.base.node.Struct? && c < |col.base.node.children|
    requires col.CanRead(i) && !col.IsNull(i)
    ensures col.Child(c).CanRead(i)
    ensures col.Value(i).Record? && c < |col.Value(i).fields|
    ensures col.Child(c).Value(i) == col.Value(i).fields[c]
  {
    assert col.shift + col.base.offset + i == col.base.offset + (col.shift + i);
  }
}
