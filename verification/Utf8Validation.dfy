/**
 The UTF-8 pass over a worker batch (`ValidateUtf8` in src/vgi_batch_validation.cpp): every string
 node of the tree, dictionaries included, with a shortcut for a node whose whole byte span is ASCII.
 Well-formed is meant as in section 4 of RFC 3629.
 */
module Utf8Validation {
  import opened Basics
  import opened Options

  // ---------------------------------------------------------------------------------------------
  // UTF-8
  // ---------------------------------------------------------------------------------------------

  predicate In(s: seq<Byte>, i: nat, low: int, high: int) {
    i < |s| && low <= s[i] <= high
  }

  predicate Tail(s: seq<Byte>, i: nat) {
    In(s, i, 0x80, 0xBF)
  }

  /** The length of the character that `s` starts with: UTF8-1 to UTF8-4, or 0 if there is none. */
  function CharLength(s: seq<Byte>): (n: nat)
    ensures n <= |s|
  {
    if In(s, 0, 0x00, 0x7F) then 1
    else if In(s, 0, 0xC2, 0xDF) && Tail(s, 1) then 2
    else if In(s, 0, 0xE0, 0xE0) && In(s, 1, 0xA0, 0xBF) && Tail(s, 2) then 3
    else if In(s, 0, 0xE1, 0xEC) && Tail(s, 1) && Tail(s, 2) then 3
    else if In(s, 0, 0xED, 0xED) && In(s, 1, 0x80, 0x9F) && Tail(s, 2) then 3
    else if In(s, 0, 0xEE, 0xEF) && Tail(s, 1) && Tail(s, 2) then 3
    else if In(s, 0, 0xF0, 0xF0) && In(s, 1, 0x90, 0xBF) && Tail(s, 2) && Tail(s, 3) then 4
    else if In(s, 0, 0xF1, 0xF3) && Tail(s, 1) && Tail(s, 2) && Tail(s, 3) then 4
    else if In(s, 0, 0xF4, 0xF4) && In(s, 1, 0x80, 0x8F) && Tail(s, 2) && Tail(s, 3) then 4
    else 0
  }

  predicate WellFormed(s: seq<Byte>) {
    s == [] || (CharLength(s) > 0 && WellFormed(s[CharLength(s)..]))
  }

  predicate Ascii(s: seq<Byte>) {
    forall i :: 0 <= i < |s| ==> s[i] < 0x80
  }

  datatype UnicodeType = AsciiText | UnicodeText | InvalidText

  /** Utf8Proc::Analyze. */
  function Analyze(s: seq<Byte>): UnicodeType {
    if Ascii(s) then AsciiText else if WellFormed(s) then UnicodeText else InvalidText
  }

  lemma {:induction false} AsciiIsWellFormed(s: seq<Byte>)
    requires Ascii(s)
    ensures WellFormed(s)
  {
    if s != [] {
      assert CharLength(s) == 1;
      AsciiIsWellFormed(s[1..]);
    }
  }

  // ---------------------------------------------------------------------------------------------
  // Array views
  // ---------------------------------------------------------------------------------------------

  datatype Storage =
    | Strings(offsets: seq<int>, data: seq<Byte>)      // utf8 and large_utf8
    | StringViews(values: seq<seq<Byte>>)
    | NoStrings

  datatype View = View(
    offset: nat, length: nat, validity: seq<bool>, storage: Storage, children: seq<View>, dictionary: Option<View>)

  predicate IsNull(v: View, i: nat) {
    v.offset + i < |v.validity| && !v.validity[v.offset + i]
  }

  /** What full validation of the buffers has established for a node: offsets within the data. */
  predicate InBounds(v: View) {
    match v.storage
    case Strings(offsets, data) =>
      v.length > 0 ==>
        v.offset + v.length < |offsets| &&
        forall i :: v.offset <= i <= v.offset + v.length ==> 0 <= offsets[i] <= |data|
    case StringViews(values) => v.offset + v.length <= |values|
    case NoStrings => true
  }

  /** And that offsets never decrease. */
  predicate OffsetsMonotone(v: View) {
    v.storage.Strings? && v.length > 0 && InBounds(v) ==>
      forall i, j :: v.offset <= i <= j <= v.offset + v.length ==> v.storage.offsets[i] <= v.storage.offsets[j]
  }

  predicate Everywhere(v: View, monotone: bool)
    decreases v
  {
    InBounds(v) && (monotone ==> OffsetsMonotone(v)) &&
    (forall c :: 0 <= c < |v.children| ==> Everywhere(v.children[c], monotone)) &&
    (v.dictionary.Some? ==> Everywhere(v.dictionary.value, monotone))
  }

  /** The bytes of element `i`. */
  function Text(v: View, i: nat): seq<Byte>
    requires InBounds(v) && i < v.length
  {
    match v.storage
    case Strings(offsets, data) =>
      var begin, end := offsets[v.offset + i], offsets[v.offset + i + 1];
      if end > begin then data[begin..end] else []
    case StringViews(values) => values[v.offset + i]
    case NoStrings => []
  }

  predicate ElementValid(v: View, i: nat)
    requires InBounds(v) && i < v.length
  {
    IsNull(v, i) || WellFormed(Text(v, i))
  }

  predicate NodeValid(v: View)
    requires InBounds(v)
  {
    forall i :: 0 <= i < v.length ==> ElementValid(v, i)
  }

  /** Every string that is not null, at any depth, is well-formed. */
  predicate AllValid(v: View)
    requires Everywhere(v, false)
    decreases v
  {
    NodeValid(v) &&
    (forall c :: 0 <= c < |v.children| ==> AllValid(v.children[c])) &&
    (v.dictionary.Some? ==> AllValid(v.dictionary.value))
  }

  // ---------------------------------------------------------------------------------------------
  // The pass
  // ---------------------------------------------------------------------------------------------

  /** The shortcut: all bytes between the first and the last offset are ASCII. */
  predicate SpanAscii(v: View)
    requires InBounds(v)
  {
    v.storage.Strings? && v.length > 0 &&
    var first, last := v.storage.offsets[v.offset], v.storage.offsets[v.offset + v.length];
    last > first ==> Analyze(v.storage.data[first..last]) == AsciiText
  }

  /** With monotone offsets no value reaches outside the span. */
  lemma {:induction false} SpanCovers(v: View)
    requires InBounds(v) && OffsetsMonotone(v) && SpanAscii(v)
    ensures NodeValid(v)
  {
    var offsets, data := v.storage.offsets, v.storage.data;
    var first, last := offsets[v.offset], offsets[v.offset + v.length];
    forall i | 0 <= i < v.length ensures ElementValid(v, i) {
      var begin, end := offsets[v.offset + i], offsets[v.offset + i + 1];
      assert first <= begin <= end <= last;
      if end > begin {
        assert Ascii(data[begin..end]) by {
          forall k | 0 <= k < end - begin ensures data[begin..end][k] < 0x80 {
            assert data[begin..end][k] == data[first..last][begin - first + k];
          }
        }
        AsciiIsWellFormed(data[begin..end]);
      }
    }
  }

  predicate Malformed(s: seq<Byte>)
    ensures Malformed(s) <==> !WellFormed(s)
  {
    if Ascii(s) then AsciiIsWellFormed(s); false else Analyze(s) == InvalidText
  }

  /** When a value of a utf8 or large_utf8 node passes. */
  lemma {:induction false} StringPasses(v: View, i: nat)
    requires InBounds(v) && v.storage.Strings? && i < v.length
    ensures
      var begin, end := v.storage.offsets[v.offset + i], v.storage.offsets[v.offset + i + 1];
      ElementValid(v, i) <==> IsNull(v, i) || end <= begin || !Malformed(v.storage.data[begin..end])
  {
  }

  /** The values of a utf8 or large_utf8 node, one by one. */
  method ValidateStrings(v: View) returns (ok: bool)
    requires InBounds(v) && v.storage.Strings? && v.length > 0
    ensures ok <==> NodeValid(v)
  {
    var offsets, data := v.storage.offsets, v.storage.data;
    for i := 0 to v.length
      invariant forall j :: 0 <= j < i ==> ElementValid(v, j)
    {
      StringPasses(v, i);
      if !IsNull(v, i) {
        var begin, end := offsets[v.offset + i], offsets[v.offset + i + 1];
        if end > begin && Malformed(data[begin..end]) { return false; }
      }
    }
    return true;
  }

  method ValidateStringViews(v: View) returns (ok: bool)
    requires InBounds(v) && v.storage.StringViews?
    ensures ok <==> NodeValid(v)
  {
    for i := 0 to v.length
      invariant forall j :: 0 <= j < i ==> ElementValid(v, j)
    {
      if !IsNull(v, i) {
        var s := v.storage.values[v.offset + i];
        if |s| > 0 && Malformed(s) {
          assert !ElementValid(v, i);
          return false;
        }
      }
    }
    return true;
  }

  /** One node, without its children. */
  method ValidateNode(v: View) returns (ok: bool)
    requires InBounds(v)
    ensures ok <==> SpanAscii(v) || NodeValid(v)
  {
    if v.storage.Strings? && v.length > 0 {
      var first, last := v.storage.offsets[v.offset], v.storage.offsets[v.offset + v.length];
      var allAscii := true;
      if last > first { allAscii := Analyze(v.storage.data[first..last]) == AsciiText; }
      if allAscii { return true; }
      ok := ValidateStrings(v);
    } else if v.storage.StringViews? {
      ok := ValidateStringViews(v);
    } else {
      ok := true;
    }
  }

  /** What the pass accepts, whatever the offsets. */
  predicate Passes(v: View)
    requires Everywhere(v, false)
    decreases v
  {
    (SpanAscii(v) || NodeValid(v)) &&
    (forall c :: 0 <= c < |v.children| ==> Passes(v.children[c])) &&
    (v.dictionary.Some? ==> Passes(v.dictionary.value))
  }

  method ValidateUtf8(v: View) returns (ok: bool)
    requires Everywhere(v, false)
    ensures ok <==> Passes(v)
    ensures Everywhere(v, true) ==> (ok <==> AllValid(v))
    decreases v
  {
    if Everywhere(v, true) { PassesIffAllValid(v); }
    ok := ValidateNode(v);
    if !ok { return; }
    for c := 0 to |v.children|
      invariant forall j :: 0 <= j < c ==> Passes(v.children[j])
    {
      ok := ValidateUtf8(v.children[c]);
      if !ok { return; }
    }
    if v.dictionary.Some? {
      ok := ValidateUtf8(v.dictionary.value);
      if !ok { return; }
    }
    ok := true;
  }

  /** With monotone offsets the pass accepts a tree exactly if every string in it is well-formed. */
  lemma {:induction false} PassesIffAllValid(v: View)
    requires Everywhere(v, true)
    ensures Everywhere(v, false) && (Passes(v) <==> AllValid(v))
    decreases v
  {
    if SpanAscii(v) { SpanCovers(v); }
    forall c | 0 <= c < |v.children|
      ensures Everywhere(v.children[c], false) && (Passes(v.children[c]) <==> AllValid(v.children[c]))
    {
      PassesIffAllValid(v.children[c]);
    }
    if v.dictionary.Some? { PassesIffAllValid(v.dictionary.value); }
  }

  /** Offsets that decrease can hide a value outside the span: the shortcut then lets it through. */
  lemma {:induction false} DecreasingOffsetsHideValues() returns (v: View)
    ensures Everywhere(v, false) && Passes(v) && !AllValid(v)
  {
    v := View(0, 2, [], Strings([0, 2, 1], [0x41, 0xFF]), [], None);
    assert v.storage.data[0..1] == [0x41];
    assert Text(v, 0) == [0x41, 0xFF];
    assert CharLength(Text(v, 0)) == 1 && Text(v, 0)[1..] == [0xFF] && CharLength([0xFF]) == 0;
    assert !ElementValid(v, 0);
  }
}
