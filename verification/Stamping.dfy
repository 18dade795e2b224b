/**
 How `TouchLastUsed` in src/vgi_database_worker.cpp rewrites a stamp in a text without parsing it: it
 looks for a key, a name with its equals sign, and replaces what follows up to the end of that line.
 */
module Stamping {
  import opened Options
  import opened MetaText

  /** What is looked for: a word and an equals sign. */
  predicate IsKey(s: string) {
    s != "" && s[|s| - 1] == '=' && '=' !in s[..|s| - 1] && '\n' !in s
  }

  type Key = s: string | IsKey(s) witness "="

  // ---------------------------------------------------------------------------------------------
  // Searching text
  // ---------------------------------------------------------------------------------------------

  predicate At(key: Key, s: string, i: nat) {
    i + |key| <= |s| && s[i..i + |key|] == key
  }

  ghost predicate Keyed(key: Key, s: string) {
    exists i: nat :: At(key, s, i)
  }

  function FindKeyFrom(key: Key, s: string, i: nat): (r: Option<nat>)
    ensures r.Some? ==> i <= r.value && At(key, s, r.value) && forall j: nat :: i <= j < r.value ==> !At(key, s, j)
    ensures r.None? ==> forall j: nat :: i <= j ==> !At(key, s, j)
    decreases |s| - i
  {
    if i + |key| > |s| then None else if At(key, s, i) then Some(i) else FindKeyFrom(key, s, i + 1)
  }

  /** The first occurrence of the key. */
  function FindKey(key: Key, s: string): (r: Option<nat>)
    ensures r.Some? <==> Keyed(key, s)
    ensures r.Some? ==> At(key, s, r.value) && forall j: nat :: j < r.value ==> !At(key, s, j)
  {
    FindKeyFrom(key, s, 0)
  }

  lemma {:induction false} FindsKeyAt(key: Key, s: string, p: nat)
    requires At(key, s, p) && forall j: nat :: j < p ==> !At(key, s, j)
    ensures FindKey(key, s) == Some(p)
  {
  }

  lemma {:induction false} KeyChar(key: Key, s: string, i: nat, k: nat)
    requires At(key, s, i) && i <= k < i + |key|
    ensures s[k] == key[k - i] && s[k] != '\n' && (s[k] == '=' <==> k == i + |key| - 1)
  {
    assert s[k] == s[i..i + |key|][k - i] == key[k - i];
    assert k - i < |key| - 1 ==> key[k - i] == key[..|key| - 1][k - i];
  }

  lemma {:induction false} TooShortForKey(key: Key, s: string)
    requires |s| < |key|
    ensures !Keyed(key, s)
  {
  }

  // ---------------------------------------------------------------------------------------------
  // The stamp
  // ---------------------------------------------------------------------------------------------

  /** How sizes and times are written. */
  predicate Number(s: string) {
    forall k :: 0 <= k < |s| ==> s[k] == '-' || '0' <= s[k] <= '9'
  }

  type Numeral = s: string | Number(s)

  lemma {:induction false} NumberIsOneLine(s: string)
    requires Number(s)
    ensures '\n' !in s
  {
  }

  /** The end of the line that position `start` is in. */
  function LineEnd(s: string, start: nat): (r: nat)
    requires start <= |s|
    ensures start <= r <= |s| && (r == |s| || s[r] == '\n')
  {
    match IndexOf(s[start..], '\n') case None => |s| case Some(k) => start + k
  }

  /** `body` with what stands from `start` to `end` replaced. */
  function Splice(body: string, start: nat, end: nat, stamp: string): string
    requires start <= end <= |body|
  {
    body[..start] + stamp + body[end..]
  }

  /** `body` with what stands from `start` to the end of that line replaced. */
  function StampFrom(body: string, start: nat, stamp: string): string
    requires start <= |body|
  {
    Splice(body, start, LineEnd(body, start), stamp)
  }

  /** Rewrite what follows the key's first occurrence up to the end of that line; `None`: left alone. */
  function Touch(key: Key, body: string, stamp: string): Option<string> {
    match FindKey(key, body)
    case None => None
    case Some(p) => Some(StampFrom(body, p + |key|, stamp))
  }

  /** A line or value with what follows its key replaced. */
  function Stamped(key: Key, l: string, stamp: string): string
    requires Keyed(key, l)
  {
    l[..FindKey(key, l).value + |key|] + stamp
  }

  lemma {:induction false} KeyInFirst(key: Key, first: string, rest: string)
    requires '\n' !in first && Keyed(key, first)
    ensures FindKey(key, first + "\n" + rest) == FindKey(key, first)
  {
    var body, p := first + "\n" + rest, FindKey(key, first).value;
    assert body[p..p + |key|] == first[p..p + |key|];
    forall j: nat | j < p ensures !At(key, body, j) {
      assert body[j..j + |key|] == first[j..j + |key|] && !At(key, first, j);
    }
    FindsKeyAt(key, body, p);
  }

  lemma {:induction false} AtMoved(key: Key, head: string, rest: string, body: string, i: nat)
    requires body == head + rest
    ensures At(key, body, |head| + i) <==> At(key, rest, i)
  {
    if i + |key| <= |rest| { assert body[|head| + i..|head| + i + |key|] == rest[i..i + |key|]; }
  }

  /** A key that does not begin in the first part of a text is found in the second. */
  lemma {:induction false} KeyMoved(key: Key, head: string, rest: string, body: string)
    requires body == head + rest && forall i: nat :: i < |head| ==> !At(key, body, i)
    ensures Keyed(key, body) <==> Keyed(key, rest)
    ensures Keyed(key, rest) ==> FindKey(key, body) == Some(|head| + FindKey(key, rest).value)
  {
    var n := |head|;
    forall j: nat | j >= n ensures At(key, body, j) <==> At(key, rest, j - n) { AtMoved(key, head, rest, body, j - n); }
    if Keyed(key, body) { assert At(key, rest, FindKey(key, body).value - n); }
    if Keyed(key, rest) {
      var p := FindKey(key, rest).value;
      AtMoved(key, head, rest, body, p);
      FindsKeyAt(key, body, n + p);
    }
  }

  lemma {:induction false} KeyAfterFirst(key: Key, first: string, rest: string, p: nat)
    requires At(key, first + "\n" + rest, p) && !Keyed(key, first)
    ensures p > |first|
  {
    var body := first + "\n" + rest;
    if p <= |first| < p + |key| {
      KeyChar(key, body, p, |first|);
      assert false;
    }
    if p + |key| <= |first| {
      assert body[p..p + |key|] == first[p..p + |key|];
      assert At(key, first, p);
      assert false;
    }
  }

  lemma {:induction false} KeyInRest(key: Key, first: string, rest: string)
    requires !Keyed(key, first)
    ensures Keyed(key, first + "\n" + rest) <==> Keyed(key, rest)
    ensures Keyed(key, rest) ==> FindKey(key, first + "\n" + rest) == Some(|first| + 1 + FindKey(key, rest).value)
  {
    var body := first + "\n" + rest;
    forall i: nat | i < |first| + 1 ensures !At(key, body, i) {
      if At(key, body, i) { KeyAfterFirst(key, first, rest, i); }
    }
    KeyMoved(key, first + "\n", rest, body);
  }

  lemma {:induction false} EndInFirst(first: string, rest: string, start: nat)
    requires '\n' !in first && start <= |first|
    ensures LineEnd(first + "\n" + rest, start) == |first|
  {
    var tail := (first + "\n" + rest)[start..];
    assert tail[..|first| - start] == first[start..];
    IndexIs(tail, '\n', |first| - start);
  }

  lemma {:induction false} CutFirst(first: string, rest: string, start: nat)
    requires start <= |first|
    ensures (first + "\n" + rest)[..start] == first[..start] && (first + "\n" + rest)[|first|..] == "\n" + rest
  {
  }

  lemma {:induction false} GroupLast(a: string, b: string, c: string, d: string)
    ensures a + b + (c + d) == a + b + c + d
  {
  }

  lemma {:induction false} GroupFirst(a: string, b: string, c: string, d: string)
    ensures a + b + c + d == a + (b + c + d)
  {
  }

  lemma {:induction false} TouchFirst(key: Key, first: string, rest: string, stamp: string)
    requires '\n' !in first && Keyed(key, first)
    ensures Touch(key, first + "\n" + rest, stamp) == Some(Stamped(key, first, stamp) + "\n" + rest)
  {
    var start := FindKey(key, first).value + |key|;
    KeyInFirst(key, first, rest);
    EndInFirst(first, rest, start);
    CutFirst(first, rest, start);
    GroupLast(first[..start], stamp, "\n", rest);
  }

  lemma {:induction false} SpliceMoved(head: string, rest: string, body: string, start: nat, end: nat, stamp: string)
    requires body == head + rest && start <= end <= |rest|
    ensures Splice(body, |head| + start, |head| + end, stamp) == head + Splice(rest, start, end, stamp)
  {
    assert body[..|head| + start] == head + rest[..start] && body[|head| + end..] == rest[end..];
    GroupFirst(head, rest[..start], stamp, rest[end..]);
  }

  lemma {:induction false} EndMoved(head: string, rest: string, body: string, start: nat)
    requires body == head + rest && start <= |rest|
    ensures LineEnd(body, |head| + start) == |head| + LineEnd(rest, start)
  {
    assert body[|head| + start..] == rest[start..];
  }

  lemma {:induction false} StampMoved(head: string, rest: string, body: string, start: nat, stamp: string)
    requires body == head + rest && start <= |rest|
    ensures StampFrom(body, |head| + start, stamp) == head + StampFrom(rest, start, stamp)
  {
    EndMoved(head, rest, body, start);
    SpliceMoved(head, rest, body, start, LineEnd(rest, start), stamp);
  }

  lemma {:induction false} TouchRest(key: Key, first: string, rest: string, stamp: string)
    requires !Keyed(key, first) && Keyed(key, rest)
    ensures Touch(key, first + "\n" + rest, stamp) == Some(first + "\n" + Touch(key, rest, stamp).value)
  {
    KeyInRest(key, first, rest);
    StampMoved(first + "\n", rest, first + "\n" + rest, FindKey(key, rest).value + |key|, stamp);
  }

  lemma {:induction false} TouchOnly(key: Key, body: string, stamp: string)
    requires Keyed(key, body) && '\n' !in body
    ensures Touch(key, body, stamp) == Some(Stamped(key, body, stamp))
  {
    var start := FindKey(key, body).value + |key|;
    assert '\n' !in body[start..];
    assert body[..start] + stamp + body[|body|..] == Stamped(key, body, stamp);
  }

  /** `after` is `before` with its first line that holds the key, line `m`, stamped. */
  ghost predicate StampsLine(key: Key, before: seq<string>, after: seq<string>, m: nat, stamp: string) {
    m < |before| && Keyed(key, before[m]) && (forall k :: 0 <= k < m ==> !Keyed(key, before[k])) &&
    after == before[m := Stamped(key, before[m], stamp)]
  }

  lemma {:induction false} StampsFirst(key: Key, first: string, rest: seq<string>, stamp: string)
    requires Keyed(key, first)
    ensures StampsLine(key, [first] + rest, [Stamped(key, first, stamp)] + rest, 0, stamp)
  {
  }

  lemma {:induction false} StampsLater(key: Key, first: string, before: seq<string>, after: seq<string>, m: nat,
                                       stamp: string)
    requires !Keyed(key, first) && StampsLine(key, before, after, m, stamp)
    ensures StampsLine(key, [first] + before, [first] + after, m + 1, stamp)
  {
  }

  lemma {:induction false} StampedIsOneLine(key: Key, l: string, stamp: string)
    requires Keyed(key, l) && '\n' !in l && '\n' !in stamp
    ensures '\n' !in Stamped(key, l, stamp) && Stamped(key, l, stamp) != ""
  {
  }

  /** The rewrite of the text is the rewrite of one line: the first that holds the key anywhere. */
  lemma {:induction false} TouchIsOneLine(key: Key, body: string, stamp: string) returns (m: nat)
    requires Keyed(key, body) && '\n' !in stamp
    ensures StampsLine(key, Lines(body), Lines(Touch(key, body, stamp).value), m, stamp)
    decreases |body|
  {
    match IndexOf(body, '\n')
    case None =>
      m := 0;
      TouchOnly(key, body, stamp);
      StampedIsOneLine(key, body, stamp);
      OneLine(body);
      OneLine(Stamped(key, body, stamp));
    case Some(k) =>
      var first, rest := body[..k], body[k + 1..];
      assert body == first + "\n" + rest;
      if Keyed(key, first) {
        m := 0;
        TouchFirst(key, first, rest, stamp);
        StampedIsOneLine(key, first, stamp);
        LinesOfTerminated(Stamped(key, first, stamp), rest);
        StampsFirst(key, first, Lines(rest), stamp);
      } else {
        KeyInRest(key, first, rest);
        var less := TouchIsOneLine(key, rest, stamp);
        m := less + 1;
        TouchRest(key, first, rest, stamp);
        LinesOfTerminated(first, Touch(key, rest, stamp).value);
        StampsLater(key, first, Lines(rest), Lines(Touch(key, rest, stamp).value), less, stamp);
      }
  }

  // ---------------------------------------------------------------------------------------------
  // Stamping again
  // ---------------------------------------------------------------------------------------------

  lemma {:induction false} SliceOfTake(s: string, n: nat, i: nat, j: nat)
    requires i <= j <= n <= |s|
    ensures s[..n][i..j] == s[i..j]
  {
  }

  lemma {:induction false} KeyStays(key: Key, body: string, after: string, p: nat)
    requires FindKey(key, body) == Some(p) && p + |key| <= |after| && after[..p + |key|] == body[..p + |key|]
    ensures FindKey(key, after) == Some(p)
  {
    forall j: nat | j <= p ensures At(key, after, j) <==> At(key, body, j) {
      SliceOfTake(after, p + |key|, j, j + |key|);
      SliceOfTake(body, p + |key|, j, j + |key|);
    }
    FindsKeyAt(key, after, p);
  }

  lemma {:induction false} EndOfStamp(body: string, start: nat, end: nat, stamp: string)
    requires start <= end <= |body| && (end == |body| || body[end] == '\n') && '\n' !in stamp
    ensures LineEnd(Splice(body, start, end, stamp), start) == start + |stamp|
  {
    var after := Splice(body, start, end, stamp);
    assert after[start..] == stamp + body[end..];
    if end < |body| {
      assert (stamp + body[end..])[..|stamp|] == stamp;
      IndexIs(stamp + body[end..], '\n', |stamp|);
    } else {
      assert stamp + body[end..] == stamp;
    }
  }

  lemma {:induction false} SpliceTwice(body: string, start: nat, end: nat, x: string, y: string)
    requires start <= end <= |body|
    ensures Splice(Splice(body, start, end, x), start, start + |x|, y) == Splice(body, start, end, y)
  {
    var after := Splice(body, start, end, x);
    assert after[..start] == body[..start] && after[start + |x|..] == body[end..];
  }

  lemma {:induction false} StampTwice(body: string, start: nat, x: string, y: string)
    requires start <= |body| && '\n' !in x
    ensures start <= |StampFrom(body, start, x)|
    ensures StampFrom(StampFrom(body, start, x), start, y) == StampFrom(body, start, y)
  {
    EndOfStamp(body, start, LineEnd(body, start), x);
    SpliceTwice(body, start, LineEnd(body, start), x, y);
  }

  lemma {:induction false} FoundAgain(key: Key, body: string, p: nat, stamp: string)
    requires FindKey(key, body) == Some(p)
    ensures FindKey(key, StampFrom(body, p + |key|, stamp)) == Some(p)
  {
    var after := StampFrom(body, p + |key|, stamp);
    assert after[..p + |key|] == body[..p + |key|];
    KeyStays(key, body, after, p);
  }

  lemma {:induction false} TouchFound(key: Key, body: string, p: nat, stamp: string)
    requires FindKey(key, body) == Some(p)
    ensures Touch(key, body, stamp) == Some(StampFrom(body, p + |key|, stamp))
  {
  }

  /** Stamping twice is stamping with the second stamp. */
  lemma {:induction false} TouchTwice(key: Key, body: string, after: string, x: string, y: string)
    requires '\n' !in x && Touch(key, body, x) == Some(after)
    ensures Touch(key, after, y) == Touch(key, body, y)
  {
    var p := FindKey(key, body).value;
    FoundAgain(key, body, p, x);
    StampTwice(body, p + |key|, x, y);
    TouchFound(key, body, p, y);
    TouchFound(key, after, p, y);
  }

  /** Stamped again and again; a body without the key is left alone. */
  function TouchAll(key: Key, body: string, stamps: seq<Numeral>): string {
    if stamps == [] then body
    else
      var before := TouchAll(key, body, stamps[..|stamps| - 1]);
      match Touch(key, before, stamps[|stamps| - 1]) case None => before case Some(after) => after
  }

  lemma {:induction false} TouchNext(key: Key, body: string, stamps: seq<Numeral>, stamp: Numeral, after: string)
    requires Touch(key, TouchAll(key, body, stamps), stamp) == Some(after)
    ensures TouchAll(key, body, stamps + [stamp]) == after
  {
    assert (stamps + [stamp])[..|stamps|] == stamps;
  }

  lemma {:induction false} NextStampShows(key: Key, body: string, stamps: seq<Numeral>, stamp: Numeral)
    requires Keyed(key, body)
    requires stamps != [] ==> Touch(key, body, stamps[|stamps| - 1]) == Some(TouchAll(key, body, stamps))
    ensures Touch(key, TouchAll(key, body, stamps), stamp) == Touch(key, body, stamp)
  {
    if stamps != [] {
      NumberIsOneLine(stamps[|stamps| - 1]);
      TouchTwice(key, body, TouchAll(key, body, stamps), stamps[|stamps| - 1], stamp);
    }
  }

  /** However often it was stamped, only the last stamp shows. */
  lemma {:induction false} LastStampShows(key: Key, body: string, stamps: seq<Numeral>)
    requires Keyed(key, body) && stamps != []
    ensures Touch(key, body, stamps[|stamps| - 1]) == Some(TouchAll(key, body, stamps))
    decreases |stamps|
  {
    var n := |stamps| - 1;
    if n > 0 { LastStampShows(key, body, stamps[..n]); }
    NextStampShows(key, body, stamps[..n], stamps[n]);
  }

  /** Of two stamps one changes a value that holds the key. */
  lemma {:induction false} SomeStampShows(key: Key, v: string) returns (stamp: Numeral)
    requires Keyed(key, v)
    ensures Stamped(key, v, stamp) != v
  {
    var n := FindKey(key, v).value + |key|;
    assert Stamped(key, v, "0")[n] == '0' && Stamped(key, v, "1")[n] == '1';
    stamp := if Stamped(key, v, "0") == v then "1" else "0";
  }

  // ---------------------------------------------------------------------------------------------
  // What stamping does to fields
  // ---------------------------------------------------------------------------------------------

  /** A name that ends in the key's word. */
  ghost predicate KeyName(key: Key, name: string) {
    Keyed(key, name + "=")
  }

  lemma {:induction false} KeyInTail(key: Key, s: string, n: nat, p: nat)
    requires n <= p && At(key, s, p)
    ensures Keyed(key, s[n..])
  {
    assert s[n..][p - n..p - n + |key|] == s[p..p + |key|];
    assert At(key, s[n..], p - n);
  }

  /** Stamping keeps a line's name, and a line of another name holds the key in its value, before and after. */
  lemma {:induction false} StampedLine(key: Key, l: string, stamp: string)
    requires Keyed(key, l)
    ensures Keyed(key, Stamped(key, l, stamp)) && IndexOf(l, '=').Some? && IndexOf(Stamped(key, l, stamp), '=') == IndexOf(l, '=')
    ensures var eq := IndexOf(l, '=').value;
      Stamped(key, l, stamp)[..eq] == l[..eq] &&
      (!KeyName(key, l[..eq]) ==> Keyed(key, ValueOf(l)) && Keyed(key, ValueOf(Stamped(key, l, stamp))))
  {
    var p := FindKey(key, l).value;
    var start, l' := p + |key|, Stamped(key, l, stamp);
    KeyChar(key, l, p, start - 1);
    assert l[start - 1] == '=';
    var eq := IndexOf(l, '=').value;
    assert eq < start;
    assert l'[..start] == l[..start] && l'[..eq] == l[..eq] && l'[eq] == '=';
    IndexIs(l', '=', eq);
    assert l'[p..start] == l[p..start] && At(key, l', p);
    if p <= eq {
      KeyChar(key, l, p, eq);
      assert (l[..eq] + "=")[p..start] == l[p..start];
      assert At(key, l[..eq] + "=", p);
    } else {
      KeyInTail(key, l, eq + 1, p);
      KeyInTail(key, l', eq + 1, p);
    }
  }

  lemma {:induction false} StampKeepsLast(key: Key, rest: seq<string>, l: string, stamp: string, name: string, v: string)
    requires Keyed(key, l) && !KeyName(key, name) && !Keyed(key, v)
    ensures LookupOr(rest + [l], name) == v <==> LookupOr(rest + [Stamped(key, l, stamp)], name) == v
  {
    StampedLine(key, l, stamp);
    LookupNext(rest, l, name);
    LookupNext(rest, Stamped(key, l, stamp), name);
  }

  /** A field expected to be `v`, which does not hold the key, is `v` before stamping exactly if it is after. */
  lemma {:induction false} StampKeepsField(key: Key, lines: seq<string>, after: seq<string>, m: nat,
                                           stamp: string, name: string, v: string)
    requires StampsLine(key, lines, after, m, stamp) && !KeyName(key, name) && !Keyed(key, v)
    ensures LookupOr(lines, name) == v <==> LookupOr(after, name) == v
    decreases |lines|
  {
    var last := |lines| - 1;
    if m == last {
      StampKeepsLast(key, lines[..last], lines[last], stamp, name, v);
      assert lines[..last] + [lines[last]] == lines && lines[..last] + [after[last]] == after;
    } else {
      assert after[..last] == lines[..last][m := Stamped(key, lines[m], stamp)] && after[last] == lines[last];
      StampKeepsField(key, lines[..last], after[..last], m, stamp, name, v);
      assert lines[..last] + [lines[last]] == lines && after[..last] + [lines[last]] == after;
      LookupNext(lines[..last], lines[last], name);
      LookupNext(after[..last], lines[last], name);
    }
  }

  lemma {:induction false} KeyBeforeValue(key: Key, e: Entry, i: nat)
    requires '=' !in e.name && At(key, LineOf(e), i) && i <= |e.name|
    ensures KeyName(key, e.name)
  {
    var l, s := LineOf(e), e.name + "=";
    KeyChar(key, l, i, i + |key| - 1);
    if |e.name| < i + |key| { KeyChar(key, l, i, |e.name|); }
    assert i + |key| == |s|;
    assert s[i..i + |key|] == l[i..i + |key|];
    assert At(key, s, i);
  }

  lemma {:induction false} LineKeyed(key: Key, e: Entry)
    requires '=' !in e.name && !KeyName(key, e.name)
    ensures Keyed(key, LineOf(e)) <==> Keyed(key, e.value)
    ensures Keyed(key, e.value) ==> FindKey(key, LineOf(e)) == Some(|e.name| + 1 + FindKey(key, e.value).value)
  {
    forall i: nat | i < |e.name| + 1 ensures !At(key, LineOf(e), i) {
      if At(key, LineOf(e), i) { KeyBeforeValue(key, e, i); }
    }
    KeyMoved(key, e.name + "=", e.value, LineOf(e));
  }

  /** The entry with its value stamped. */
  function StampedEntry(key: Key, e: Entry, stamp: string): Entry
    requires Keyed(key, e.value)
  {
    Entry(e.name, Stamped(key, e.value, stamp))
  }

  lemma {:induction false} StampedLineOf(key: Key, e: Entry, stamp: string)
    requires '=' !in e.name && !KeyName(key, e.name) && Keyed(key, e.value)
    ensures Keyed(key, LineOf(e)) && Stamped(key, LineOf(e), stamp) == LineOf(StampedEntry(key, e, stamp))
  {
    LineKeyed(key, e);
  }

  lemma {:induction false} StampLineOf(key: Key, e: Entry, stamp: string)
    requires e.name + "=" == key
    ensures Keyed(key, LineOf(e)) && Stamped(key, LineOf(e), stamp) == LineOf(Entry(e.name, stamp))
  {
    var l := LineOf(e);
    assert l[0..|key|] == key && At(key, l, 0);
    FindsKeyAt(key, l, 0);
  }

  /** Only the last field's name is the key's word. */
  ghost predicate KeyLast(key: Key, es: seq<Entry>) {
    es != [] && es[|es| - 1].name + "=" == key &&
    forall k :: 0 <= k < |es| - 1 ==> '=' !in es[k].name && !KeyName(key, es[k].name)
  }

  /** From field `k` on, the first whose value holds the key, or the last field. */
  ghost function Carrier(key: Key, es: seq<Entry>, k: nat): (r: nat)
    requires k < |es|
    ensures k <= r < |es| && (r < |es| - 1 ==> Keyed(key, es[r].value)) && forall j :: k <= j < r ==> !Keyed(key, es[j].value)
    decreases |es| - k
  {
    if k == |es| - 1 || Keyed(key, es[k].value) then k else Carrier(key, es, k + 1)
  }

  lemma {:induction false} CarrierIs(key: Key, es: seq<Entry>, c: nat)
    requires c < |es| && (c < |es| - 1 ==> Keyed(key, es[c].value)) && forall j :: 0 <= j < c ==> !Keyed(key, es[j].value)
    ensures Carrier(key, es, 0) == c
  {
  }

  /** The fields once stamped: the carrier's value is. */
  ghost function StampedEntries(key: Key, es: seq<Entry>, stamp: string): (r: seq<Entry>)
    requires es != []
    ensures |r| == |es| && forall k :: 0 <= k < |es| && k != Carrier(key, es, 0) ==> r[k] == es[k]
  {
    var c := Carrier(key, es, 0);
    es[c := if c == |es| - 1 then Entry(es[c].name, stamp) else StampedEntry(key, es[c], stamp)]
  }

  lemma {:induction false} StampedDistinct(key: Key, es: seq<Entry>, stamp: string)
    requires es != [] && DistinctNames(es)
    ensures DistinctNames(StampedEntries(key, es, stamp))
  {
    var after := StampedEntries(key, es, stamp);
    assert forall k :: 0 <= k < |es| ==> after[k].name == es[k].name;
  }

  lemma {:induction false} CarrierIsFirst(key: Key, es: seq<Entry>, k: nat)
    requires KeyLast(key, es) && k < Carrier(key, es, 0)
    ensures !Keyed(key, LineOf(es[k]))
  {
    LineKeyed(key, es[k]);
  }

  lemma {:induction false} CarrierStamped(key: Key, es: seq<Entry>, stamp: string)
    requires KeyLast(key, es)
    ensures var c := Carrier(key, es, 0);
      Keyed(key, LineOf(es[c])) && Stamped(key, LineOf(es[c]), stamp) == LineOf(StampedEntries(key, es, stamp)[c])
  {
    var c := Carrier(key, es, 0);
    if c == |es| - 1 {
      StampLineOf(key, es[c], stamp);
    } else {
      StampedLineOf(key, es[c], stamp);
    }
  }

  /** The first keyed line of such fields is the carrier's. */
  lemma {:induction false} CarrierLine(key: Key, es: seq<Entry>, m: nat)
    requires KeyLast(key, es) && m < |es| && Keyed(key, LineOf(es[m])) && forall k :: 0 <= k < m ==> !Keyed(key, LineOf(es[k]))
    ensures m == Carrier(key, es, 0)
  {
    if m < Carrier(key, es, 0) { CarrierIsFirst(key, es, m); }
    CarrierStamped(key, es, "");
  }

  lemma {:induction false} StampsCarrier(key: Key, es: seq<Entry>, after: seq<string>, m: nat, stamp: string)
    requires KeyLast(key, es) && StampsLine(key, LinesOf(es), after, m, stamp)
    ensures after == LinesOf(StampedEntries(key, es, stamp))
  {
    assert forall k :: 0 <= k < m ==> LinesOf(es)[k] == LineOf(es[k]);
    CarrierLine(key, es, m);
    CarrierStamped(key, es, stamp);
  }

  /** A text with a keyed line is keyed. */
  lemma {:induction false} KeyedLine(key: Key, body: string, m: nat)
    requires m < |Lines(body)| && Keyed(key, Lines(body)[m])
    ensures Keyed(key, body)
    decreases |body|
  {
    match IndexOf(body, '\n')
    case None =>
    case Some(k) =>
      var first, rest := body[..k], body[k + 1..];
      assert body == first + "\n" + rest;
      if Keyed(key, first) {
        KeyInFirst(key, first, rest);
      } else {
        KeyedLine(key, rest, m - 1);
        KeyInRest(key, first, rest);
      }
  }

  /** Stamping a text of such fields stamps the carrier. */
  lemma {:induction false} TouchEntries(key: Key, es: seq<Entry>, body: string, stamp: Numeral)
    requires KeyLast(key, es) && Lines(body) == LinesOf(es)
    ensures Keyed(key, body) && Lines(Touch(key, body, stamp).value) == LinesOf(StampedEntries(key, es, stamp))
  {
    CarrierStamped(key, es, stamp);
    KeyedLine(key, body, Carrier(key, es, 0));
    NumberIsOneLine(stamp);
    var m := TouchIsOneLine(key, body, stamp);
    StampsCarrier(key, es, Lines(Touch(key, body, stamp).value), m, stamp);
  }
}
