/**
 The text of a manifest in src/vgi_database_worker.cpp as lines of names and values: how it is parsed
 and what a written one says.
 */
module MetaText {
  import opened Options
  import opened Basics

  function IndexOf(s: string, c: char): (r: Option<nat>)
    ensures r.Some? ==> r.value < |s| && s[r.value] == c && c !in s[..r.value]
    ensures r.None? ==> c !in s
  {
    if s == "" then None
    else if s[0] == c then Some(0)
    else match IndexOf(s[1..], c) case None => None case Some(k) => Some(k + 1)
  }

  lemma {:induction false} IndexIs(s: string, c: char, k: nat)
    requires k < |s| && s[k] == c && c !in s[..k]
    ensures IndexOf(s, c) == Some(k)
  {
    assert c in s;
  }

  // ---------------------------------------------------------------------------------------------
  // Lines and fields
  // ---------------------------------------------------------------------------------------------

  function FirstLine(s: string): string {
    match IndexOf(s, '\n') case None => s case Some(k) => s[..k]
  }

  /** How far the first line and its end reach. */
  function FirstEnd(s: string): (r: nat)
    requires s != ""
    ensures 0 < r <= |s|
  {
    match IndexOf(s, '\n') case None => |s| case Some(k) => k + 1
  }

  function Lines(s: string): seq<string>
    decreases |s|
  {
    if s == "" then [] else [FirstLine(s)] + Lines(s[FirstEnd(s)..])
  }

  lemma {:induction false} LinesOfTerminated(l: string, rest: string)
    requires '\n' !in l
    ensures Lines(l + "\n" + rest) == [l] + Lines(rest)
  {
    var s := l + "\n" + rest;
    assert s[..|l|] == l && s[|l| + 1..] == rest;
    IndexIs(s, '\n', |l|);
  }

  lemma {:induction false} OneLine(l: string)
    requires l != "" && '\n' !in l
    ensures Lines(l) == [l]
  {
  }

  predicate Named(l: string, name: string) {
    IndexOf(l, '=').Some? && l[..IndexOf(l, '=').value] == name
  }

  function ValueOf(l: string): string
    requires IndexOf(l, '=').Some?
  {
    l[IndexOf(l, '=').value + 1..]
  }

  /** The value of the last line with that name. */
  function Lookup(lines: seq<string>, name: string): Option<string> {
    if lines == [] then None else
      var l := lines[|lines| - 1];
      if Named(l, name) then Some(ValueOf(l)) else Lookup(lines[..|lines| - 1], name)
  }

  lemma {:induction false} LookupNext(lines: seq<string>, l: string, name: string)
    ensures Lookup(lines + [l], name) == if Named(l, name) then Some(ValueOf(l)) else Lookup(lines, name)
  {
    assert (lines + [l])[..|lines|] == lines;
  }

  /** Reading a field that is not there gives the empty string. */
  function LookupOr(lines: seq<string>, name: string): string {
    match Lookup(lines, name) case None => "" case Some(value) => value
  }

  function Field(body: string, name: string): string {
    LookupOr(Lines(body), name)
  }

  ghost predicate Holds(out: map<string, string>, lines: seq<string>) {
    forall name :: Lookup(lines, name) == if name in out then Some(out[name]) else None
  }

  lemma {:induction false} HoldsNext(out: map<string, string>, lines: seq<string>, l: string)
    requires Holds(out, lines)
    ensures Holds(if IndexOf(l, '=').None? then out else out[l[..IndexOf(l, '=').value] := ValueOf(l)], lines + [l])
  {
    forall name ensures Lookup(lines + [l], name) == if Named(l, name) then Some(ValueOf(l)) else Lookup(lines, name) {
      LookupNext(lines, l, name);
    }
  }

  lemma {:induction false} NextLine(contents: string, pos: nat, next: nat)
    requires pos < |contents| && next == pos + FirstEnd(contents[pos..])
    ensures Lines(contents[pos..]) == [FirstLine(contents[pos..])] + Lines(contents[next..])
  {
    assert contents[pos..][next - pos..] == contents[next..];
  }

  lemma {:induction false} NextDone(contents: string, pos: nat, next: nat, done: seq<string>)
    requires pos < |contents| && next == pos + FirstEnd(contents[pos..])
    requires Lines(contents) == done + Lines(contents[pos..])
    ensures Lines(contents) == done + [FirstLine(contents[pos..])] + Lines(contents[next..])
  {
    NextLine(contents, pos, next);
    Associates(done, [FirstLine(contents[pos..])], Lines(contents[next..]));
  }

  /** The parsed map holds, for every name, the value of the last line that has it. */
  method ParseMeta(contents: string) returns (out: map<string, string>)
    ensures forall name :: Lookup(Lines(contents), name) == if name in out then Some(out[name]) else None
  {
    out := map[];
    var pos := 0;
    ghost var done: seq<string> := [];
    assert contents[0..] == contents;
    while pos < |contents|
      invariant pos <= |contents| && Lines(contents) == done + Lines(contents[pos..])
      invariant Holds(out, done)
    {
      var end := IndexOf(contents[pos..], '\n');
      var line := if end.None? then contents[pos..] else contents[pos..][..end.value];
      var eq := IndexOf(line, '=');
      HoldsNext(out, done, line);
      if eq.Some? {
        out := out[line[..eq.value] := line[eq.value + 1..]];
      }
      var next := if end.None? then |contents| else pos + end.value + 1;
      NextDone(contents, pos, next, done);
      done, pos := done + [line], next;
    }
    assert contents[pos..] == "" && done + [] == done;
  }

  // ---------------------------------------------------------------------------------------------
  // Writing fields
  // ---------------------------------------------------------------------------------------------

  datatype Entry = Entry(name: string, value: string)

  function LineOf(e: Entry): string {
    e.name + "=" + e.value
  }

  function LinesOf(es: seq<Entry>): seq<string> {
    seq(|es|, i requires 0 <= i < |es| => LineOf(es[i]))
  }

  function Render(es: seq<Entry>): string {
    if es == [] then "" else LineOf(es[0]) + "\n" + Render(es[1..])
  }

  predicate Plain(e: Entry) {
    '=' !in e.name && '\n' !in e.name && '\n' !in e.value
  }

  lemma {:induction false} LinesOfRender(es: seq<Entry>)
    requires forall k :: 0 <= k < |es| ==> Plain(es[k])
    ensures Lines(Render(es)) == LinesOf(es)
  {
    if es != [] {
      assert Plain(es[0]);
      LinesOfTerminated(LineOf(es[0]), Render(es[1..]));
      LinesOfRender(es[1..]);
      assert LinesOf(es) == [LineOf(es[0])] + LinesOf(es[1..]);
    }
  }

  lemma {:induction false} LineSplits(e: Entry)
    requires '=' !in e.name
    ensures IndexOf(LineOf(e), '=') == Some(|e.name|)
    ensures Named(LineOf(e), e.name) && ValueOf(LineOf(e)) == e.value
    ensures forall name :: Named(LineOf(e), name) <==> name == e.name
  {
    var l := LineOf(e);
    assert l[..|e.name|] == e.name && l[|e.name| + 1..] == e.value;
    IndexIs(l, '=', |e.name|);
  }

  predicate DistinctNames(es: seq<Entry>) {
    (forall k :: 0 <= k < |es| ==> '=' !in es[k].name) &&
    forall j, k :: 0 <= j < k < |es| ==> es[j].name != es[k].name
  }

  lemma {:induction false} LookupEntry(es: seq<Entry>, k: nat)
    requires DistinctNames(es) && k < |es|
    ensures Lookup(LinesOf(es), es[k].name) == Some(es[k].value)
    decreases |es|
  {
    var last := |es| - 1;
    LineSplits(es[last]);
    assert LinesOf(es) == LinesOf(es[..last]) + [LineOf(es[last])];
    LookupNext(LinesOf(es[..last]), LineOf(es[last]), es[k].name);
    if k < last { LookupEntry(es[..last], k); }
  }

  /** Field by field, what a rendered text says. */
  lemma {:induction false} FieldOfLines(es: seq<Entry>, body: string, k: nat)
    requires DistinctNames(es) && Lines(body) == LinesOf(es) && k < |es|
    ensures Field(body, es[k].name) == es[k].value
  {
    LookupEntry(es, k);
  }
}
