/**
 The container run command (`ShellQuote` and `BuildContainerRunCommandTemplate` in
 src/vgi_container_runtime.cpp), and how a POSIX shell reads it back: quoting and token recognition as
 in sections 2.2 and 2.3 of the POSIX Shell Command Language. Text that would need expansion, an
 operator, a comment or a double-quoted string has no reading here.
 */
module ContainerCommand {
  import opened Basics
  import opened Options

  // ---------------------------------------------------------------------------------------------
  // The shell's reading
  // ---------------------------------------------------------------------------------------------

  predicate Blank(c: char) {
    c == ' ' || c == '\t'
  }

  /** Characters that may have a meaning of their own when not quoted. */
  predicate Special(c: char) {
    c == '|' || c == '&' || c == ';' || c == '<' || c == '>' || c == '(' || c == ')' || c == '$' || c == '`' ||
    c == '\\' || c == '"' || c == '\'' || c == '\n' || c == '*' || c == '?' || c == '[' || c == '#' || c == '~' ||
    c == '=' || c == '%' || c == '\0'
  }

  predicate Plain(c: char) {
    !Blank(c) && !Special(c)
  }

  /** Between words, inside a word, or inside single quotes within a word. */
  datatype Mode = Between | Word(text: string) | Quoted(text: string)

  /** The words of `s`, read on from `mode`. */
  function Scan(s: string, mode: Mode): Option<seq<string>>
    decreases |s|
  {
    match mode
    case Quoted(text) =>
      if s == [] || s[0] == '\0' then None
      else if s[0] == '\'' then Scan(s[1..], Word(text))
      else Scan(s[1..], Quoted(text + [s[0]]))
    case Word(text) =>
      if s == [] then Some([text])
      else if Blank(s[0]) then Before(text, Scan(s[1..], Between))
      else ScanWord(s, text)
    case Between =>
      if s == [] then Some([])
      else if Blank(s[0]) then Scan(s[1..], Between)
      else ScanWord(s, "")
  }

  /** The next character of a word that reads `text` so far. */
  function ScanWord(s: string, text: string): Option<seq<string>>
    requires s != [] && !Blank(s[0])
    decreases |s|, 0
  {
    if s[0] == '\'' then Scan(s[1..], Quoted(text))
    else if s[0] == '\\' then
      if |s| < 2 || s[1] == '\n' || s[1] == '\0' then None else Scan(s[2..], Word(text + [s[1]]))
    else if Plain(s[0]) then Scan(s[1..], Word(text + [s[0]]))
    else None
  }

  function Before(w: string, rest: Option<seq<string>>): Option<seq<string>> {
    if rest.None? then None else Some([w] + rest.value)
  }

  function Tokenize(s: string): Option<seq<string>> {
    Scan(s, Between)
  }

  // ---------------------------------------------------------------------------------------------
  // Quoting
  // ---------------------------------------------------------------------------------------------

  predicate NoNul(s: string) {
    forall i :: 0 <= i < |s| ==> s[i] != '\0'
  }

  /** A single quote leaves the quotes, is escaped, and enters them again. */
  function Escaped(s: string): string {
    if s == [] then [] else Escaped(s[..|s| - 1]) + if s[|s| - 1] == '\'' then "'\\''" else [s[|s| - 1]]
  }

  method ShellQuote(s: string) returns (r: string)
    ensures r == "'" + Escaped(s) + "'"
  {
    var out := "'";
    for i := 0 to |s|
      invariant out == "'" + Escaped(s[..i])
    {
      assert s[..i + 1][..i] == s[..i];
      if s[i] == '\'' {
        out := out + "'\\''";
      } else {
        out := out + [s[i]];
      }
    }
    assert s[..|s|] == s;
    r := out + "'";
  }

  lemma {:induction false} EscapedFront(s: string)
    requires s != []
    ensures Escaped(s) == (if s[0] == '\'' then "'\\''" else [s[0]]) + Escaped(s[1..])
  {
    var n := |s| - 1;
    if n > 0 {
      EscapedFront(s[..n]);
      assert s[..n][1..] == s[1..][..n - 1];
    }
  }

  lemma {:induction false} ScanQuote(text: string, rest: string)
    ensures Scan("'\\''" + rest, Quoted(text)) == Scan(rest, Quoted(text + "'"))
  {
    var s, t, u := "'\\''" + rest, "\\''" + rest, "'" + rest;
    assert s[1..] == t && t[2..] == u && u[1..] == rest && [t[1]] == "'";
    assert Scan(s, Quoted(text)) == Scan(t, Word(text));
    assert Scan(t, Word(text)) == ScanWord(t, text) == Scan(u, Word(text + "'"));
    assert Scan(u, Word(text + "'")) == ScanWord(u, text + "'");
  }

  lemma {:induction false} ScanPlainQuoted(c: char, text: string, rest: string)
    requires c != '\'' && c != '\0'
    ensures Scan([c] + rest, Quoted(text)) == Scan(rest, Quoted(text + [c]))
  {
    assert ([c] + rest)[1..] == rest;
  }

  lemma {:induction false} ScanEscaped(s: string, text: string, rest: string)
    requires NoNul(s)
    ensures Scan(Escaped(s) + rest, Quoted(text)) == Scan(rest, Quoted(text + s))
    decreases |s|
  {
    if s == [] {
      assert Escaped(s) + rest == rest && text + s == text;
    } else {
      EscapedFront(s);
      ScanEscaped(s[1..], text + [s[0]], rest);
      assert text + [s[0]] + s[1..] == text + s;
      if s[0] == '\'' {
        Associates("'\\''", Escaped(s[1..]), rest);
        ScanQuote(text, Escaped(s[1..]) + rest);
        assert [s[0]] == "'";
      } else {
        Associates([s[0]], Escaped(s[1..]), rest);
        ScanPlainQuoted(s[0], text, Escaped(s[1..]) + rest);
      }
    }
  }

  /** What was quoted is read back as it was, whatever it contains. */
  lemma {:induction false} QuotedReads(s: string, rest: string)
    requires NoNul(s)
    ensures Scan("'" + Escaped(s) + "'" + rest, Between) == Scan(rest, Word(s))
  {
    var whole := "'" + Escaped(s) + "'" + rest;
    assert whole[1..] == Escaped(s) + ("'" + rest);
    ScanEscaped(s, "", "'" + rest);
    assert "" + s == s;
    assert ("'" + rest)[1..] == rest;
  }

  lemma {:induction false} PlainReads(w: string, text: string, rest: string)
    requires forall i :: 0 <= i < |w| ==> Plain(w[i])
    ensures Scan(w + rest, Word(text)) == Scan(rest, Word(text + w))
    decreases |w|
  {
    if w == [] {
      assert w + rest == rest && text + w == text;
    } else {
      assert (w + rest)[1..] == w[1..] + rest;
      PlainReads(w[1..], text + [w[0]], rest);
      assert text + [w[0]] + w[1..] == text + w;
    }
  }

  // ---------------------------------------------------------------------------------------------
  // The command
  // ---------------------------------------------------------------------------------------------

  /** A word of the command, as it is written: bare or quoted. */
  datatype Piece = Bare(word: string) | Quote(word: string)

  predicate Readable(p: Piece) {
    match p
    case Bare(w) => w != [] && forall i :: 0 <= i < |w| ==> Plain(w[i])
    case Quote(w) => NoNul(w)
  }

  function Written(p: Piece): string {
    match p
    case Bare(w) => w
    case Quote(w) => "'" + Escaped(w) + "'"
  }

  lemma {:induction false} PieceReads(p: Piece, rest: string)
    requires Readable(p)
    ensures Scan(Written(p) + rest, Between) == Scan(rest, Word(p.word))
  {
    match p
    case Quote(w) => QuotedReads(w, rest);
    case Bare(w) =>
      var s := w + rest;
      assert s[1..] == w[1..] + rest && "" + [w[0]] == [w[0]];
      assert Scan(s, Between) == ScanWord(s, "") == Scan(w[1..] + rest, Word([w[0]]));
      PlainReads(w[1..], [w[0]], rest);
      assert [w[0]] + w[1..] == w;
  }

  function Prepend(ws: seq<string>, rest: Option<seq<string>>): Option<seq<string>> {
    if rest.None? then None else Some(ws + rest.value)
  }

  /** Reading `cmd`, one has read `words` and is still in the last, whatever comes after. */
  ghost predicate ReadSoFar(cmd: string, words: seq<string>) {
    words != [] &&
    forall rest :: Scan(cmd + rest, Between) == Prepend(words[..|words| - 1], Scan(rest, Word(words[|words| - 1])))
  }

  lemma {:induction false} FirstPiece(p: Piece)
    requires Readable(p)
    ensures ReadSoFar(Written(p), [p.word])
  {
    forall rest ensures Scan(Written(p) + rest, Between) == Prepend([p.word][..0], Scan(rest, Word(p.word))) {
      PieceReads(p, rest);
      var read := Scan(rest, Word(p.word));
      assert read.Some? ==> [p.word][..0] + read.value == read.value;
    }
  }

  lemma {:induction false} SpaceReads(tail: string, text: string)
    ensures Scan(" " + tail, Word(text)) == Prepend([text], Scan(tail, Between))
  {
    assert (" " + tail)[1..] == tail;
  }

  lemma {:induction false} PrependTwice(a: seq<string>, b: seq<string>, rest: Option<seq<string>>)
    ensures Prepend(a, Prepend(b, rest)) == Prepend(a + b, rest)
  {
    if rest.Some? { assert a + (b + rest.value) == (a + b) + rest.value; }
  }

  /** One more piece after a space is one more word. */
  lemma {:induction false} NextPiece(cmd: string, words: seq<string>, p: Piece)
    requires ReadSoFar(cmd, words) && Readable(p)
    ensures ReadSoFar(cmd + " " + Written(p), words + [p.word])
  {
    var most, last := words[..|words| - 1], words[|words| - 1];
    assert most + [last] == words && (words + [p.word])[..|words|] == words;
    forall rest ensures Scan(cmd + " " + Written(p) + rest, Between) == Prepend(words, Scan(rest, Word(p.word))) {
      var tail := Written(p) + rest;
      Regroup(cmd, " ", Written(p), rest);
      assert Scan(cmd + (" " + tail), Between) == Prepend(most, Scan(" " + tail, Word(last)));
      SpaceReads(tail, last);
      PieceReads(p, rest);
      PrependTwice(most, [last], Scan(rest, Word(p.word)));
    }
  }

  lemma {:induction false} Regroup(a: string, b: string, c: string, d: string)
    ensures a + b + c + d == a + (b + (c + d))
  {
  }

  lemma {:induction false} ReadAll(cmd: string, words: seq<string>)
    requires ReadSoFar(cmd, words)
    ensures Tokenize(cmd) == Some(words)
  {
    assert cmd + "" == cmd && words[..|words| - 1] + [words[|words| - 1]] == words;
  }

  datatype Volume = Volume(host: string, path: string)

  datatype Spec = Spec(
    binary: string, volumes: seq<Volume>, env: seq<string>, extraArgs: seq<string>, image: string, transport: string)

  const NAME_PLACEHOLDER := "__VGI_CONTAINER_NAME__"
  const WORKER_LABEL := "farm.query.vgi.worker=1"

  /** The strings come from outside; the transport from a fixed vocabulary of plain words. */
  predicate SpecOk(s: Spec) {
    NoNul(s.binary) && NoNul(s.image) && Readable(Bare(s.transport)) &&
    (forall i :: 0 <= i < |s.volumes| ==> NoNul(s.volumes[i].host) && NoNul(s.volumes[i].path)) &&
    (forall i :: 0 <= i < |s.env| ==> NoNul(s.env[i])) &&
    forall i :: 0 <= i < |s.extraArgs| ==> NoNul(s.extraArgs[i])
  }

  function VolumeArgs(vs: seq<Volume>): seq<string> {
    if vs == [] then []
    else VolumeArgs(vs[..|vs| - 1]) + ["-v", vs[|vs| - 1].host + ":" + vs[|vs| - 1].path]
  }

  function EnvArgs(es: seq<string>): seq<string> {
    if es == [] then [] else EnvArgs(es[..|es| - 1]) + ["-e", es[|es| - 1]]
  }

  function HeadArguments(s: Spec): seq<string> {
    [s.binary, "run", "-i", "--rm", "--name", NAME_PLACEHOLDER, "--label", WORKER_LABEL]
  }

  /** The argument list the command is meant to have. */
  function Arguments(s: Spec): seq<string> {
    HeadArguments(s) + VolumeArgs(s.volumes) + EnvArgs(s.env) + s.extraArgs + [s.image, s.transport]
  }

  predicate AllPlain(w: string) {
    forall i :: 0 <= i < |w| ==> Plain(w[i])
  }

  lemma {:induction false} PlainFlags()
    ensures AllPlain("run") && AllPlain("-i") && AllPlain("--rm") && AllPlain("-v") && AllPlain("-e")
  {
  }

  lemma {:induction false} PlainNames()
    ensures AllPlain("--name") && AllPlain("--label")
  {
  }

  lemma {:induction false} PlainPlaceholder()
    ensures AllPlain(NAME_PLACEHOLDER)
  {
    var a, b, c := "__VGI_CON", "TAINER_", "NAME__";
    assert AllPlain(a) && AllPlain(b) && AllPlain(c);
    assert NAME_PLACEHOLDER == a + b + c;
  }

  /** ` <word>` for a word that needs no quotes. */
  method WriteBare(cmd: string, ghost words: seq<string>, word: string) returns (r: string)
    requires ReadSoFar(cmd, words) && word != [] && AllPlain(word)
    ensures ReadSoFar(r, words + [word])
  {
    NextPiece(cmd, words, Bare(word));
    r := cmd + " " + word;
  }

  /** ` '<word>'`. */
  method WriteQuoted(cmd: string, ghost words: seq<string>, word: string) returns (r: string)
    requires ReadSoFar(cmd, words) && NoNul(word)
    ensures ReadSoFar(r, words + [word])
  {
    var quoted := ShellQuote(word);
    NextPiece(cmd, words, Quote(word));
    r := cmd + " " + quoted;
  }

  /** The fixed part: binary, verb, flags, name and label. */
  method WriteHead(s: Spec) returns (cmd: string)
    requires SpecOk(s)
    ensures ReadSoFar(cmd, HeadArguments(s))
  {
    PlainFlags();
    PlainNames();
    PlainPlaceholder();
    cmd := ShellQuote(s.binary);
    FirstPiece(Quote(s.binary));
    ghost var words := [s.binary];
    cmd := WriteBare(cmd, words, "run");
    cmd := WriteBare(cmd, words + ["run"], "-i");
    cmd := WriteBare(cmd, words + ["run"] + ["-i"], "--rm");
    words := words + ["run"] + ["-i"] + ["--rm"];
    cmd := WriteBare(cmd, words, "--name");
    cmd := WriteBare(cmd, words + ["--name"], NAME_PLACEHOLDER);
    words := words + ["--name"] + [NAME_PLACEHOLDER];
    cmd := WriteBare(cmd, words, "--label");
    cmd := WriteQuoted(cmd, words + ["--label"], WORKER_LABEL);
    assert words + ["--label"] + [WORKER_LABEL] == HeadArguments(s);
  }

  lemma {:induction false} AddsPair(words: seq<string>, more: seq<string>, flag: string, w: string)
    ensures (words + more) + [flag] + [w] == words + (more + [flag, w])
  {
  }

  method WriteVolumes(cmd: string, ghost words: seq<string>, s: Spec) returns (r: string)
    requires SpecOk(s) && ReadSoFar(cmd, words)
    ensures ReadSoFar(r, words + VolumeArgs(s.volumes))
  {
    PlainFlags();
    r := cmd;
    assert words + VolumeArgs(s.volumes[..0]) == words;
    for i := 0 to |s.volumes|
      invariant ReadSoFar(r, words + VolumeArgs(s.volumes[..i]))
    {
      var volume := s.volumes[i].host + ":" + s.volumes[i].path;
      ghost var done := words + VolumeArgs(s.volumes[..i]);
      r := WriteBare(r, done, "-v");
      r := WriteQuoted(r, done + ["-v"], volume);
      AddsPair(words, VolumeArgs(s.volumes[..i]), "-v", volume);
      assert s.volumes[..i + 1][..i] == s.volumes[..i];
    }
    assert s.volumes[..|s.volumes|] == s.volumes;
  }

  method WriteEnv(cmd: string, ghost words: seq<string>, s: Spec) returns (r: string)
    requires SpecOk(s) && ReadSoFar(cmd, words)
    ensures ReadSoFar(r, words + EnvArgs(s.env))
  {
    PlainFlags();
    r := cmd;
    assert words + EnvArgs(s.env[..0]) == words;
    for i := 0 to |s.env|
      invariant ReadSoFar(r, words + EnvArgs(s.env[..i]))
    {
      ghost var done := words + EnvArgs(s.env[..i]);
      r := WriteBare(r, done, "-e");
      r := WriteQuoted(r, done + ["-e"], s.env[i]);
      AddsPair(words, EnvArgs(s.env[..i]), "-e", s.env[i]);
      assert s.env[..i + 1][..i] == s.env[..i];
    }
    assert s.env[..|s.env|] == s.env;
  }

  method WriteExtra(cmd: string, ghost words: seq<string>, s: Spec) returns (r: string)
    requires SpecOk(s) && ReadSoFar(cmd, words)
    ensures ReadSoFar(r, words + s.extraArgs)
  {
    r := cmd;
    assert words + s.extraArgs[..0] == words;
    for i := 0 to |s.extraArgs|
      invariant ReadSoFar(r, words + s.extraArgs[..i])
    {
      r := WriteQuoted(r, words + s.extraArgs[..i], s.extraArgs[i]);
      assert words + s.extraArgs[..i] + [s.extraArgs[i]] == words + s.extraArgs[..i + 1];
    }
    assert s.extraArgs[..|s.extraArgs|] == s.extraArgs;
  }

  /** For all strings without NUL, the shell reads the command as exactly the intended arguments. */
  method BuildContainerRunCommandTemplate(s: Spec) returns (cmd: string)
    requires SpecOk(s)
    ensures Tokenize(cmd) == Some(Arguments(s))
  {
    cmd := WriteHead(s);
    ghost var words := HeadArguments(s);
    cmd := WriteVolumes(cmd, words, s);
    words := words + VolumeArgs(s.volumes);
    cmd := WriteEnv(cmd, words, s);
    words := words + EnvArgs(s.env);
    cmd := WriteExtra(cmd, words, s);
    words := words + s.extraArgs;
    cmd := WriteQuoted(cmd, words, s.image);
    cmd := WriteBare(cmd, words + [s.image], s.transport);
    ReadAll(cmd, words + [s.image] + [s.transport]);
    assert words + [s.image] + [s.transport] == Arguments(s);
  }
}
