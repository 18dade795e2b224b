/**
 The salt file that processes sharing a cache directory agree on (`ReadSaltFile` and
 `LoadOrCreateDirSalt` in src/vgi_attach_credentials.cpp): write a private temporary file, hard-link
 it into place, read back whatever is there. Every filesystem operation is a step, steps of any number
 of calls interleave, and a process may crash between any two of them.
 */
module DirSalt {
  import opened Options

  // ---------------------------------------------------------------------------------------------
  // Reading a salt
  // ---------------------------------------------------------------------------------------------

  predicate HexDigit(c: char) {
    ('0' <= c <= '9') || ('a' <= c <= 'f')
  }

  predicate IsSaltHex(s: string) {
    |s| == 64 && forall i :: 0 <= i < |s| ==> HexDigit(s[i])
  }

  predicate Trailing(c: char) {
    c == '\n' || c == '\r' || c == ' '
  }

  /** `r` is `body` without the trailing line ends and blanks. */
  predicate IsTrimmed(body: string, r: string) {
    r <= body && (r != [] ==> !Trailing(r[|r| - 1])) && forall i :: |r| <= i < |body| ==> Trailing(body[i])
  }

  function Trim(body: string): (r: string)
    ensures IsTrimmed(body, r)
  {
    if body != [] && Trailing(body[|body| - 1]) then Trim(body[..|body| - 1]) else body
  }

  /** The salt a file body holds. */
  function Parse(body: string): Option<string> {
    if IsSaltHex(Trim(body)) then Some(Trim(body)) else None
  }

  method ReadSalt(file: string) returns (r: Option<string>)
    ensures r == Parse(file)
  {
    var body := file;
    while body != [] && Trailing(body[|body| - 1])
      invariant Trim(body) == Trim(file)
      decreases |body|
    {
      body := body[..|body| - 1];
    }
    if IsSaltHex(body) { return Some(body); }
    return None;
  }

  /** What is written for a salt is read back as it. */
  lemma {:induction false} ParseWritten(salt: string)
    requires IsSaltHex(salt)
    ensures Parse(salt + "\n") == Some(salt)
  {
    var body := salt + "\n";
    assert HexDigit(salt[63]) && Trim(salt) == salt;
    assert body[|body| - 1] == '\n' && body[..|body| - 1] == salt;
  }

  // ---------------------------------------------------------------------------------------------
  // The protocol
  // ---------------------------------------------------------------------------------------------

  /** Where a call is. A temporary file is known by its inode; its name is random, hence its own. */
  datatype Pc =
    | FirstRead
    | CreateTmp
    | Writing(tmp: nat)
    | Linking(tmp: nat)
    | CheckExists(tmp: nat)
    | Renaming(tmp: nat)
    | ReadBack

  datatype State = State(
    hardLinks: bool,
    placed: Option<nat>,            // the inode that attach_option_key.salt names
    files: map<nat, string>,        // every inode ever created
    owner: map<nat, nat>,           // history: the call that created each temporary file
    pcs: map<nat, Pc>,
    returned: seq<string>           // history: the salts successful calls returned
  )

  function InPlace(s: State): Option<string> {
    if s.placed.Some? && s.placed.value in s.files then Parse(s.files[s.placed.value]) else None
  }

  function At(s: State, p: nat, pc: Pc): State {
    s.(pcs := s.pcs[p := pc])
  }

  function Returns(s: State, p: nat, r: Option<string>): State {
    s.(pcs := s.pcs - {p}, returned := if r.Some? then s.returned + [r.value] else s.returned)
  }

  datatype Event =
    | Call(p: nat)
    | Step(p: nat)
    | Create(p: nat, tmp: nat)
    | Write(p: nat, body: string)     // what reaches the file; possibly cut short
    | Fail(p: nat)                    // the temporary file cannot be created, written or renamed
    | Crash(p: nat)

  /** `body` is the start of a salt and its line end. */
  ghost predicate Written(body: string) {
    exists salt :: IsSaltHex(salt) && body <= salt + "\n"
  }

  ghost predicate Takes(s: State, e: Event, t: State) {
    match e
    case Call(p) => p !in s.pcs && t == At(s, p, FirstRead)
    case Step(p) => p in s.pcs && Stepped(s, p, t)
    case Create(p, n) =>
      p in s.pcs && s.pcs[p].CreateTmp? && n !in s.files &&
      t == At(s, p, Writing(n)).(files := s.files[n := ""], owner := s.owner[n := p])
    case Write(p, body) =>
      p in s.pcs && s.pcs[p].Writing? && Written(body) &&
      t == At(s, p, Linking(s.pcs[p].tmp)).(files := s.files[s.pcs[p].tmp := body])
    case Fail(p) =>
      p in s.pcs &&
      (((s.pcs[p].CreateTmp? || s.pcs[p].Writing?) && t == Returns(s, p, None)) ||
       (s.pcs[p].Renaming? && t == At(s, p, ReadBack)))
    case Crash(p) => p in s.pcs && t == s.(pcs := s.pcs - {p})
  }

  predicate Stepped(s: State, p: nat, t: State)
    requires p in s.pcs
  {
    match s.pcs[p]
    case FirstRead => t == if InPlace(s).Some? then Returns(s, p, InPlace(s)) else At(s, p, CreateTmp)
    case Linking(n) =>
      // Without hard links, or with a file already in place, linking fails.
      t == if s.hardLinks && s.placed.None? then At(s, p, ReadBack).(placed := Some(n)) else At(s, p, CheckExists(n))
    case CheckExists(n) => t == At(s, p, if s.placed.None? then Renaming(n) else ReadBack)
    case Renaming(n) => t == At(s, p, ReadBack).(placed := Some(n))
    case ReadBack => t == Returns(s, p, InPlace(s))
    case _ => false
  }

  /** Nobody is in a call; what is in place, if anything, is arbitrary. */
  predicate Init(s: State) {
    s.pcs == map[] && s.returned == [] && (s.placed.Some? ==> s.placed.value in s.files)
  }

  // ---------------------------------------------------------------------------------------------
  // With hard links, or with a file in place
  // ---------------------------------------------------------------------------------------------

  /** What a directory must offer before the first call: hard links, or a salt file already. */
  predicate Settled(s: State) {
    s.hardLinks || s.placed.Some?
  }

  /** Still has its temporary file to itself. */
  predicate Busy(pc: Pc) {
    pc.Writing? || pc.Linking? || pc.CheckExists? || pc.Renaming?
  }

  /** A temporary file belongs to one call, which is done writing before it is in place; nobody gets to the fallback. */
  ghost predicate Inv(s: State) {
    Settled(s) && (s.placed.Some? ==> s.placed.value in s.files) &&
    (forall p :: p in s.pcs && Busy(s.pcs[p]) ==>
       s.pcs[p].tmp in s.files && s.pcs[p].tmp in s.owner && s.owner[s.pcs[p].tmp] == p &&
       s.placed != Some(s.pcs[p].tmp)) &&
    (forall p :: p in s.pcs && (s.pcs[p].CheckExists? || s.pcs[p].ReadBack?) ==> s.placed.Some?) &&
    (forall p :: p in s.pcs ==> !s.pcs[p].Renaming?)
  }

  lemma {:induction false} CreateKeeps(s: State, p: nat, n: nat, t: State)
    requires Inv(s) && Takes(s, Create(p, n), t)
    ensures Inv(t)
  {
  }

  lemma {:induction false} PlaceKeeps(s: State, p: nat, t: State)
    requires Inv(s) && Takes(s, Step(p), t) && t.placed != s.placed
    ensures Inv(t)
  {
    forall q | q in t.pcs && Busy(t.pcs[q]) ensures t.placed != Some(t.pcs[q].tmp) {
      assert q != p && t.pcs[q] == s.pcs[q];
    }
  }

  lemma {:induction false} StepKeeps(s: State, p: nat, t: State)
    requires Inv(s) && Takes(s, Step(p), t)
    ensures Inv(t)
  {
    if t.placed != s.placed { PlaceKeeps(s, p, t); }
  }

  lemma {:induction false} TakesKeeps(s: State, e: Event, t: State)
    requires Inv(s) && Takes(s, e, t)
    ensures Inv(t)
  {
    match e
    case Create(p, n) => CreateKeeps(s, p, n, t);
    case Step(p) => StepKeeps(s, p, t);
    case _ =>
  }

  /** What is in place stays in place, unchanged; and returned salts are read from it. */
  lemma {:induction false} PlacedStays(s: State, e: Event, t: State)
    requires Inv(s) && Takes(s, e, t)
    ensures s.placed.Some? ==> t.placed == s.placed && t.files[t.placed.value] == s.files[s.placed.value]
    ensures t.returned == s.returned || (InPlace(t).Some? && t.returned == s.returned + [InPlace(t).value])
  {
  }

  ghost predicate Run(states: seq<State>, events: seq<Event>) {
    |states| == |events| + 1 && Init(states[0]) &&
    forall i :: 0 <= i < |events| ==> Takes(states[i], events[i], states[i + 1])
  }

  lemma {:induction false} RunInv(states: seq<State>, events: seq<Event>, i: nat)
    requires Run(states, events) && Settled(states[0]) && i < |states|
    ensures Inv(states[i])
  {
    if i > 0 {
      RunInv(states, events, i - 1);
      assert Takes(states[i - 1], events[i - 1], states[i]);
      TakesKeeps(states[i - 1], events[i - 1], states[i]);
    }
  }

  /** Everything returned so far is the salt in place. */
  predicate AllAgree(s: State) {
    forall k :: 0 <= k < |s.returned| ==> InPlace(s) == Some(s.returned[k])
  }

  /** From a settled directory, in every run all successful calls have returned one and the same salt, the one in place. */
  lemma {:induction false} SaltsAgree(states: seq<State>, events: seq<Event>, i: nat)
    requires Run(states, events) && Settled(states[0]) && i < |states|
    ensures AllAgree(states[i])
  {
    if i > 0 {
      SaltsAgree(states, events, i - 1);
      RunInv(states, events, i - 1);
      PlacedStays(states[i - 1], events[i - 1], states[i]);
    }
  }

  /** And the salt in place never changes afterwards. */
  lemma {:induction false} SaltStays(states: seq<State>, events: seq<Event>, i: nat, j: nat)
    requires Run(states, events) && Settled(states[0]) && i <= j < |states| && InPlace(states[i]).Some?
    ensures InPlace(states[j]) == InPlace(states[i])
    decreases j
  {
    if i < j {
      SaltStays(states, events, i, j - 1);
      RunInv(states, events, j - 1);
      PlacedStays(states[j - 1], events[j - 1], states[j]);
    }
  }

  // ---------------------------------------------------------------------------------------------
  // With neither
  // ---------------------------------------------------------------------------------------------

  lemma {:induction false} Extend(states: seq<State>, events: seq<Event>, e: Event, t: State)
    returns (longer: seq<State>, taken: seq<Event>)
    requires Run(states, events) && Takes(states[|events|], e, t)
    ensures Run(longer, taken) && longer[|taken|] == t && states < longer && |events| < |taken|
  {
    longer, taken := states + [t], events + [e];
    forall m | 0 <= m < |taken| ensures Takes(longer[m], taken[m], longer[m + 1]) {
      if m < |events| { assert Takes(states[m], events[m], states[m + 1]); }
    }
  }

  /** A call draws its salt while nothing is in place. */
  lemma {:induction false} DrawsSalt(states: seq<State>, events: seq<Event>, p: nat, n: nat, salt: string)
    returns (longer: seq<State>, taken: seq<Event>)
    requires Run(states, events) && IsSaltHex(salt)
    requires var s := states[|events|]; s.placed.None? && p !in s.pcs && n !in s.files
    ensures Run(longer, taken) && states < longer
    ensures longer[|taken|] == At(states[|events|], p, Linking(n))
      .(files := states[|events|].files[n := salt + "\n"], owner := states[|events|].owner[n := p])
  {
    var s := states[|events|];
    var owner := s.owner[n := p];
    assert Written(salt + "\n");
    longer, taken := Extend(states, events, Call(p), At(s, p, FirstRead));
    longer, taken := Extend(longer, taken, Step(p), At(s, p, CreateTmp));
    longer, taken := Extend(longer, taken, Create(p, n), At(s, p, Writing(n)).(files := s.files[n := ""], owner := owner));
    assert s.files[n := ""][n := salt + "\n"] == s.files[n := salt + "\n"];
    longer, taken := Extend(longer, taken, Write(p, salt + "\n"),
                            At(s, p, Linking(n)).(files := s.files[n := salt + "\n"], owner := owner));
  }

  /** Without hard links it gets as far as the fallback. */
  lemma {:induction false} ReachesRename(states: seq<State>, events: seq<Event>, p: nat, n: nat, salt: string)
    returns (longer: seq<State>, taken: seq<Event>)
    requires Run(states, events) && IsSaltHex(salt)
    requires var s := states[|events|]; !Settled(s) && p !in s.pcs && n !in s.files
    ensures Run(longer, taken) && states < longer
    ensures longer[|taken|] == At(states[|events|], p, Renaming(n))
      .(files := states[|events|].files[n := salt + "\n"], owner := states[|events|].owner[n := p])
  {
    longer, taken := DrawsSalt(states, events, p, n, salt);
    var s := longer[|taken|];
    longer, taken := Extend(longer, taken, Step(p), At(s, p, CheckExists(n)));
    longer, taken := Extend(longer, taken, Step(p), At(s, p, Renaming(n)));
  }

  /** The fallback replaces what is in place and the call returns its own salt. */
  lemma {:induction false} RenameReturns(states: seq<State>, events: seq<Event>, p: nat, salt: string)
    returns (longer: seq<State>, taken: seq<Event>)
    requires Run(states, events) && IsSaltHex(salt)
    requires var s := states[|events|];
      p in s.pcs && s.pcs[p].Renaming? && s.pcs[p].tmp in s.files && s.files[s.pcs[p].tmp] == salt + "\n"
    ensures Run(longer, taken) && states < longer
    ensures var s := states[|events|];
      longer[|taken|] == s.(pcs := s.pcs - {p}, placed := Some(s.pcs[p].tmp), returned := s.returned + [salt])
  {
    var s := states[|events|];
    var renamed := At(s, p, ReadBack).(placed := Some(s.pcs[p].tmp));
    ParseWritten(salt);
    assert renamed.pcs - {p} == s.pcs - {p};
    longer, taken := Extend(states, events, Step(p), renamed);
    longer, taken := Extend(longer, taken, Step(p), Returns(renamed, p, Some(salt)));
  }

  lemma {:induction false} Bounded(keys: set<nat>) returns (bound: nat)
    ensures forall n :: n in keys ==> n < bound
  {
    if keys == {} { return 0; }
    var n :| n in keys;
    var rest := Bounded(keys - {n});
    bound := if n < rest then rest else n + 1;
    assert forall m :: m in keys ==> m == n || m in keys - {n};
  }

  /** From every other start two calls can succeed with different salts, whatever two they drew. */
  lemma {:induction false} WithoutHardLinksSaltsDiffer(start: State, a: string, b: string)
    returns (states: seq<State>, events: seq<Event>, j: nat)
    requires Init(start) && !Settled(start) && IsSaltHex(a) && IsSaltHex(b)
    ensures Run(states, events) && states[0] == start
    ensures states[|events|].returned == [a, b] && InPlace(states[|events|]) == Some(b)
    ensures j < |events| && InPlace(states[j]) == Some(a)
  {
    ParseWritten(a);
    ParseWritten(b);
    var n := Bounded(start.files.Keys);
    states, events := [start], [];
    states, events := ReachesRename(states, events, 0, n, a);
    states, events := ReachesRename(states, events, 1, n + 1, b);
    states, events := RenameReturns(states, events, 0, a);
    j := |events|;
    states, events := RenameReturns(states, events, 1, b);
  }

  // ---------------------------------------------------------------------------------------------
  // Exactly when
  // ---------------------------------------------------------------------------------------------

  /** However the calls go from `start`, those that succeed have returned the salt in place. */
  ghost predicate AlwaysAgrees(start: State) {
    forall states, events, i: nat :: Run(states, events) && states[0] == start && i < |states| ==> AllAgree(states[i])
  }

  /** However the calls go from `start`, a salt once in place is never replaced. */
  ghost predicate NeverReplaced(start: State) {
    forall states, events, i: nat, j: nat ::
      Run(states, events) && states[0] == start && i <= j < |states| && InPlace(states[i]).Some? ==>
        InPlace(states[j]) == InPlace(states[i])
  }

  lemma {:induction false} TwoSalts() returns (a: string, b: string)
    ensures IsSaltHex(a) && IsSaltHex(b) && a != b
  {
    a, b := seq(64, _ => '0'), seq(64, _ => '1');
    assert a[0] != b[0];
  }

  /** The calls of every run agree exactly if the directory has hard links or its salt file to begin with. */
  lemma {:induction false} AlwaysAgreesIffSettled(start: State)
    requires Init(start)
    ensures AlwaysAgrees(start) <==> Settled(start)
  {
    if Settled(start) {
      forall states, events, i: nat | Run(states, events) && states[0] == start && i < |states|
        ensures AllAgree(states[i])
      {
        SaltsAgree(states, events, i);
      }
    } else {
      var a, b := TwoSalts();
      var states, events, j := WithoutHardLinksSaltsDiffer(start, a, b);
      assert states[|events|].returned[0] == a && !AllAgree(states[|events|]);
    }
  }

  /** And exactly then a salt in place stays there for good. */
  lemma {:induction false} NeverReplacedIffSettled(start: State)
    requires Init(start)
    ensures NeverReplaced(start) <==> Settled(start)
  {
    if Settled(start) {
      forall states, events, i: nat, j: nat |
        Run(states, events) && states[0] == start && i <= j < |states| && InPlace(states[i]).Some?
        ensures InPlace(states[j]) == InPlace(states[i])
      {
        SaltStays(states, events, i, j);
      }
    } else {
      var a, b := TwoSalts();
      var states, events, j := WithoutHardLinksSaltsDiffer(start, a, b);
    }
  }
}
