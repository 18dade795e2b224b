/**
 Runs of the artifact cache in which an install goes through, and with them exactly which artifacts
 have a directory that is always absent or complete.
 */
module ArtifactInstall {
  import opened Options
  import opened Stamping
  import opened Manifest
  import opened ArtifactCache

  lemma {:induction false} Extend(states: seq<State>, events: seq<Event>, e: Event, t: State)
    returns (longer: seq<State>, taken: seq<Event>)
    requires Run(states, events) && Takes(states[|events|], e, t)
    ensures Run(longer, taken) && longer[|taken|] == t
  {
    longer, taken := states + [t], events + [e];
    forall m | 0 <= m < |taken| ensures Takes(longer[m], taken[m], longer[m + 1]) {
      if m < |events| { assert Takes(states[m], events[m], states[m + 1]); }
    }
  }

  const FIRST := Call(0, 0)

  /** A first call at `pc`, alone, with the locks it has there. */
  function Alone(a: Artifact, pc: Pc, files: Files): State {
    State(a, map[FIRST := pc], if HoldsInstall(pc) then Some(FIRST) else None,
          if HoldsExclusive(pc) then Some(FIRST) else None, map[], 0, map[], files)
  }

  /** Every step succeeds, with these texts. */
  function Fine(texts: Texts): Outcome {
    Outcome(7, None, false, true, texts)
  }

  lemma {:induction false} AloneStep(states: seq<State>, events: seq<Event>, a: Artifact, texts: Texts, pc: Pc, next: Pc,
                                     files: Files, after: Files)
    returns (longer: seq<State>, taken: seq<Event>)
    requires Run(states, events) && states[|events|] == Alone(a, pc, files)
    requires Next(Alone(a, pc, files), FIRST, Fine(texts)).Some? && !UsesLease(pc) && !UsesLease(next)
    requires var e := Next(Alone(a, pc, files), FIRST, Fine(texts)).value;
      e.next == Some(next) && e.leases == SameLeases && e.files == after && e.registry == map[] &&
      LockOpOk(e.install, HoldsInstall(pc), HoldsInstall(next)) &&
      LockOpOk(e.exclusive, HoldsExclusive(pc), HoldsExclusive(next))
    ensures Run(longer, taken) && longer[|taken|] == Alone(a, next, after)
  {
    assert Alone(a, pc, files).pcs[FIRST := next] == Alone(a, next, after).pcs;
    longer, taken := Extend(states, events, Step(FIRST, Fine(texts)), Alone(a, next, after));
  }

  const NO_FILES := Files(Absent, 0, 0, map[], Absent, false)

  lemma {:induction false} Starts(a: Artifact, texts: Texts) returns (states: seq<State>, events: seq<Event>)
    ensures Run(states, events) && states[|events|] == Alone(a, FirstCheck, NO_FILES)
  {
    states, events := [State(a, map[], None, None, map[], 0, map[], NO_FILES)], [];
    assert states[0].pcs[FIRST := InstallStart] == Alone(a, InstallStart, NO_FILES).pcs;
    states, events := Extend(states, events, Begin(FIRST, InstallStart), Alone(a, InstallStart, NO_FILES));
    states, events := AloneStep(states, events, a, texts, InstallStart, FirstCheck, NO_FILES, NO_FILES);
  }

  lemma {:induction false} Locks(a: Artifact, texts: Texts) returns (states: seq<State>, events: seq<Event>)
    ensures Run(states, events) && states[|events|] == Alone(a, SecondCheck, NO_FILES)
  {
    states, events := Starts(a, texts);
    states, events := AloneStep(states, events, a, texts, FirstCheck, WaitExclusive, NO_FILES, NO_FILES);
    states, events := AloneStep(states, events, a, texts, WaitExclusive, SecondCheck, NO_FILES, NO_FILES);
  }

  /** The files after staging was made, after it was filled, and after it was moved into place. */
  const STAGED := NO_FILES.(staging := map[7 := Present(false, None, map[])])

  function Filled(body: string): Files {
    NO_FILES.(staging := map[7 := Present(true, Some(body), map[])])
  }

  function Installed(body: string): Files {
    Files(Present(true, Some(body), map[]), 1, 0, map[], Absent, false)
  }

  function Body(a: Artifact, texts: Texts): string {
    ManifestBody(texts.source, a, texts.size, texts.now)
  }

  lemma {:induction false} Stages(a: Artifact, texts: Texts) returns (states: seq<State>, events: seq<Event>)
    ensures Run(states, events) && states[|events|] == Alone(a, Filling(7), STAGED)
  {
    states, events := Locks(a, texts);
    states, events := AloneStep(states, events, a, texts, SecondCheck, MakeStaging, NO_FILES, NO_FILES);
    states, events := AloneStep(states, events, a, texts, MakeStaging, Filling(7), NO_FILES, STAGED);
  }

  lemma {:induction false} Fills(a: Artifact, texts: Texts, body: string)
    returns (states: seq<State>, events: seq<Event>)
    requires body == Body(a, texts)
    ensures Run(states, events) && states[|events|] == Alone(a, Publishing(7), Filled(body))
  {
    states, events := Stages(a, texts);
    assert STAGED.staging[7 := Present(true, Some(body), map[])] == Filled(body).staging;
    states, events := AloneStep(states, events, a, texts, Filling(7), Publishing(7), STAGED, Filled(body));
  }

  lemma {:induction false} Publishes(a: Artifact, texts: Texts, body: string)
    returns (states: seq<State>, events: seq<Event>)
    requires body == Body(a, texts)
    ensures Run(states, events) && states[|events|] == Alone(a, DropExclusive, Installed(body))
  {
    states, events := Fills(a, texts, body);
    assert Filled(body).staging - {7} == Installed(body).staging;
    states, events := AloneStep(states, events, a, texts, Publishing(7), DropExclusive, Filled(body), Installed(body));
  }

  /** The same, now holding lease 0. */
  predicate Leased(s: State, a: Artifact, pc: Pc, files: Files) {
    s == State(a, map[FIRST := pc], Some(FIRST), None, map[0 := Lease(0, {FIRST}, None)], 1, map[], files)
  }

  lemma {:induction false} Leases(a: Artifact, texts: Texts, body: string)
    returns (states: seq<State>, events: seq<Event>)
    requires body == Body(a, texts)
    ensures Run(states, events) && Leased(states[|events|], a, TouchRead(0), Installed(body))
  {
    states, events := Publishes(a, texts, body);
    states, events := AloneStep(states, events, a, texts, DropExclusive, WaitShared, Installed(body), Installed(body));
    var s := states[|events|];
    var t := Apply(s, FIRST, Go(s, TouchRead(0)).(leases := NewLease));
    assert t.pcs == map[FIRST := TouchRead(0)];
    states, events := Extend(states, events, Step(FIRST, Fine(texts)), t);
  }

  /** What the stamp leaves behind. */
  function Touched(after: string): Files {
    Installed(after).(stamp := 1)
  }

  lemma {:induction false} WritesStamp(s: State, a: Artifact, texts: Texts, body: string, after: string, now: Numeral)
    returns (t: State)
    requires Leased(s, a, TouchRead(0), Installed(body)) && TouchLastUsed(body, now) == Some(after)
    ensures Takes(s, Step(FIRST, Fine(texts.(now := now))), t)
    ensures Leased(t, a, TouchMove(0, 7, now), Installed(body).(dir := Present(true, Some(body), map[7 := after])))
  {
    var e := Go(s, TouchMove(0, 7, now)).(files := WithTemps(s.files, s.files.dir.temps[7 := after]));
    t := Apply(s, FIRST, e);
    assert Next(s, FIRST, Fine(texts.(now := now))) == Some(e);
  }

  lemma {:induction false} MovesStamp(s: State, a: Artifact, texts: Texts, body: string, after: string, now: Numeral)
    returns (t: State)
    requires Leased(s, a, TouchMove(0, 7, now), Installed(body).(dir := Present(true, Some(body), map[7 := after])))
    ensures Takes(s, Step(FIRST, Fine(texts)), t) && Leased(t, a, Verify(0), Touched(after))
  {
    t := s.(pcs := map[FIRST := Verify(0)], files := Touched(after));
    assert s.files.dir.temps - {7} == map[] && s.pcs[FIRST := Verify(0)] == t.pcs;
  }

  lemma {:induction false} Confirms(s: State, a: Artifact, texts: Texts, files: Files) returns (t: State)
    requires Leased(s, a, Verify(0), files) && HasEntry(files.dir)
    ensures Takes(s, Step(FIRST, Fine(texts)), t) && t.pcs == map[FIRST := DropInstall(0)]
    ensures 0 in t.leases && FIRST in t.leases[0].holders && t.files == files && t.artifact == a
  {
    t := Apply(s, FIRST, Go(s, DropInstall(0)).(leases := ConfirmLease(0), registry := s.registry[0 := 0]));
  }

  lemma {:induction false} Returns(s: State, texts: Texts) returns (t: State)
    requires s.pcs == map[FIRST := DropInstall(0)] && 0 in s.leases && FIRST in s.leases[0].holders
    ensures Takes(s, Step(FIRST, Fine(texts)), t) && Held(t, FIRST, 0) && t.files == s.files && t.artifact == s.artifact
  {
    t := Apply(s, FIRST, Return(s).(install := Drop));
  }

  lemma {:induction false} LeaseReturns(states: seq<State>, events: seq<Event>, a: Artifact, texts: Texts,
                                        body: string, after: string,
                                        now: Numeral)
    returns (longer: seq<State>, taken: seq<Event>)
    requires Run(states, events) && Leased(states[|events|], a, TouchRead(0), Installed(body))
    requires TouchLastUsed(body, now) == Some(after)
    ensures Run(longer, taken) && Held(longer[|taken|], FIRST, 0) && longer[|taken|].files == Touched(after)
    ensures longer[|taken|].artifact == a
  {
    var t := WritesStamp(states[|events|], a, texts, body, after, now);
    longer, taken := Extend(states, events, Step(FIRST, Fine(texts.(now := now))), t);
    t := MovesStamp(t, a, texts, body, after, now);
    longer, taken := Extend(longer, taken, Step(FIRST, Fine(texts)), t);
    t := Confirms(t, a, texts, Touched(after));
    longer, taken := Extend(longer, taken, Step(FIRST, Fine(texts)), t);
    t := Returns(t, texts);
    longer, taken := Extend(longer, taken, Step(FIRST, Fine(texts)), t);
  }

  /** From an empty cache an install reaches the point where it returns a held lease, whatever texts it writes. */
  lemma {:induction false} InstallReturnsLease(a: Artifact, texts: Texts, now: Numeral)
    returns (states: seq<State>, events: seq<Event>)
    ensures Run(states, events) && states[0].artifact == a && Held(states[|events|], FIRST, 0)
    ensures states[|events|].files == Touched(TouchAll(KEY, Body(a, texts), [now]))
  {
    var body := Body(a, texts);
    WrittenIsKeyed(texts.source, a, texts.size, texts.now);
    LastStampShows(KEY, body, [now]);
    states, events := Leases(a, texts, body);
    states, events := LeaseReturns(states, events, a, texts, body, TouchAll(KEY, body, [now]), now);
    ArtifactIsConstant(states, events, |events|);
  }

  lemma {:induction false} ArtifactIsConstant(states: seq<State>, events: seq<Event>, i: nat)
    requires Run(states, events) && i < |states|
    ensures states[i].artifact == states[0].artifact
  {
    if i > 0 {
      ArtifactIsConstant(states, events, i - 1);
      assert Takes(states[i - 1], events[i - 1], states[i]);
    }
  }

  // ---------------------------------------------------------------------------------------------
  // Exactly when the directory is always whole
  // ---------------------------------------------------------------------------------------------

  /** In every run without interference from outside, the directory is absent or complete. */
  ghost predicate AlwaysWhole(a: Artifact) {
    forall states: seq<State>, events, i: nat ::
      Run(states, events) && states[0].artifact == a && i < |states| && !states[i].files.tampered ==>
        states[i].files.dir == Absent || CacheValid(a, states[i].files.dir)
  }

  /** That is so exactly for safe artifacts: any other is spoilt by its own install. */
  lemma {:induction false} AlwaysWholeIffSafe(a: Artifact)
    ensures AlwaysWhole(a) <==> Safe(a)
  {
    if Safe(a) {
      forall states: seq<State>, events, i: nat |
        Run(states, events) && states[0].artifact == a && i < |states| && !states[i].files.tampered
        ensures states[i].files.dir == Absent || CacheValid(a, states[i].files.dir)
      {
        ArtifactIsConstant(states, events, i);
        AppearsWhole(states, events, i);
      }
    } else {
      var stamp := UnsafeSpoils(a);
      var states, events := InstallReturnsLease(a, Texts("", "0", "0", ""), stamp);
      assert !CacheValid(a, states[|events|].files.dir);
    }
  }
}
