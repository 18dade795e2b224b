/**
 The COPY TO sink of src/vgi_copy_to_impl.cpp: sink workers and their accumulated state ids are kept
 in two parallel vectors under one mutex, popped by a local state that starts to sink and pushed back
 when it combines. Steps of any number of local states interleave; the remote worker accumulates per
 connection, so the id it returns stands for every chunk sent on that connection so far.
 */
module CopyTo {
  import opened Options

  /** What the worker returns from a process call: it covers the chunks of `conn` before `upTo`. */
  datatype StateId = StateId(conn: nat, upTo: nat)

  /** A local state that is active: from the start of its first sink until it combines or fails. */
  datatype Local =
    | Connecting                                  // found no pooled worker; acquiring a connection
    | Sinking(conn: nat, held: Option<StateId>)   // inside a sink call, holding a connection
    | Holding(conn: nat, id: StateId)             // between calls

  datatype State = State(
    workers: seq<nat>,
    stateIds: seq<StateId>,
    locals: map<nat, Local>,
    log: seq<nat>,                     // history: the connection of every chunk sunk, in order
    everOpened: nat,                   // connections 0 .. everOpened-1 have been opened
    combined: Option<seq<StateId>>     // what the terminal combine was given
  )

  datatype Event =
    | Start(l: nat)                    // a sink call without a connection: pop under the mutex
    | Again(l: nat)                    // a sink call with one
    | Connect(l: nat)
    | Process(l: nat)
    | Combine(l: nat)
    | Fail(l: nat, applied: bool)      // a call throws; the chunk may have reached the worker
    | Snapshot                         // finalize copies the ids and calls the terminal combine
    | Release                          // finalize gives the workers back

  function Popped(s: State, l: nat): State
    requires |s.workers| == |s.stateIds|
  {
    var n := |s.workers| - 1;
    if s.workers == [] then s.(locals := s.locals[l := Connecting])
    else s.(workers := s.workers[..n], stateIds := s.stateIds[..n],
            locals := s.locals[l := Sinking(s.workers[n], Some(s.stateIds[n]))])
  }

  predicate Takes(s: State, e: Event, t: State) {
    match e
    case Start(l) => l !in s.locals && |s.workers| == |s.stateIds| && t == Popped(s, l)
    case Again(l) =>
      l in s.locals && s.locals[l].Holding? &&
      t == s.(locals := s.locals[l := Sinking(s.locals[l].conn, Some(s.locals[l].id))])
    case Connect(l) =>
      l in s.locals && s.locals[l].Connecting? &&
      t == s.(locals := s.locals[l := Sinking(s.everOpened, None)], everOpened := s.everOpened + 1)
    case Process(l) =>
      l in s.locals && s.locals[l].Sinking? &&
      var conn := s.locals[l].conn;
      t == s.(log := s.log + [conn], locals := s.locals[l := Holding(conn, StateId(conn, |s.log| + 1))])
    case Combine(l) =>
      l in s.locals && s.locals[l].Holding? &&
      t == s.(workers := s.workers + [s.locals[l].conn], stateIds := s.stateIds + [s.locals[l].id],
              locals := s.locals - {l})
    case Fail(l, applied) =>
      l in s.locals && (applied ==> s.locals[l].Sinking?) &&
      t == s.(locals := s.locals - {l}, log := if applied then s.log + [s.locals[l].conn] else s.log)
    case Snapshot => t == s.(combined := Some(s.stateIds))
    case Release => t == s.(workers := [], stateIds := [])
  }

  predicate Init(s: State) {
    s == State([], [], map[], [], 0, None)
  }

  // ---------------------------------------------------------------------------------------------
  // The invariant
  // ---------------------------------------------------------------------------------------------

  predicate Aligned(s: State) {
    |s.workers| == |s.stateIds| && forall k :: 0 <= k < |s.workers| ==> s.stateIds[k].conn == s.workers[k]
  }

  predicate Holds(s: State, l: nat, conn: nat) {
    l in s.locals && !s.locals[l].Connecting? && s.locals[l].conn == conn
  }

  /** Every connection has one owner: one slot of the pool or one local state. */
  predicate SinglyOwned(s: State) {
    (forall i, j :: 0 <= i < j < |s.workers| ==> s.workers[i] != s.workers[j]) &&
    (forall l, k :: l in s.locals && 0 <= k < |s.workers| ==> !Holds(s, l, s.workers[k])) &&
    (forall l, m :: l in s.locals && m in s.locals && l != m && !s.locals[m].Connecting? ==>
       !Holds(s, l, s.locals[m].conn)) &&
    (forall k :: 0 <= k < |s.workers| ==> s.workers[k] < s.everOpened) &&
    forall l :: l in s.locals && !s.locals[l].Connecting? ==> s.locals[l].conn < s.everOpened
  }

  /** An id covers everything sunk on its connection. */
  predicate Current(log: seq<nat>, id: StateId) {
    id.upTo <= |log| && forall i :: id.upTo <= i < |log| ==> log[i] != id.conn
  }

  predicate LocalCurrent(log: seq<nat>, local: Local) {
    match local
    case Connecting => true
    case Sinking(conn, None) => conn !in log
    case Sinking(conn, Some(id)) => id.conn == conn && Current(log, id)
    case Holding(conn, id) => id.conn == conn && Current(log, id)
  }

  predicate AllCurrent(s: State) {
    (forall k :: 0 <= k < |s.stateIds| ==> Current(s.log, s.stateIds[k])) &&
    (forall l :: l in s.locals ==> LocalCurrent(s.log, s.locals[l])) &&
    forall i :: 0 <= i < |s.log| ==> s.log[i] < s.everOpened
  }

  predicate Inv(s: State) {
    Aligned(s) && SinglyOwned(s) && AllCurrent(s)
  }

  lemma {:induction false} StartOwned(s: State, l: nat, t: State)
    requires Aligned(s) && SinglyOwned(s) && Takes(s, Start(l), t)
    ensures SinglyOwned(t)
  {
  }

  lemma {:induction false} CombineOwned(s: State, l: nat, t: State)
    requires Aligned(s) && SinglyOwned(s) && Takes(s, Combine(l), t)
    ensures SinglyOwned(t)
  {
  }

  lemma {:induction false} TakesOwned(s: State, e: Event, t: State)
    requires Aligned(s) && SinglyOwned(s) && Takes(s, e, t)
    ensures SinglyOwned(t)
  {
    if e.Start? {
      StartOwned(s, e.l, t);
    } else if e.Combine? {
      CombineOwned(s, e.l, t);
    }
  }

  lemma {:induction false} StillCurrent(log: seq<nat>, conn: nat, id: StateId)
    requires Current(log, id) && id.conn != conn
    ensures Current(log + [conn], id)
  {
  }

  lemma {:induction false} LocalStillCurrent(log: seq<nat>, conn: nat, local: Local)
    requires LocalCurrent(log, local) && (local.Connecting? || local.conn != conn)
    ensures LocalCurrent(log + [conn], local)
  {
  }

  /** Another connection's chunk leaves every id current. */
  lemma {:induction false} SunkCurrent(s: State, l: nat)
    requires Inv(s) && l in s.locals && s.locals[l].Sinking?
    ensures forall k :: 0 <= k < |s.stateIds| ==> Current(s.log + [s.locals[l].conn], s.stateIds[k])
    ensures forall m :: m in s.locals && m != l ==> LocalCurrent(s.log + [s.locals[l].conn], s.locals[m])
  {
    var conn := s.locals[l].conn;
    forall k | 0 <= k < |s.stateIds| ensures Current(s.log + [conn], s.stateIds[k]) {
      assert !Holds(s, l, s.workers[k]);
      StillCurrent(s.log, conn, s.stateIds[k]);
    }
    forall m | m in s.locals && m != l ensures LocalCurrent(s.log + [conn], s.locals[m]) {
      assert !Holds(s, m, conn);
      LocalStillCurrent(s.log, conn, s.locals[m]);
    }
  }

  lemma {:induction false} TakesCurrent(s: State, e: Event, t: State)
    requires Inv(s) && Takes(s, e, t)
    ensures AllCurrent(t)
  {
    if e.Process? || (e.Fail? && e.applied) { SunkCurrent(s, e.l); }
  }

  lemma {:induction false} TakesKeeps(s: State, e: Event, t: State)
    requires Inv(s) && Takes(s, e, t)
    ensures Inv(t)
  {
    TakesOwned(s, e, t);
    TakesCurrent(s, e, t);
  }

  // ---------------------------------------------------------------------------------------------
  // Runs
  // ---------------------------------------------------------------------------------------------

  predicate Run(states: seq<State>, events: seq<Event>) {
    |states| == |events| + 1 && Init(states[0]) &&
    forall i :: 0 <= i < |events| ==> Takes(states[i], events[i], states[i + 1])
  }

  /** Connections and state ids stay index-aligned and singly owned. */
  lemma {:induction false} RunInv(states: seq<State>, events: seq<Event>, i: nat)
    requires Run(states, events) && i < |states|
    ensures Inv(states[i])
  {
    if i > 0 {
      RunInv(states, events, i - 1);
      TakesKeeps(states[i - 1], events[i - 1], states[i]);
    }
  }

  predicate Covers(s: State, k: nat, chunk: nat)
    requires k < |s.stateIds| && chunk < |s.log|
  {
    chunk < s.stateIds[k].upTo && s.log[chunk] == s.stateIds[k].conn
  }

  predicate CoveredOnce(s: State, chunk: nat)
    requires chunk < |s.log|
  {
    exists k :: 0 <= k < |s.stateIds| && Covers(s, k, chunk) &&
                forall j :: 0 <= j < |s.stateIds| && Covers(s, j, chunk) ==> j == k
  }

  /** A chunk is covered, by exactly one id, precisely when its connection is back in the pool. */
  lemma {:induction false} CoveredOnceIffPooled(states: seq<State>, events: seq<Event>, i: nat, chunk: nat)
    requires Run(states, events) && i < |states| && chunk < |states[i].log|
    ensures CoveredOnce(states[i], chunk) <==> states[i].log[chunk] in states[i].workers
    ensures (exists k :: 0 <= k < |states[i].stateIds| && Covers(states[i], k, chunk)) <==> CoveredOnce(states[i], chunk)
  {
    var s := states[i];
    RunInv(states, events, i);
    if s.log[chunk] in s.workers {
      var k :| 0 <= k < |s.workers| && s.workers[k] == s.log[chunk];
      assert Current(s.log, s.stateIds[k]);
      assert Covers(s, k, chunk);
      forall j | 0 <= j < |s.stateIds| && Covers(s, j, chunk) ensures j == k {
        assert s.workers[j] == s.workers[k];
      }
    }
  }

  /** Without a failure or a release, the connection of a sunk chunk is in the pool or held. */
  predicate Accounted(s: State) {
    forall i :: 0 <= i < |s.log| ==> s.log[i] in s.workers || exists l :: l in s.locals && Holds(s, l, s.log[i])
  }

  lemma {:induction false} HolderKept(s: State, e: Event, t: State, conn: nat, l: nat)
    requires Takes(s, e, t) && !e.Fail? && !e.Release? && Holds(s, l, conn)
    ensures conn in t.workers || Holds(t, l, conn)
  {
    if e == Combine(l) { assert t.workers[|s.workers|] == conn; }
  }

  lemma {:induction false} PooledKept(s: State, e: Event, t: State, k: nat)
    requires Takes(s, e, t) && !e.Fail? && !e.Release? && k < |s.workers|
    ensures s.workers[k] in t.workers || (e.Start? && Holds(t, e.l, s.workers[k]))
  {
    if k < |t.workers| { assert t.workers[k] == s.workers[k]; }
  }

  lemma {:induction false} AccountedStep(s: State, e: Event, t: State)
    requires Accounted(s) && Takes(s, e, t) && !e.Fail? && !e.Release?
    ensures Accounted(t)
  {
    forall i | 0 <= i < |t.log| ensures t.log[i] in t.workers || exists l :: l in t.locals && Holds(t, l, t.log[i]) {
      if i == |s.log| {
        assert Holds(t, e.l, t.log[i]);
      } else if s.log[i] in s.workers {
        var k :| 0 <= k < |s.workers| && s.workers[k] == s.log[i];
        PooledKept(s, e, t, k);
      } else {
        var l :| l in s.locals && Holds(s, l, s.log[i]);
        HolderKept(s, e, t, s.log[i], l);
      }
    }
  }

  lemma {:induction false} RunAccounted(states: seq<State>, events: seq<Event>, i: nat)
    requires Run(states, events) && i < |states|
    requires forall j :: 0 <= j < i ==> !events[j].Fail? && !events[j].Release?
    ensures Accounted(states[i])
  {
    if i > 0 {
      RunAccounted(states, events, i - 1);
      AccountedStep(states[i - 1], events[i - 1], states[i]);
    }
  }

  /**
   The terminal combine of a run in which no call failed, taken when every local state has combined,
   is given ids that cover every sunk chunk exactly once.
   */
  lemma {:induction false} CombineCoversEveryChunkOnce(states: seq<State>, events: seq<Event>, i: nat)
    requires Run(states, events) && i < |events| && events[i] == Snapshot && states[i].locals == map[]
    requires forall j :: 0 <= j < i ==> !events[j].Fail? && !events[j].Release?
    ensures states[i + 1].combined == Some(states[i].stateIds)
    ensures forall chunk :: 0 <= chunk < |states[i].log| ==> CoveredOnce(states[i], chunk)
  {
    assert Takes(states[i], events[i], states[i + 1]);
    RunAccounted(states, events, i);
    forall chunk | 0 <= chunk < |states[i].log| ensures CoveredOnce(states[i], chunk) {
      CoveredOnceIffPooled(states, events, i, chunk);
    }
  }

  // ---------------------------------------------------------------------------------------------
  // How many connections are open
  // ---------------------------------------------------------------------------------------------

  function HeldConnections(s: State): set<nat> {
    set l | l in s.locals && !s.locals[l].Connecting? :: s.locals[l].conn
  }

  function OpenConnections(s: State): set<nat> {
    (set k | 0 <= k < |s.workers| :: s.workers[k]) + HeldConnections(s)
  }

  lemma {:induction false} PoolSize(workers: seq<nat>)
    ensures |set k | 0 <= k < |workers| :: workers[k]| <= |workers|
  {
    var all := set k | 0 <= k < |workers| :: workers[k];
    if workers != [] {
      var n := |workers| - 1;
      PoolSize(workers[..n]);
      var most := set k | 0 <= k < |workers[..n]| :: workers[..n][k];
      assert all == most + {workers[n]} by {
        forall x | x in all ensures x in most + {workers[n]} {
          var k :| 0 <= k < |workers| && workers[k] == x;
          assert k < n ==> workers[..n][k] == x;
        }
      }
    }
  }

  lemma {:induction false} HeldSize(s: State)
    ensures |HeldConnections(s)| <= |s.locals|
    decreases |s.locals|
  {
    var held := HeldConnections(s);
    if l :| l in s.locals {
      var rest := s.(locals := s.locals - {l});
      assert s.locals.Keys == rest.locals.Keys + {l};
      assert |s.locals.Keys| == |s.locals| && |rest.locals.Keys| == |rest.locals|;
      HeldSize(rest);
      if s.locals[l].Connecting? {
        assert held == HeldConnections(rest);
      } else {
        assert held == HeldConnections(rest) + {s.locals[l].conn};
      }
    } else {
      assert held == {};
    }
  }

  lemma {:induction false} MapAdd<T>(m: map<nat, T>, l: nat, v: T)
    ensures |m[l := v]| == if l in m then |m| else |m| + 1
  {
    assert m[l := v].Keys == m.Keys + {l};
    assert |m[l := v].Keys| == |m[l := v]| && |m.Keys| == |m|;
  }

  lemma {:induction false} MapRemove<T>(m: map<nat, T>, l: nat)
    requires l in m
    ensures |m - {l}| == |m| - 1
  {
    assert m.Keys == (m - {l}).Keys + {l};
    assert |(m - {l}).Keys| == |m - {l}| && |m.Keys| == |m|;
  }

  /** Only a sink that finds the pool empty adds to the connections open or being opened. */
  lemma {:induction false} TotalStep(s: State, e: Event, t: State)
    requires Aligned(s) && Takes(s, e, t)
    ensures |t.workers| + |t.locals| <= |s.workers| + |s.locals| || t.workers == []
  {
    match e
    case Start(l) => MapAdd(s.locals, l, t.locals[l]);
    case Again(l) => MapAdd(s.locals, l, t.locals[l]);
    case Connect(l) => MapAdd(s.locals, l, t.locals[l]);
    case Process(l) => MapAdd(s.locals, l, t.locals[l]);
    case Combine(l) => MapRemove(s.locals, l);
    case Fail(l, _) => MapRemove(s.locals, l);
    case _ =>
  }

  lemma {:induction false} PeakActive(states: seq<State>, events: seq<Event>, i: nat) returns (j: nat)
    requires Run(states, events) && i < |states|
    ensures j <= i && |states[i].workers| + |states[i].locals| <= |states[j].locals|
  {
    if i == 0 || states[i].workers == [] {
      j := i;
    } else {
      j := PeakActive(states, events, i - 1);
      RunInv(states, events, i - 1);
      TotalStep(states[i - 1], events[i - 1], states[i]);
    }
  }

  /** The open sink connections are never more than the sinks active at once at some earlier time. */
  lemma {:induction false} OpenWithinPeak(states: seq<State>, events: seq<Event>, i: nat) returns (j: nat)
    requires Run(states, events) && i < |states|
    ensures j <= i && |OpenConnections(states[i])| <= |states[j].locals|
  {
    var s := states[i];
    j := PeakActive(states, events, i);
    PoolSize(s.workers);
    HeldSize(s);
    var pool := set k | 0 <= k < |s.workers| :: s.workers[k];
    assert |pool + HeldConnections(s)| == |pool| + |HeldConnections(s)| - |pool * HeldConnections(s)|;
  }
}
