/**
 The aggregate callbacks of src/vgi_aggregate_function_impl.cpp: parallel states, lazily assigned
 group ids, and a worker that keeps one accumulator per group id. Id assignments and the rows and
 pairs of update and combine requests interleave in any order; the worker is given by its contract,
 a commutative monoid.
 */
module Aggregate {
  import opened AggregateStates

  /** How the worker accumulates: rows are lifted to accumulators and accumulators are merged. */
  datatype Algebra<!Row, !Acc> = Algebra(empty: Acc, lift: Row -> Acc, merge: (Acc, Acc) -> Acc)

  ghost predicate Neutral<Row, Acc>(w: Algebra<Row, Acc>, a: Acc) {
    w.merge(a, w.empty) == a
  }

  ghost predicate Commutes<Row, Acc>(w: Algebra<Row, Acc>, a: Acc, b: Acc) {
    w.merge(a, b) == w.merge(b, a)
  }

  ghost predicate Associates<Row, Acc>(w: Algebra<Row, Acc>, a: Acc, b: Acc, c: Acc) {
    w.merge(w.merge(a, b), c) == w.merge(a, w.merge(b, c))
  }

  ghost predicate CommutativeMonoid<Row(!new), Acc(!new)>(w: Algebra<Row, Acc>) {
    (forall a :: Neutral(w, a)) && (forall a, b :: Commutes(w, a, b)) && forall a, b, c :: Associates(w, a, b, c)
  }

  /** A row fed to the aggregate, with the group it belongs to. */
  datatype Fed<Row> = Fed(key: nat, row: Row)

  /**
   `keys` (the group) and `ids` (the group id) describe the live states; a combined source is no
   longer live. `log` is every row ever fed, `owner[i]` the live state that accounts for row `i`.
   */
  datatype State<Row, Acc> = State(
    keys: map<nat, nat>,
    ids: map<nat, int>,
    counter: nat,
    worker: map<int, Acc>,
    log: seq<Fed<Row>>,
    owner: seq<nat>
  )

  datatype Event<Row> =
    | Initialize(state: nat, key: nat)        // a fresh state for a group
    | Assign(state: nat)                      // first use: fetch_add on the group id counter
    | Feed(state: nat, row: Row)              // one row of an aggregate_update request
    | Join(source: nat, target: nat)          // one pair of an aggregate_combine request

  function Get<Acc>(m: map<int, Acc>, id: int, default: Acc): Acc {
    if id in m then m[id] else default
  }

  function Rename(owner: seq<nat>, source: nat, target: nat): (r: seq<nat>)
    ensures |r| == |owner|
  {
    seq(|owner|, i requires 0 <= i < |owner| => if owner[i] == source then target else owner[i])
  }

  predicate Ready<Row, Acc>(s: State<Row, Acc>, state: nat) {
    state in s.keys && state in s.ids && s.ids[state] != UNASSIGNED
  }

  ghost predicate Takes<Row, Acc>(w: Algebra<Row, Acc>, s: State<Row, Acc>, e: Event<Row>, t: State<Row, Acc>) {
    match e
    case Initialize(x, key) =>
      x !in s.keys && x !in s.ids && t == s.(keys := s.keys[x := key], ids := s.ids[x := UNASSIGNED])
    case Assign(x) =>
      x in s.ids && t == if s.ids[x] == UNASSIGNED then s.(ids := s.ids[x := s.counter], counter := s.counter + 1) else s
    case Feed(x, row) =>
      Ready(s, x) &&
      t == s.(worker := s.worker[s.ids[x] := w.merge(Get(s.worker, s.ids[x], w.empty), w.lift(row))],
              log := s.log + [Fed(s.keys[x], row)], owner := s.owner + [x])
    case Join(x, y) =>
      x != y && Ready(s, x) && Ready(s, y) && s.keys[x] == s.keys[y] &&
      t == s.(worker := s.worker[s.ids[y] := w.merge(Get(s.worker, s.ids[y], w.empty), Get(s.worker, s.ids[x], w.empty))],
              owner := Rename(s.owner, x, y), keys := s.keys - {x}, ids := s.ids - {x})
  }

  ghost predicate Init<Row, Acc>(s: State<Row, Acc>) {
    s == State(map[], map[], 0, map[], [], [])
  }

  // ---------------------------------------------------------------------------------------------
  // Folds
  // ---------------------------------------------------------------------------------------------

  /** The accumulator of exactly the rows that `x` owns. */
  function Owned<Row, Acc>(w: Algebra<Row, Acc>, log: seq<Fed<Row>>, owner: seq<nat>, x: nat): Acc
    requires |log| == |owner|
  {
    if log == [] then w.empty
    else
      var n := |log| - 1;
      var rest := Owned(w, log[..n], owner[..n], x);
      if owner[n] == x then w.merge(rest, w.lift(log[n].row)) else rest
  }

  function Fold<Row, Acc>(w: Algebra<Row, Acc>, rows: seq<Row>): Acc {
    if rows == [] then w.empty else w.merge(Fold(w, rows[..|rows| - 1]), w.lift(rows[|rows| - 1]))
  }

  /** The rows of group `key`, in the order they were fed. */
  function RowsOf<Row>(log: seq<Fed<Row>>, key: nat): seq<Row> {
    if log == [] then []
    else
      var n := |log| - 1;
      RowsOf(log[..n], key) + if log[n].key == key then [log[n].row] else []
  }

  lemma {:induction false} OwnedNothing<Row, Acc>(w: Algebra<Row, Acc>, log: seq<Fed<Row>>, owner: seq<nat>, x: nat)
    requires |log| == |owner| && x !in owner
    ensures Owned(w, log, owner, x) == w.empty
    decreases |log|
  {
    if log != [] { OwnedNothing(w, log[..|log| - 1], owner[..|log| - 1], x); }
  }

  /** Handing all rows of `x` to `y` merges their accumulators; nobody else's changes. */
  lemma {:induction false} OwnedRename<Row(!new), Acc(!new)>(
    w: Algebra<Row, Acc>, log: seq<Fed<Row>>, owner: seq<nat>, x: nat, y: nat, z: nat)
    requires CommutativeMonoid(w) && |log| == |owner| && x != y && z != x
    ensures Owned(w, log, Rename(owner, x, y), z) ==
            if z == y then w.merge(Owned(w, log, owner, y), Owned(w, log, owner, x)) else Owned(w, log, owner, z)
    decreases |log|
  {
    if log == [] {
      assert Neutral(w, w.empty);
    } else {
      var n := |log| - 1;
      OwnedRename(w, log[..n], owner[..n], x, y, z);
      assert Rename(owner, x, y)[..n] == Rename(owner[..n], x, y);
      var a, b, v := Owned(w, log[..n], owner[..n], y), Owned(w, log[..n], owner[..n], x), w.lift(log[n].row);
      MergeLast(w, a, b, v);
    }
  }

  lemma {:induction false} MergeLast<Row(!new), Acc(!new)>(w: Algebra<Row, Acc>, a: Acc, b: Acc, v: Acc)
    requires CommutativeMonoid(w)
    ensures w.merge(w.merge(a, b), v) == w.merge(a, w.merge(b, v)) == w.merge(w.merge(a, v), b)
  {
    assert Associates(w, a, b, v) && Commutes(w, b, v) && Associates(w, a, v, b);
  }

  /** A state that owns exactly the rows of a group holds the fold of the group. */
  lemma {:induction false} OwnedGroup<Row, Acc>(w: Algebra<Row, Acc>, log: seq<Fed<Row>>, owner: seq<nat>, x: nat,
                                                key: nat)
    requires |log| == |owner| && forall i :: 0 <= i < |log| ==> (owner[i] == x <==> log[i].key == key)
    ensures Owned(w, log, owner, x) == Fold(w, RowsOf(log, key))
    decreases |log|
  {
    if log != [] {
      var n := |log| - 1;
      OwnedGroup(w, log[..n], owner[..n], x, key);
      if log[n].key == key {
        assert RowsOf(log, key)[..|RowsOf(log, key)| - 1] == RowsOf(log[..n], key);
      } else {
        assert RowsOf(log, key) == RowsOf(log[..n], key);
      }
    }
  }

  // ---------------------------------------------------------------------------------------------
  // The invariant
  // ---------------------------------------------------------------------------------------------

  /** Group ids are handed out once and never shared. */
  ghost predicate IdsUnique<Row, Acc>(s: State<Row, Acc>) {
    s.keys.Keys == s.ids.Keys &&
    (forall x :: x in s.ids ==> UNASSIGNED <= s.ids[x] < s.counter) &&
    (forall x, y :: x in s.ids && y in s.ids && x != y && s.ids[x] != UNASSIGNED ==> s.ids[x] != s.ids[y]) &&
    forall id :: id in s.worker ==> 0 <= id < s.counter
  }

  /** Every row is accounted for by one live state, of its own group. */
  ghost predicate RowsOwned<Row, Acc>(s: State<Row, Acc>) {
    |s.log| == |s.owner| &&
    forall i :: 0 <= i < |s.log| ==> Ready(s, s.owner[i]) && s.keys[s.owner[i]] == s.log[i].key
  }

  /** The worker holds, per group id, the accumulator of the rows its state owns. */
  ghost predicate WorkerExact<Row, Acc>(w: Algebra<Row, Acc>, s: State<Row, Acc>)
    requires |s.log| == |s.owner|
  {
    forall x :: x in s.ids && s.ids[x] != UNASSIGNED ==>
      Get(s.worker, s.ids[x], w.empty) == Owned(w, s.log, s.owner, x)
  }

  ghost predicate Inv<Row, Acc>(w: Algebra<Row, Acc>, s: State<Row, Acc>) {
    IdsUnique(s) && RowsOwned(s) && WorkerExact(w, s)
  }

  lemma {:induction false} AssignKeeps<Row(!new), Acc(!new)>(
    w: Algebra<Row, Acc>, s: State<Row, Acc>, x: nat, t: State<Row, Acc>)
    requires Inv(w, s) && Takes(w, s, Assign(x), t)
    ensures Inv(w, t)
  {
    if s.ids[x] == UNASSIGNED {
      assert x !in s.owner;
      OwnedNothing(w, s.log, s.owner, x);
    }
  }

  lemma {:induction false} FeedKeeps<Row(!new), Acc(!new)>(
    w: Algebra<Row, Acc>, s: State<Row, Acc>, x: nat, row: Row, t: State<Row, Acc>)
    requires Inv(w, s) && Takes(w, s, Feed(x, row), t)
    ensures Inv(w, t)
  {
    assert t.log[..|s.log|] == s.log && t.owner[..|s.log|] == s.owner;
  }

  lemma {:induction false} JoinOwned<Row(!new), Acc(!new)>(w: Algebra<Row, Acc>, s: State<Row, Acc>, x: nat, y: nat)
    requires CommutativeMonoid(w) && |s.log| == |s.owner| && x != y
    ensures Owned(w, s.log, Rename(s.owner, x, y), y) == w.merge(Owned(w, s.log, s.owner, y), Owned(w, s.log, s.owner, x))
    ensures forall z :: z != x && z != y ==> Owned(w, s.log, Rename(s.owner, x, y), z) == Owned(w, s.log, s.owner, z)
  {
    OwnedRename(w, s.log, s.owner, x, y, y);
    forall z | z != x && z != y { OwnedRename(w, s.log, s.owner, x, y, z); }
  }

  lemma {:induction false} JoinShape<Row, Acc>(w: Algebra<Row, Acc>, s: State<Row, Acc>, x: nat, y: nat,
                                               t: State<Row, Acc>)
    requires Inv(w, s) && Takes(w, s, Join(x, y), t)
    ensures IdsUnique(t) && RowsOwned(t)
  {
    forall i | 0 <= i < |t.log| ensures Ready(t, t.owner[i]) && t.keys[t.owner[i]] == t.log[i].key {
      assert Ready(s, s.owner[i]);
    }
  }

  lemma {:induction false} JoinKeeps<Row(!new), Acc(!new)>(
    w: Algebra<Row, Acc>, s: State<Row, Acc>, x: nat, y: nat, t: State<Row, Acc>)
    requires CommutativeMonoid(w) && Inv(w, s) && Takes(w, s, Join(x, y), t)
    ensures Inv(w, t)
  {
    JoinOwned(w, s, x, y);
    JoinShape(w, s, x, y, t);
    JoinWorker(w, s, x, y, t);
  }

  lemma {:induction false} JoinWorker<Row, Acc>(w: Algebra<Row, Acc>, s: State<Row, Acc>, x: nat, y: nat,
                                                t: State<Row, Acc>)
    requires Inv(w, s) && Takes(w, s, Join(x, y), t)
    requires Owned(w, s.log, t.owner, y) == w.merge(Owned(w, s.log, s.owner, y), Owned(w, s.log, s.owner, x))
    requires forall z :: z != x && z != y ==> Owned(w, s.log, t.owner, z) == Owned(w, s.log, s.owner, z)
    ensures WorkerExact(w, t)
  {
  }

  lemma {:induction false} TakesKeeps<Row(!new), Acc(!new)>(
    w: Algebra<Row, Acc>, s: State<Row, Acc>, e: Event<Row>, t: State<Row, Acc>)
    requires CommutativeMonoid(w) && Inv(w, s) && Takes(w, s, e, t)
    ensures Inv(w, t)
  {
    match e
    case Initialize(x, key) =>
    case Assign(x) => AssignKeeps(w, s, x, t);
    case Feed(x, row) => FeedKeeps(w, s, x, row, t);
    case Join(x, y) => JoinKeeps(w, s, x, y, t);
  }

  // ---------------------------------------------------------------------------------------------
  // Runs
  // ---------------------------------------------------------------------------------------------

  ghost predicate Run<Row, Acc>(w: Algebra<Row, Acc>, states: seq<State<Row, Acc>>, events: seq<Event<Row>>) {
    |states| == |events| + 1 && Init(states[0]) &&
    forall i :: 0 <= i < |events| ==> Takes(w, states[i], events[i], states[i + 1])
  }

  lemma {:induction false} RunInv<Row(!new), Acc(!new)>(
    w: Algebra<Row, Acc>, states: seq<State<Row, Acc>>, events: seq<Event<Row>>, i: nat)
    requires CommutativeMonoid(w) && Run(w, states, events) && i < |states|
    ensures Inv(w, states[i])
  {
    if i > 0 {
      RunInv(w, states, events, i - 1);
      TakesKeeps(w, states[i - 1], events[i - 1], states[i]);
    }
  }

  /** Id `id` has been handed out, and to no live state but possibly `x`. */
  predicate OnlyOf<Row, Acc>(s: State<Row, Acc>, id: int, x: nat) {
    id < s.counter && forall y :: y in s.ids && s.ids[y] == id ==> y == x
  }

  lemma {:induction false} OnlyOfStep<Row(!new), Acc(!new)>(
    w: Algebra<Row, Acc>, s: State<Row, Acc>, e: Event<Row>, t: State<Row, Acc>, id: int, x: nat)
    requires Takes(w, s, e, t) && id != UNASSIGNED && OnlyOf(s, id, x)
    ensures OnlyOf(t, id, x)
    ensures x in s.ids && s.ids[x] == id && x in t.ids ==> t.ids[x] == id
  {
  }

  /** An id stays with its state for as long as that lives, and no other state ever gets it. */
  lemma {:induction false} AssignedOnce<Row(!new), Acc(!new)>(
    w: Algebra<Row, Acc>, states: seq<State<Row, Acc>>, events: seq<Event<Row>>, i: nat, j: nat, x: nat)
    requires CommutativeMonoid(w) && Run(w, states, events) && i <= j < |states| && Ready(states[i], x)
    ensures OnlyOf(states[j], states[i].ids[x], x)
    ensures (forall k :: i <= k <= j ==> x in states[k].ids) ==> states[j].ids[x] == states[i].ids[x]
    decreases j
  {
    RunInv(w, states, events, i);
    if i < j {
      AssignedOnce(w, states, events, i, j - 1, x);
      OnlyOfStep(w, states[j - 1], events[j - 1], states[j], states[i].ids[x], x);
    }
  }

  /** What aggregate_finalize reports for a state; a state that was never used has no accumulator yet. */
  function Finalize<Row, Acc>(w: Algebra<Row, Acc>, s: State<Row, Acc>, x: nat): Acc
    requires x in s.ids
  {
    if s.ids[x] == UNASSIGNED then w.empty else Get(s.worker, s.ids[x], w.empty)
  }

  /** All partial states of the group were combined into `x`. */
  predicate Sole<Row, Acc>(s: State<Row, Acc>, x: nat) {
    x in s.ids && x in s.keys && forall y :: y in s.keys && s.keys[y] == s.keys[x] ==> y == x
  }

  /**
   However the rows were spread over parallel states and however updates and combines interleaved,
   finalizing the state that is left of a group returns the fold of exactly that group's rows.
   */
  lemma {:induction false} FinalizeIsGroupFold<Row(!new), Acc(!new)>(
    w: Algebra<Row, Acc>, states: seq<State<Row, Acc>>, events: seq<Event<Row>>, i: nat, x: nat)
    requires CommutativeMonoid(w) && Run(w, states, events) && i < |states| && Sole(states[i], x)
    ensures Finalize(w, states[i], x) == Fold(w, RowsOf(states[i].log, states[i].keys[x]))
  {
    var s := states[i];
    RunInv(w, states, events, i);
    forall k | 0 <= k < |s.log| ensures s.owner[k] == x <==> s.log[k].key == s.keys[x] {
      assert Ready(s, s.owner[k]);
    }
    OwnedGroup(w, s.log, s.owner, x, s.keys[x]);
    if s.ids[x] == UNASSIGNED {
      assert x !in s.owner;
      OwnedNothing(w, s.log, s.owner, x);
    }
  }

  // The fold does not depend on the order either: only on which rows the group has.

  lemma {:induction false} FoldMoveToEnd<Row(!new), Acc(!new)>(w: Algebra<Row, Acc>, rows: seq<Row>, i: nat)
    requires CommutativeMonoid(w) && i < |rows|
    ensures Fold(w, rows) == w.merge(Fold(w, rows[..i] + rows[i + 1..]), w.lift(rows[i]))
    decreases |rows|
  {
    var n := |rows| - 1;
    if i == n {
      assert rows[..i] + rows[i + 1..] == rows[..n];
    } else {
      FoldMoveToEnd(w, rows[..n], i);
      var rest := rows[..i] + rows[i + 1..];
      assert rest[..n - 1] == rows[..n][..i] + rows[..n][i + 1..];
      assert rest[n - 1] == rows[n];
      MergeLast(w, Fold(w, rest[..n - 1]), w.lift(rows[n]), w.lift(rows[i]));
    }
  }

  lemma {:induction false} WithoutOne<Row>(rows: seq<Row>, i: nat)
    requires i < |rows|
    ensures multiset(rows[..i] + rows[i + 1..]) == multiset(rows) - multiset{rows[i]}
  {
    assert rows == rows[..i] + [rows[i]] + rows[i + 1..];
  }

  lemma {:induction false} FoldOfPermutation<Row(!new), Acc(!new)>(w: Algebra<Row, Acc>, a: seq<Row>, b: seq<Row>)
    requires CommutativeMonoid(w) && multiset(a) == multiset(b)
    ensures Fold(w, a) == Fold(w, b)
    decreases |a|
  {
    assert |a| == |multiset(a)| == |multiset(b)| == |b|;
    if a != [] {
      var n := |a| - 1;
      assert a[n] in multiset(a);
      var i :| 0 <= i < |b| && b[i] == a[n];
      FoldMoveToEnd(w, b, i);
      WithoutOne(a, n);
      WithoutOne(b, i);
      assert a[..n] + a[n + 1..] == a[..n];
      FoldOfPermutation(w, a[..n], b[..i] + b[i + 1..]);
    }
  }

  /** Two runs that feed a group the same rows report the same result for it. */
  lemma {:induction false} ResultIndependentOfSchedule<Row(!new), Acc(!new)>(
    w: Algebra<Row, Acc>,
    states: seq<State<Row, Acc>>, events: seq<Event<Row>>, i: nat, x: nat,
    states2: seq<State<Row, Acc>>, events2: seq<Event<Row>>, j: nat, y: nat)
    requires CommutativeMonoid(w)
    requires Run(w, states, events) && i < |states| && Sole(states[i], x)
    requires Run(w, states2, events2) && j < |states2| && Sole(states2[j], y)
    requires multiset(RowsOf(states[i].log, states[i].keys[x])) == multiset(RowsOf(states2[j].log, states2[j].keys[y]))
    ensures Finalize(w, states[i], x) == Finalize(w, states2[j], y)
  {
    FinalizeIsGroupFold(w, states, events, i, x);
    FinalizeIsGroupFold(w, states2, events2, j, y);
    FoldOfPermutation(w, RowsOf(states[i].log, states[i].keys[x]), RowsOf(states2[j].log, states2[j].keys[y]));
  }
}
