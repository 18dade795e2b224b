/**
 The id-assignment loops shared by `VgiAggregateUpdate`, `VgiAggregateCombine` and
 `VgiAggregateFinalize` (src/vgi_aggregate_function_impl.cpp), on the state objects themselves. A
 vector of states may name the same object many times, and source and target vectors may overlap.
 */
module AggregateStates {

  datatype Tag = UNSET | AGGREGATE | WINDOW

  const UNASSIGNED: int := -1

  class AggregateState {
    var tag: Tag
    var groupId: int

    constructor ()
      ensures tag == UNSET && groupId == UNASSIGNED
    {
      tag, groupId := UNSET, UNASSIGNED;
    }
  }

  class ExecState {
    var groupIdCounter: nat

    constructor ()
      ensures groupIdCounter == 0
    {
      groupIdCounter := 0;
    }
  }

  /** Among `all` states, ids in use are below the counter and belong to one state each. */
  ghost predicate IdsUnique(all: set<AggregateState>, exec: ExecState)
    reads all, exec
  {
    (forall s :: s in all ==> UNASSIGNED <= s.groupId < exec.groupIdCounter) &&
    forall s, t :: s in all && t in all && s != t && s.groupId != UNASSIGNED ==> s.groupId != t.groupId
  }

  /** An id never changes; a new one comes from the counter. */
  predicate Kept(now: int, before: int, counter: nat) {
    now == before || (before == UNASSIGNED && now >= counter)
  }

  /** How many ids other threads take before each of the first `n` steps, in all. */
  function Elsewhere(ahead: nat -> nat, n: nat): nat {
    if n == 0 then 0 else Elsewhere(ahead, n - 1) + ahead(n - 1)
  }

  /** The `m`th id given out, at step `h`. */
  predicate IsNext(start: nat, ahead: nat -> nat, m: nat, h: nat, id: int) {
    id == start + m + Elsewhere(ahead, h + 1)
  }

  /** Positions in increasing order, all below `n`. */
  predicate Rising(positions: seq<nat>, n: nat) {
    (forall m :: 0 <= m < |positions| ==> positions[m] < n) &&
    forall a, b :: 0 <= a < b < |positions| ==> positions[a] < positions[b]
  }

  /**
   First use of a state: takes the next id if it has none, and marks it as an aggregate state. Just
   before, other threads have taken `ahead` ids from the shared counter.
   */
  method Touch(s: AggregateState, exec: ExecState, ahead: nat, ghost all: set<AggregateState>)
    requires IdsUnique(all, exec) && s in all
    modifies s, exec
    ensures IdsUnique(all, exec) && s.tag == AGGREGATE
    ensures s.groupId == if old(s.groupId) == UNASSIGNED then old(exec.groupIdCounter) + ahead else old(s.groupId)
    ensures exec.groupIdCounter == old(exec.groupIdCounter) + ahead + if old(s.groupId) == UNASSIGNED then 1 else 0
  {
    exec.groupIdCounter := exec.groupIdCounter + ahead;
    if s.groupId == UNASSIGNED {
      s.groupId := exec.groupIdCounter;
      exec.groupIdCounter := exec.groupIdCounter + 1;
    }
    s.tag := AGGREGATE;
  }

  /**
   Gives every state of the vector an id and the aggregate tag, while other threads take ids too:
   `ahead(k)` of them before step `k`. A state that had an id keeps it; `holders` are the positions of
   the states newly numbered, each with the id that is then next; the counter moves by the ids given
   out here and elsewhere; and ids stay unique among all states this thread sees.
   */
  method AssignGroupIds(v: seq<AggregateState>, exec: ExecState, ahead: nat -> nat, ghost all: set<AggregateState>)
    returns (ghost holders: seq<nat>)
    requires IdsUnique(all, exec) && forall k :: 0 <= k < |v| ==> v[k] in all
    modifies all, exec
    ensures IdsUnique(all, exec)
    ensures forall k :: 0 <= k < |v| ==> v[k].groupId != UNASSIGNED && v[k].tag == AGGREGATE
    ensures forall s :: s in all ==> Kept(s.groupId, old(s.groupId), old(exec.groupIdCounter))
    ensures forall s :: s in all && s !in v ==> s.groupId == old(s.groupId) && s.tag == old(s.tag)
    ensures exec.groupIdCounter == old(exec.groupIdCounter) + |holders| + Elsewhere(ahead, |v|)
    ensures Rising(holders, |v|)
    ensures forall m :: 0 <= m < |holders| ==> old(v[holders[m]].groupId) == UNASSIGNED
    ensures forall m :: 0 <= m < |holders| ==>
      IsNext(old(exec.groupIdCounter), ahead, m, holders[m], v[holders[m]].groupId)
  {
    holders := [];
    for i := 0 to |v|
      invariant IdsUnique(all, exec)
      invariant forall k :: 0 <= k < i ==> v[k].groupId != UNASSIGNED && v[k].tag == AGGREGATE
      invariant forall s :: s in all ==>
        Kept(s.groupId, old(s.groupId), old(exec.groupIdCounter)) &&
        (s !in v ==> s.groupId == old(s.groupId) && s.tag == old(s.tag))
      invariant exec.groupIdCounter == old(exec.groupIdCounter) + |holders| + Elsewhere(ahead, i)
      invariant Rising(holders, i)
      invariant forall m :: 0 <= m < |holders| ==>
        v[holders[m]].groupId != UNASSIGNED &&
        IsNext(old(exec.groupIdCounter), ahead, m, holders[m], v[holders[m]].groupId)
    {
      if v[i].groupId == UNASSIGNED {
        assert Kept(v[i].groupId, old(v[i].groupId), old(exec.groupIdCounter));
        holders := holders + [i];
      }
      Touch(v[i], exec, ahead(i), all);
    }
    forall m | 0 <= m < |holders| ensures old(v[holders[m]].groupId) == UNASSIGNED {
      assert Kept(v[holders[m]].groupId, old(v[holders[m]].groupId), old(exec.groupIdCounter));
    }
  }

  /** The ids taken elsewhere before step `k`, when `m` ids were given out here before it. */
  predicate TakenElsewhere(start: nat, ahead: nat -> nat, m: nat, k: nat, id: int) {
    start + m + Elsewhere(ahead, k) <= id < start + m + Elsewhere(ahead, k + 1)
  }

  lemma {:induction false} ElsewhereGrows(ahead: nat -> nat, j: nat, k: nat)
    requires j <= k
    ensures Elsewhere(ahead, j) <= Elsewhere(ahead, k)
    decreases k
  {
    if j < k { ElsewhereGrows(ahead, j, k - 1); }
  }

  /** Newly given ids are none that another thread took before, between or after. */
  lemma {:induction false} NewIdsAreOwn(start: nat, ahead: nat -> nat, holders: seq<nat>, m: nat, k: nat, given: nat,
                                        own: int, id: int)
    requires m < |holders| && given <= |holders| && forall a :: 0 <= a < |holders| ==> (a < given <==> holders[a] < k)
    requires IsNext(start, ahead, m, holders[m], own) && TakenElsewhere(start, ahead, given, k, id)
    ensures id != own
  {
    if m < given {
      ElsewhereGrows(ahead, holders[m] + 1, k);
    } else {
      ElsewhereGrows(ahead, k + 1, holders[m] + 1);
    }
  }
}
