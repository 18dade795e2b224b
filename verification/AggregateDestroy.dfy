/**
 The last-one-out destructor of `VgiAggregateDestroy` (src/vgi_aggregate_function_impl.cpp).
 Batches of states are destroyed concurrently: each counts its states that have a group id, adds the
 count to `destroy_counter`, then loads `group_id_counter` and sends the worker-side destructor
 unless its running total is still below it. Ids may be handed out between any two of these steps.
 */
module AggregateDestroy {

  /**
   Where a destroy batch is. `upTo` is prev + n, the running total its fetch_add produced; `rank` is
   the position of that fetch_add among all of them.
   */
  datatype Pc =
    | Adding(ids: set<nat>)
    | Loading(upTo: nat, rank: nat)
    | Sent(rank: nat)
    | Late(rank: nat)
    | GaveUp

  /** One completed fetch_add, in the order they happened: whose, over which ids, and its total. */
  datatype Added = Added(batch: nat, ids: set<nat>, upTo: nat)

  datatype State = State(
    created: nat,                // group_id_counter: ids 0 .. created-1 have been handed out
    destroyed: nat,              // destroy_counter
    batches: map<nat, Pc>,
    owner: map<nat, nat>,        // history: which destroy call each destroyed id was passed to
    added: seq<Added>,           // history of the fetch_adds
    sends: seq<nat>              // history of the destructor calls: the batches that sent them
  )

  datatype Event =
    | HandOut                              // an update, combine or finalize assigns an id
    | Destroy(batch: nat, ids: set<nat>)   // a destroy call counts its states
    | GiveUp(batch: nat)                   // the client context is gone: return silently
    | Add(batch: nat)                      // destroy_counter.fetch_add(n)
    | Load(batch: nat)                     // group_id_counter.load() and the comparison

  ghost predicate Takes(s: State, e: Event, t: State) {
    match e
    case HandOut => t == s.(created := s.created + 1)
    case Destroy(b, ids) =>
      b !in s.batches && ids != {} && (forall id :: id in ids ==> id < s.created && id !in s.owner) &&
      t == s.(batches := s.batches[b := Adding(ids)], owner := s.owner + map id | id in ids :: b)
    case GiveUp(b) => b in s.batches && s.batches[b].Adding? && t == s.(batches := s.batches[b := GaveUp])
    case Add(b) =>
      b in s.batches && s.batches[b].Adding? &&
      var ids := s.batches[b].ids;
      var upTo := s.destroyed + |ids|;
      t == s.(destroyed := upTo, batches := s.batches[b := Loading(upTo, |s.added|)],
              added := s.added + [Added(b, ids, upTo)])
    case Load(b) =>
      b in s.batches && s.batches[b].Loading? &&
      var rank := s.batches[b].rank;
      t == if s.batches[b].upTo < s.created then s.(batches := s.batches[b := Late(rank)])
           else s.(batches := s.batches[b := Sent(rank)], sends := s.sends + [b])
  }

  predicate Init(s: State) {
    s == State(0, 0, map[], map[], [], [])
  }

  // ---------------------------------------------------------------------------------------------
  // Counting
  // ---------------------------------------------------------------------------------------------

  /** What the counter holds after the first `n` fetch_adds. */
  function TotalAt(added: seq<Added>, n: nat): nat
    requires n <= |added|
  {
    if n == 0 then 0 else added[n - 1].upTo
  }

  predicate Steps(added: seq<Added>, k: nat)
    requires k < |added|
  {
    added[k].ids != {} && added[k].upTo == TotalAt(added, k) + |added[k].ids|
  }

  predicate Totalled(added: seq<Added>) {
    forall k :: 0 <= k < |added| ==> Steps(added, k)
  }

  /** Every id counted by the first `n` fetch_adds. */
  function Counted(added: seq<Added>, n: nat): set<nat>
    requires n <= |added|
  {
    if n == 0 then {} else Counted(added, n - 1) + added[n - 1].ids
  }

  predicate Disjoint(added: seq<Added>) {
    forall i, j :: 0 <= i < j < |added| ==> added[i].ids !! added[j].ids
  }

  lemma {:induction false} CountedFrom(added: seq<Added>, n: nat, k: nat)
    requires n <= k < |added| && Disjoint(added)
    ensures Counted(added, n) !! added[k].ids
  {
    if n > 0 { CountedFrom(added, n - 1, k); }
  }

  /** No id is counted twice, so the counter is the number of different ids counted. */
  lemma {:induction false} TotalIsCardinality(added: seq<Added>, n: nat)
    requires n <= |added| && Disjoint(added) && Totalled(added)
    ensures TotalAt(added, n) == |Counted(added, n)|
  {
    if n > 0 {
      TotalIsCardinality(added, n - 1);
      CountedFrom(added, n - 1, n - 1);
      assert Steps(added, n - 1);
    }
  }

  lemma {:induction false} TotalsGrow(added: seq<Added>, m: nat, n: nat)
    requires m < n <= |added| && Totalled(added)
    ensures TotalAt(added, m) < TotalAt(added, n)
    decreases n
  {
    assert Steps(added, n - 1) && |added[n - 1].ids| > 0;
    if m < n - 1 { TotalsGrow(added, m, n - 1); }
  }

  /** The ids handed out so far. */
  function Below(n: nat): (r: set<nat>)
    ensures |r| == n && forall k :: k in r <==> 0 <= k < n
  {
    if n == 0 then {} else Below(n - 1) + {n - 1}
  }

  lemma {:induction false} SubsetSize(a: set<nat>, b: set<nat>)
    requires a <= b
    ensures |a| <= |b|
    ensures |a| == |b| ==> a == b
  {
    assert |b - a| == |b| - |a|;
  }

  // ---------------------------------------------------------------------------------------------
  // The invariant
  // ---------------------------------------------------------------------------------------------

  predicate Owns(s: State, b: nat, ids: set<nat>) {
    ids != {} && forall id :: id in ids ==> id in s.owner && s.owner[id] == b
  }

  /** The ids a batch took are handed out and its own. */
  predicate Claims(s: State) {
    (forall id :: id in s.owner ==> id < s.created) &&
    (forall b :: b in s.batches && s.batches[b].Adding? ==> Owns(s, b, s.batches[b].ids)) &&
    forall k :: 0 <= k < |s.added| ==> Owns(s, s.added[k].batch, s.added[k].ids)
  }

  predicate Ranked(pc: Pc) {
    pc.Loading? || pc.Sent? || pc.Late?
  }

  /** A batch past its fetch_add is the one the history names at its rank. */
  predicate Ranks(s: State) {
    (forall b :: b in s.batches && Ranked(s.batches[b]) ==>
       s.batches[b].rank < |s.added| && s.added[s.batches[b].rank].batch == b) &&
    (forall b :: b in s.batches && s.batches[b].Loading? ==>
       s.batches[b].rank < |s.added| && s.batches[b].upTo == s.added[s.batches[b].rank].upTo) &&
    forall k :: 0 <= k < |s.added| ==>
      s.added[k].batch in s.batches && Ranked(s.batches[s.added[k].batch]) && s.batches[s.added[k].batch].rank == k
  }

  predicate Sends(s: State) {
    (forall k :: 0 <= k < |s.sends| ==> s.sends[k] in s.batches && s.batches[s.sends[k]].Sent?) &&
    (forall b :: b in s.batches && s.batches[b].Sent? ==> b in s.sends) &&
    forall i, j :: 0 <= i < j < |s.sends| ==> s.sends[i] != s.sends[j]
  }

  predicate Inv(s: State) {
    s.destroyed == TotalAt(s.added, |s.added|) && Totalled(s.added) && Claims(s) && Ranks(s) && Sends(s)
  }

  lemma {:induction false} AddTotals(s: State, b: nat, t: State)
    requires Inv(s) && Takes(s, Add(b), t)
    ensures t.destroyed == TotalAt(t.added, |t.added|) && Totalled(t.added)
  {
    assert Owns(s, b, s.batches[b].ids);
    forall k | 0 <= k < |t.added| ensures Steps(t.added, k) {
      if k < |s.added| { assert Steps(s.added, k); }
    }
  }

  lemma {:induction false} AddClaims(s: State, b: nat, t: State)
    requires Claims(s) && Takes(s, Add(b), t)
    ensures Claims(t)
  {
    forall k | 0 <= k < |t.added| ensures Owns(t, t.added[k].batch, t.added[k].ids) {
      assert k < |s.added| ==> Owns(s, s.added[k].batch, s.added[k].ids);
      assert Owns(s, b, s.batches[b].ids);
    }
    forall c | c in t.batches && t.batches[c].Adding? ensures Owns(t, c, t.batches[c].ids) {
      assert Owns(s, c, s.batches[c].ids);
    }
  }

  lemma {:induction false} AddRanks(s: State, b: nat, t: State)
    requires Ranks(s) && Takes(s, Add(b), t)
    ensures Ranks(t)
  {
  }

  lemma {:induction false} AddSends(s: State, b: nat, t: State)
    requires Sends(s) && Takes(s, Add(b), t)
    ensures Sends(t)
  {
  }

  lemma {:induction false} LoadClaims(s: State, b: nat, t: State)
    requires Claims(s) && Takes(s, Load(b), t)
    ensures Claims(t)
  {
    forall k | 0 <= k < |t.added| ensures Owns(t, t.added[k].batch, t.added[k].ids) {
      assert Owns(s, s.added[k].batch, s.added[k].ids);
    }
    forall c | c in t.batches && t.batches[c].Adding? ensures Owns(t, c, t.batches[c].ids) {
      assert Owns(s, c, s.batches[c].ids);
    }
  }

  lemma {:induction false} LoadRanks(s: State, b: nat, t: State)
    requires Ranks(s) && Takes(s, Load(b), t)
    ensures Ranks(t)
  {
  }

  lemma {:induction false} LoadSends(s: State, b: nat, t: State)
    requires Sends(s) && Takes(s, Load(b), t)
    ensures Sends(t)
  {
    if t.sends != s.sends {
      assert t.sends[|s.sends|] == b;
      forall c | c in t.batches && t.batches[c].Sent? ensures c in t.sends {
        if c != b { assert c in s.sends; }
      }
    }
  }

  lemma {:induction false} DestroyClaims(s: State, b: nat, ids: set<nat>, t: State)
    requires Claims(s) && Takes(s, Destroy(b, ids), t)
    ensures Claims(t)
  {
    assert Owns(t, b, ids);
    forall k | 0 <= k < |s.added| ensures Owns(t, s.added[k].batch, s.added[k].ids) {
      assert Owns(s, s.added[k].batch, s.added[k].ids);
    }
    forall c | c in s.batches && s.batches[c].Adding? ensures Owns(t, c, s.batches[c].ids) {
      assert Owns(s, c, s.batches[c].ids);
    }
  }

  lemma {:induction false} DestroyKeeps(s: State, b: nat, ids: set<nat>, t: State)
    requires Inv(s) && Takes(s, Destroy(b, ids), t)
    ensures Inv(t)
  {
    DestroyClaims(s, b, ids, t);
  }

  lemma {:induction false} GiveUpKeeps(s: State, b: nat, t: State)
    requires Inv(s) && Takes(s, GiveUp(b), t)
    ensures Inv(t)
  {
  }

  lemma {:induction false} TakesKeeps(s: State, e: Event, t: State)
    requires Inv(s) && Takes(s, e, t)
    ensures Inv(t)
  {
    match e
    case Add(b) => AddTotals(s, b, t); AddClaims(s, b, t); AddRanks(s, b, t); AddSends(s, b, t);
    case Load(b) => LoadClaims(s, b, t); LoadRanks(s, b, t); LoadSends(s, b, t);
    case Destroy(b, ids) => DestroyKeeps(s, b, ids, t);
    case GiveUp(b) => GiveUpKeeps(s, b, t);
    case HandOut =>
  }

  // ---------------------------------------------------------------------------------------------
  // Runs
  // ---------------------------------------------------------------------------------------------

  ghost predicate Run(states: seq<State>, events: seq<Event>) {
    |states| == |events| + 1 && Init(states[0]) &&
    forall i :: 0 <= i < |events| ==> Takes(states[i], events[i], states[i + 1])
  }

  lemma {:induction false} RunInv(states: seq<State>, events: seq<Event>, i: nat)
    requires Run(states, events) && i < |states|
    ensures Inv(states[i])
  {
    if i > 0 {
      RunInv(states, events, i - 1);
      TakesKeeps(states[i - 1], events[i - 1], states[i]);
    }
  }

  lemma {:induction false} AddedDisjoint(s: State)
    requires Claims(s) && Ranks(s)
    ensures Disjoint(s.added)
  {
    forall i, j | 0 <= i < j < |s.added| ensures s.added[i].ids !! s.added[j].ids {
      assert Owns(s, s.added[i].batch, s.added[i].ids) && Owns(s, s.added[j].batch, s.added[j].ids);
      assert s.added[i].batch != s.added[j].batch;
    }
  }

  lemma {:induction false} CountedHandedOut(s: State, n: nat)
    requires Claims(s) && n <= |s.added|
    ensures Counted(s.added, n) <= Below(s.created)
  {
    if n > 0 {
      CountedHandedOut(s, n - 1);
      assert Owns(s, s.added[n - 1].batch, s.added[n - 1].ids);
    }
  }

  /** The ids counted so far. */
  function AllCounted(s: State): set<nat> {
    Counted(s.added, |s.added|)
  }

  lemma {:induction false} CountedWithinCreated(s: State)
    requires Inv(s)
    ensures AllCounted(s) <= Below(s.created) && s.destroyed == |AllCounted(s)| <= s.created
    ensures s.destroyed == s.created ==> AllCounted(s) == Below(s.created)
  {
    AddedDisjoint(s);
    TotalIsCardinality(s.added, |s.added|);
    CountedHandedOut(s, |s.added|);
    SubsetSize(AllCounted(s), Below(s.created));
  }

  lemma {:induction false} UpToIsBelowTotal(s: State, k: nat)
    requires Inv(s) && k < |s.added|
    ensures s.added[k].upTo <= s.destroyed
    ensures s.added[k].upTo == s.destroyed ==> k == |s.added| - 1
  {
    if k + 1 < |s.added| { TotalsGrow(s.added, k + 1, |s.added|); }
  }

  /** The destructor is sent only when every id handed out so far has been counted destroyed. */
  lemma {:induction false} SentOnlyWhenAllCounted(states: seq<State>, events: seq<Event>, i: nat)
    requires Run(states, events) && i < |events| && states[i + 1].sends != states[i].sends
    ensures AllCounted(states[i]) == Below(states[i].created)
    ensures exists b :: events[i] == Load(b) && states[i + 1].sends == states[i].sends + [b]
  {
    var s, e := states[i], events[i];
    RunInv(states, events, i);
    assert Takes(s, e, states[i + 1]);
    assert e.Load? && e == Load(e.batch);
    CountedWithinCreated(s);
    UpToIsBelowTotal(s, s.batches[e.batch].rank);
  }

  // ---------------------------------------------------------------------------------------------
  // How often it is sent
  // ---------------------------------------------------------------------------------------------

  /** Before step `i`, no id was handed out once the destructor had been sent. */
  predicate NoneAfterASend(states: seq<State>, events: seq<Event>, i: nat)
    requires i <= |states| && i <= |events|
  {
    forall k :: 0 <= k < i && events[k].HandOut? ==> states[k].sends == []
  }

  /** Either nothing has been sent, or the batch that completed the count sent it, and it is complete. */
  predicate SentByLast(s: State) {
    s.sends == [] ||
    (s.destroyed == s.created && s.added != [] && s.sends == [s.added[|s.added| - 1].batch])
  }

  lemma {:induction false} SentByLastAdd(s: State, b: nat, t: State)
    requires Inv(s) && Inv(t) && SentByLast(s) && Takes(s, Add(b), t)
    ensures SentByLast(t)
  {
    assert Owns(s, b, s.batches[b].ids) && |s.batches[b].ids| > 0;
    CountedWithinCreated(t);
  }

  lemma {:induction false} SentByLastLoad(s: State, b: nat, t: State)
    requires Inv(s) && SentByLast(s) && Takes(s, Load(b), t)
    ensures SentByLast(t)
  {
    var rank := s.batches[b].rank;
    CountedWithinCreated(s);
    UpToIsBelowTotal(s, rank);
    assert s.added[rank].batch == b && s.batches[b].upTo == s.added[rank].upTo;
    if s.sends != [] { assert s.sends[0] in s.batches && s.batches[s.sends[0]].Sent?; }
  }

  lemma {:induction false} RunSentByLast(states: seq<State>, events: seq<Event>, i: nat)
    requires Run(states, events) && i <= |events| && NoneAfterASend(states, events, i)
    ensures SentByLast(states[i])
  {
    if i > 0 {
      var s, t := states[i - 1], states[i];
      RunSentByLast(states, events, i - 1);
      RunInv(states, events, i - 1);
      RunInv(states, events, i);
      assert Takes(s, events[i - 1], t);
      match events[i - 1]
      case Add(b) => SentByLastAdd(s, b, t);
      case Load(b) => SentByLastLoad(s, b, t);
      case _ =>
    }
  }

  /** With no id handed out after a send, the destructor is sent at most once. */
  lemma {:induction false} SentAtMostOnce(states: seq<State>, events: seq<Event>, i: nat)
    requires Run(states, events) && i <= |events| && NoneAfterASend(states, events, i)
    ensures |states[i].sends| <= 1
  {
    RunSentByLast(states, events, i);
  }

  /** A batch that did not send had its running total below what has been handed out. */
  predicate LateBelow(s: State) {
    forall b :: b in s.batches && s.batches[b].Late? ==>
      s.batches[b].rank < |s.added| && s.added[s.batches[b].rank].upTo < s.created
  }

  lemma {:induction false} LateBelowAdd(s: State, b: nat, t: State)
    requires LateBelow(s) && Takes(s, Add(b), t)
    ensures LateBelow(t)
  {
  }

  lemma {:induction false} LateBelowLoad(s: State, b: nat, t: State)
    requires Ranks(s) && LateBelow(s) && Takes(s, Load(b), t)
    ensures LateBelow(t)
  {
  }

  lemma {:induction false} RunLateBelow(states: seq<State>, events: seq<Event>, i: nat)
    requires Run(states, events) && i < |states|
    ensures LateBelow(states[i])
  {
    if i > 0 {
      var s, t := states[i - 1], states[i];
      RunLateBelow(states, events, i - 1);
      RunInv(states, events, i - 1);
      assert Takes(s, events[i - 1], t);
      match events[i - 1]
      case Add(b) => LateBelowAdd(s, b, t);
      case Load(b) => LateBelowLoad(s, b, t);
      case _ =>
    }
  }

  /** Every state has been destroyed and every destroy call has returned. */
  predicate Complete(s: State) {
    s.created > 0 && AllCounted(s) == Below(s.created) &&
    forall b :: b in s.batches ==> !s.batches[b].Adding? && !s.batches[b].Loading?
  }

  /** Then the batch whose fetch_add completed the count has sent the destructor. */
  lemma {:induction false} LastHasSent(states: seq<State>, events: seq<Event>, i: nat) returns (b: nat)
    requires Run(states, events) && i <= |events| && Complete(states[i])
    ensures b in states[i].sends && states[i].added != [] && states[i].added[|states[i].added| - 1].batch == b
    ensures states[i].destroyed == states[i].created
  {
    var s := states[i];
    RunInv(states, events, i);
    RunLateBelow(states, events, i);
    CountedWithinCreated(s);
    b := s.added[|s.added| - 1].batch;
    assert Ranked(s.batches[b]) && s.batches[b].rank == |s.added| - 1;
  }

  lemma {:induction false} HistoryGrows(states: seq<State>, events: seq<Event>, k: nat, i: nat)
    requires Run(states, events) && k <= i <= |events|
    ensures states[k].sends <= states[i].sends && states[k].added <= states[i].added
    ensures states[k].created <= states[i].created
    decreases i
  {
    if k < i {
      HistoryGrows(states, events, k, i - 1);
      assert Takes(states[i - 1], events[i - 1], states[i]);
    }
  }

  /** A batch that had sent before the last id was handed out is not the one that completed the count. */
  lemma {:induction false} SenderIsNotLast(s: State, t: State, b: nat)
    requires Inv(s) && Ranks(t) && s.added <= t.added && b in s.batches && s.batches[b].Sent?
    requires s.created < t.created == TotalAt(t.added, |t.added|)
    ensures t.added != [] && t.added[|t.added| - 1].batch != b
  {
    var rank := s.batches[b].rank;
    assert t.added[rank] == s.added[rank];
    assert t.batches[t.added[rank].batch].rank == rank;
    UpToIsBelowTotal(s, rank);
    CountedWithinCreated(s);
  }

  /** An id handed out after a send is counted by a later batch, which sends again. */
  lemma {:induction false} SentAgain(states: seq<State>, events: seq<Event>, k: nat, i: nat)
    requires Run(states, events) && k < i <= |events| && Complete(states[i])
    requires events[k].HandOut? && states[k].sends != []
    ensures |states[i].sends| > 1
  {
    RunInv(states, events, k);
    RunInv(states, events, i);
    assert Takes(states[k], events[k], states[k + 1]);
    HistoryGrows(states, events, k, i);
    HistoryGrows(states, events, k + 1, i);
    var last := LastHasSent(states, events, i);
    TwoSenders(states[k], states[i], last);
  }

  lemma {:induction false} TwoSenders(s: State, t: State, last: nat)
    requires Inv(s) && Inv(t) && s.added <= t.added && s.sends != [] && s.sends <= t.sends
    requires s.created < t.created == t.destroyed
    requires last in t.sends && t.added != [] && t.added[|t.added| - 1].batch == last
    ensures |t.sends| > 1
  {
    var first := s.sends[0];
    SenderIsNotLast(s, t, first);
    assert t.sends[0] == first != last;
  }

  /**
   When every state has been destroyed and every destroy call has returned, the destructor has been
   sent, and exactly once if and only if no id was handed out after a send.
   */
  lemma {:induction false} SentOnceIff(states: seq<State>, events: seq<Event>, i: nat)
    requires Run(states, events) && i <= |events| && Complete(states[i])
    ensures |states[i].sends| >= 1
    ensures |states[i].sends| == 1 <==> NoneAfterASend(states, events, i)
  {
    var b := LastHasSent(states, events, i);
    if NoneAfterASend(states, events, i) {
      SentAtMostOnce(states, events, i);
    } else {
      var k :| 0 <= k < i && events[k].HandOut? && states[k].sends != [];
      SentAgain(states, events, k, i);
    }
  }

  /** All ids are handed out by the first `f` events; then destroying begins. */
  predicate HandedOutFirst(events: seq<Event>, f: nat) {
    f <= |events| && forall i :: 0 <= i < |events| ==> (events[i].HandOut? <==> i < f)
  }

  lemma {:induction false} HandingOut(states: seq<State>, events: seq<Event>, f: nat, i: nat)
    requires Run(states, events) && HandedOutFirst(events, f) && i <= f
    ensures states[i] == State(i, 0, map[], map[], [], [])
  {
    if i > 0 {
      HandingOut(states, events, f, i - 1);
      assert Takes(states[i - 1], events[i - 1], states[i]);
    }
  }

  /** In particular exactly once when all ids are handed out before destroying begins. */
  lemma {:induction false} SentExactlyOnce(states: seq<State>, events: seq<Event>, f: nat, i: nat)
    requires Run(states, events) && HandedOutFirst(events, f) && f <= i <= |events|
    ensures |states[i].sends| <= 1
    ensures Complete(states[i]) ==> |states[i].sends| == 1
  {
    forall k | 0 <= k < i && events[k].HandOut? ensures states[k].sends == [] {
      HandingOut(states, events, f, k);
    }
    SentAtMostOnce(states, events, i);
    if Complete(states[i]) { SentOnceIff(states, events, i); }
  }

  lemma {:induction false} RunExtends(states: seq<State>, events: seq<Event>, e: Event, t: State)
    requires Run(states, events) && Takes(states[|events|], e, t)
    ensures Run(states + [t], events + [e])
  {
    var longer, taken := states + [t], events + [e];
    forall i | 0 <= i < |taken| ensures Takes(longer[i], taken[i], longer[i + 1]) {
      if i < |events| { assert Takes(states[i], events[i], states[i + 1]); }
    }
  }

  /** Everything handed out so far is destroyed, by calls numbered below `created`. */
  predicate Quiet(s: State) {
    s.destroyed == s.created && (forall id :: id in s.owner ==> id < s.created) &&
    forall b :: b in s.batches ==> b < s.created
  }

  /** One more id, handed out and destroyed at once, makes the destructor be sent once more. */
  lemma {:induction false} OneMoreSend(states: seq<State>, events: seq<Event>)
    returns (longer: seq<State>, taken: seq<Event>)
    requires Run(states, events) && Quiet(states[|events|])
    ensures Run(longer, taken) && Quiet(longer[|taken|])
    ensures |longer[|taken|].sends| == |states[|events|].sends| + 1
  {
    var s := states[|events|];
    var id := s.created;
    var ids := {id};
    var handed := s.(created := id + 1);
    var adding := handed.(batches := s.batches[id := Adding(ids)], owner := s.owner + map k | k in ids :: id);
    var loading := adding.(destroyed := id + 1, batches := adding.batches[id := Loading(id + 1, |s.added|)],
                           added := s.added + [Added(id, ids, id + 1)]);
    var sent := loading.(batches := loading.batches[id := Sent(|s.added|)], sends := s.sends + [id]);
    RunExtends(states, events, HandOut, handed);
    RunExtends(states + [handed], events + [HandOut], Destroy(id, ids), adding);
    longer, taken := states + [handed] + [adding], events + [HandOut] + [Destroy(id, ids)];
    RunExtends(longer, taken, Add(id), loading);
    longer, taken := longer + [loading], taken + [Add(id)];
    RunExtends(longer, taken, Load(id), sent);
    longer, taken := longer + [sent], taken + [Load(id)];
  }

  /** Ids handed out after destroying began can make the destructor be sent any number of times. */
  lemma {:induction false} HandingOutLateSendsAgain(n: nat) returns (states: seq<State>, events: seq<Event>)
    ensures Run(states, events) && Quiet(states[|events|]) && |states[|events|].sends| == n
  {
    if n == 0 {
      states, events := [State(0, 0, map[], map[], [], [])], [];
    } else {
      states, events := HandingOutLateSendsAgain(n - 1);
      states, events := OneMoreSend(states, events);
    }
  }
}
