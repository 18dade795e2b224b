/**
 Which cached artifacts `PruneWorkerCache` removes (src/vgi_database_worker.cpp). Sizes and totals are
 64-bit: the total is accumulated modulo 2^64 and reduced with a guard, as in the source.
 */
module CachePrune {
  import opened Basics

  /** What trying to remove an artifact meets: nobody uses it, a lease is held, or the move fails. */
  datatype Attempt = Free | InUse | MoveFailed

  /** uint64_t. */
  type Size = x: nat | x < WORD

  datatype Entry = Entry(id: nat, age: int, size: Size, attempt: Attempt)

  /** What became of an entry; `Untouched` entries were not even tried. */
  datatype Fate = Untouched | Removed | Skipped | Failed

  datatype Policy = Policy(maxBytes: Size, ttl: int, flushAll: bool)

  datatype Result = Result(removed: nat, bytesRemoved: nat, skippedInUse: nat)

  predicate OldestFirst(es: seq<Entry>) {
    forall i, j :: 0 <= i < j < |es| ==> es[i].age >= es[j].age
  }

  function Sum(es: seq<Entry>): nat {
    if es == [] then 0 else Sum(es[..|es| - 1]) + es[|es| - 1].size
  }

  /** Bytes of the entries removed among the first `n`. */
  function RemovedBytes(es: seq<Entry>, fates: seq<Fate>, n: nat): nat
    requires n <= |es| && n <= |fates|
  {
    if n == 0 then 0
    else RemovedBytes(es, fates, n - 1) + if fates[n - 1].Removed? then es[n - 1].size else 0
  }

  function Count(fates: seq<Fate>, f: Fate): nat {
    if fates == [] then 0 else Count(fates[..|fates| - 1], f) + if fates[|fates| - 1] == f then 1 else 0
  }

  /** The total the budget looks at once the first `n` entries are dealt with. */
  function Remaining(es: seq<Entry>, fates: seq<Fate>, n: nat): nat
    requires n <= |es| && n <= |fates|
  {
    var start, gone := Sum(es) % WORD, RemovedBytes(es, fates, n);
    if start > gone then start - gone else 0
  }

  function LowWater(maxBytes: nat): nat {
    maxBytes - maxBytes / 5
  }

  predicate Expired(e: Entry, p: Policy) {
    p.ttl > 0 && e.age >= p.ttl
  }

  /** The size budget asks for entry `n`: the cache started above the maximum and is still above low water. */
  predicate OverBudget(es: seq<Entry>, fates: seq<Fate>, n: nat, p: Policy)
    requires n <= |es| && n <= |fates|
  {
    p.maxBytes > 0 && Sum(es) % WORD > p.maxBytes && Remaining(es, fates, n) > LowWater(p.maxBytes)
  }

  /** Removed whatever the budget says: everything is flushed, or the entry has expired. */
  predicate Forced(e: Entry, p: Policy) {
    p.flushAll || Expired(e, p)
  }

  predicate Due(es: seq<Entry>, fates: seq<Fate>, n: nat, p: Policy)
    requires n < |es| && n <= |fates|
  {
    Forced(es[n], p) || OverBudget(es, fates, n, p)
  }

  function FateOf(due: bool, attempt: Attempt): Fate {
    if !due then Untouched
    else match attempt
         case Free => Removed
         case InUse => Skipped
         case MoveFailed => Failed
  }

  /** Every entry met the fate the policy asks for, given what happened to the ones before it. */
  ghost predicate Decided(es: seq<Entry>, fates: seq<Fate>, p: Policy) {
    |fates| <= |es| && forall i :: 0 <= i < |fates| ==> fates[i] == FateOf(Due(es, fates, i, p), es[i].attempt)
  }

  lemma {:induction false} RemovedBytesPrefix(es: seq<Entry>, fates: seq<Fate>, more: seq<Fate>, n: nat)
    requires n <= |es| && n <= |fates| && fates <= more
    ensures RemovedBytes(es, fates, n) == RemovedBytes(es, more, n)
  {
    if n > 0 { RemovedBytesPrefix(es, fates, more, n - 1); }
  }

  lemma {:induction false} DecidedExtend(es: seq<Entry>, fates: seq<Fate>, f: Fate, p: Policy)
    requires Decided(es, fates, p) && |fates| < |es|
    requires f == FateOf(Due(es, fates, |fates|, p), es[|fates|].attempt)
    ensures Decided(es, fates + [f], p)
  {
    forall i | 0 <= i <= |fates| ensures (fates + [f])[i] == FateOf(Due(es, fates + [f], i, p), es[i].attempt) {
      RemovedBytesPrefix(es, fates, fates + [f], i);
      assert i < |fates| ==> fates[i] == FateOf(Due(es, fates, i, p), es[i].attempt);
    }
  }

  lemma {:induction false} SumStep(es: seq<Entry>, i: nat)
    requires i < |es|
    ensures Sum(es[..i + 1]) == Sum(es[..i]) + es[i].size
  {
    assert es[..i + 1][..i] == es[..i];
  }

  lemma {:induction false} AddModulo(a: nat, b: nat)
    ensures (a % WORD + b) % WORD == (a + b) % WORD
  {
  }

  /** `total += size` in 64 bits over the listing. */
  method Total(es: seq<Entry>) returns (total: nat)
    ensures total == Sum(es) % WORD
  {
    total := 0;
    for i := 0 to |es|
      invariant total == Sum(es[..i]) % WORD
    {
      total := (total + es[i].size) % WORD;
      SumStep(es, i);
      AddModulo(Sum(es[..i]), es[i].size);
    }
    assert es[..|es|] == es;
  }

  /** The counters a run so far has to show. */
  ghost predicate Counted(es: seq<Entry>, fates: seq<Fate>, r: Result)
    requires |fates| <= |es|
  {
    r.removed == Count(fates, Removed) && r.skippedInUse == Count(fates, Skipped) &&
    r.bytesRemoved == RemovedBytes(es, fates, |fates|) % WORD
  }

  function Report(r: Result, e: Entry, f: Fate): Result {
    match f
    case Removed => Result(r.removed + 1, (r.bytesRemoved + e.size) % WORD, r.skippedInUse)
    case Skipped => r.(skippedInUse := r.skippedInUse + 1)
    case _ => r
  }

  lemma {:induction false} ReportCounts(es: seq<Entry>, fates: seq<Fate>, r: Result, f: Fate)
    requires |fates| < |es| && Counted(es, fates, r)
    ensures Counted(es, fates + [f], Report(r, es[|fates|], f))
  {
    assert (fates + [f])[..|fates|] == fates;
    RemovedBytesPrefix(es, fates, fates + [f], |fates|);
    AddModulo(RemovedBytes(es, fates, |fates|), es[|fates|].size);
  }

  /** The guarded subtraction keeps `total` at what is left of the starting total. */
  lemma {:induction false} RemainingStep(es: seq<Entry>, fates: seq<Fate>, f: Fate)
    requires |fates| < |es|
    ensures var total, e := Remaining(es, fates, |fates|), es[|fates|];
            Remaining(es, fates + [f], |fates| + 1) ==
            if !f.Removed? then total else if total > e.size then total - e.size else 0
  {
    RemovedBytesPrefix(es, fates, fates + [f], |fates|);
  }

  /** The removal loop, over the entries oldest first. `fates` records what it did to each. */
  method Prune(es: seq<Entry>, p: Policy) returns (result: Result, fates: seq<Fate>)
    ensures |fates| == |es| && Decided(es, fates, p)
    ensures Counted(es, fates, result)
    ensures forall i :: 0 <= i < |es| && fates[i].Removed? && !Forced(es[i], p) ==>
      Sum(es) % WORD > p.maxBytes > 0 && Sum(es) % WORD - RemovedBytes(es, fates, i) > LowWater(p.maxBytes)
  {
    var total := Total(es);
    var lowWater := if p.maxBytes > 0 then LowWater(p.maxBytes) else 0;
    var reduce := p.maxBytes > 0 && total > p.maxBytes;
    ghost var above := reduce;
    result, fates := Result(0, 0, 0), [];
    for i := 0 to |es|
      invariant |fates| == i && Decided(es, fates, p) && Counted(es, fates, result)
      invariant total == Remaining(es, fates, i)
      invariant (reduce && total > lowWater) == (above && total > lowWater)
    {
      var e := es[i];
      var f := FateOf(p.flushAll || Expired(e, p) || (reduce && total > lowWater), e.attempt);
      DecidedExtend(es, fates, f, p);
      ReportCounts(es, fates, result, f);
      RemainingStep(es, fates, f);
      fates := fates + [f];
      result := Report(result, e, f);
      if f.Removed? {
        total := if total > e.size then total - e.size else 0;
        if total <= lowWater { reduce := false; }
      }
    }
  }

  // ---------------------------------------------------------------------------------------------
  // What that amounts to
  // ---------------------------------------------------------------------------------------------

  predicate AllFree(es: seq<Entry>) {
    forall i :: 0 <= i < |es| ==> es[i].attempt.Free?
  }

  lemma {:induction false} RemovedAtMostSum(es: seq<Entry>, fates: seq<Fate>, n: nat)
    requires n <= |es| && n <= |fates|
    ensures RemovedBytes(es, fates, n) <= Sum(es[..n])
    ensures (forall i :: 0 <= i < n ==> fates[i].Removed?) ==> RemovedBytes(es, fates, n) == Sum(es[..n])
  {
    if n > 0 {
      RemovedAtMostSum(es, fates, n - 1);
      SumStep(es, n - 1);
    }
  }

  /** Once an entry is not due, nothing changes and no younger entry is due either. */
  lemma {:induction false} NotDueStays(es: seq<Entry>, fates: seq<Fate>, p: Policy, i: nat, j: nat)
    requires OldestFirst(es) && |fates| == |es| && Decided(es, fates, p) && i <= j < |es| && fates[i].Untouched?
    ensures fates[j].Untouched? && RemovedBytes(es, fates, j) == RemovedBytes(es, fates, i)
    decreases j
  {
    assert fates[i] == FateOf(Due(es, fates, i, p), es[i].attempt);
    if i < j {
      NotDueStays(es, fates, p, i, j - 1);
      assert fates[j] == FateOf(Due(es, fates, j, p), es[j].attempt);
    }
  }

  /** With every removal succeeding, the removed entries are a prefix of the list: the oldest ones. */
  lemma {:induction false} RemovesOldestFirst(es: seq<Entry>, fates: seq<Fate>, p: Policy)
    requires OldestFirst(es) && AllFree(es) && |fates| == |es| && Decided(es, fates, p)
    ensures forall i, j :: 0 <= i < j < |es| && fates[j].Removed? ==> fates[i].Removed?
  {
    forall i, j | 0 <= i < j < |es| && fates[j].Removed? ensures fates[i].Removed? {
      if fates[i].Untouched? { NotDueStays(es, fates, p, i, j); }
    }
  }

  /** An entry is left alone only once the total is down to low water. */
  lemma {:induction false} NotDueIsLow(es: seq<Entry>, fates: seq<Fate>, p: Policy, j: nat)
    requires |fates| == |es| && Decided(es, fates, p) && j < |es| && fates[j].Untouched?
    requires p.maxBytes > 0 && Sum(es) % WORD > p.maxBytes
    ensures Remaining(es, fates, j + 1) == Remaining(es, fates, j) <= LowWater(p.maxBytes)
  {
    assert fates[j] == FateOf(Due(es, fates, j, p), es[j].attempt);
  }

  /**
   A cache that starts above its maximum ends at or below low water, or every entry was tried and
   the ones left were in use or could not be moved.
   */
  lemma {:induction false} ReachesLowWater(es: seq<Entry>, fates: seq<Fate>, p: Policy)
    requires OldestFirst(es) && |fates| == |es| && Decided(es, fates, p)
    requires p.maxBytes > 0 && Sum(es) % WORD > p.maxBytes
    ensures Remaining(es, fates, |es|) <= LowWater(p.maxBytes) || forall i :: 0 <= i < |es| ==> !fates[i].Untouched?
  {
    if i :| 0 <= i < |es| && fates[i].Untouched? {
      NotDueStays(es, fates, p, i, |es| - 1);
      NotDueIsLow(es, fates, p, |es| - 1);
    }
  }

  /** In bytes: with every removal succeeding and no overflow, at most four fifths of the maximum stay. */
  lemma {:induction false} LeavesLowWater(es: seq<Entry>, fates: seq<Fate>, p: Policy)
    requires OldestFirst(es) && AllFree(es) && |fates| == |es| && Decided(es, fates, p)
    requires p.maxBytes > 0 && p.maxBytes < Sum(es) < WORD
    ensures Sum(es) - RemovedBytes(es, fates, |es|) <= LowWater(p.maxBytes)
  {
    ReachesLowWater(es, fates, p);
    RemovedAtMostSum(es, fates, |es|);
    assert es[..|es|] == es;
  }

  /** The bytes among the first `n` entries that go whatever the budget says. */
  function ForcedBytes(es: seq<Entry>, p: Policy, n: nat): nat
    requires n <= |es|
  {
    if n == 0 then 0 else ForcedBytes(es, p, n - 1) + if Forced(es[n - 1], p) then es[n - 1].size else 0
  }

  /** Oldest first, forced entries come before all others and all of them go. */
  lemma {:induction false} ForcedGo(es: seq<Entry>, fates: seq<Fate>, p: Policy, n: nat)
    requires OldestFirst(es) && AllFree(es) && |fates| == |es| && Decided(es, fates, p) && n <= |es|
    ensures RemovedBytes(es, fates, n) >= ForcedBytes(es, p, n)
    ensures n > 0 && Forced(es[n - 1], p) ==> RemovedBytes(es, fates, n) == ForcedBytes(es, p, n)
  {
    if n > 0 {
      ForcedGo(es, fates, p, n - 1);
      assert fates[n - 1] == FateOf(Due(es, fates, n - 1, p), es[n - 1].attempt);
    }
  }

  /**
   Beyond the forced entries, every removal starts above low water and takes less than 2^64 bytes, so
   together they stay below 2^64 bytes more than low water asks for.
   */
  lemma {:induction false} BudgetRemovesLessThanAWord(es: seq<Entry>, fates: seq<Fate>, p: Policy, n: nat)
    requires OldestFirst(es) && AllFree(es) && |fates| == |es| && Decided(es, fates, p) && n <= |es|
    ensures RemovedBytes(es, fates, n) == ForcedBytes(es, p, n) ||
            RemovedBytes(es, fates, n) + LowWater(p.maxBytes) < Sum(es) % WORD + WORD
  {
    if n > 0 {
      BudgetRemovesLessThanAWord(es, fates, p, n - 1);
      ForcedGo(es, fates, p, n);
      assert fates[n - 1] == FateOf(Due(es, fates, n - 1, p), es[n - 1].attempt);
    }
  }

  /**
   With every removal succeeding, a cache above its maximum ends at or below low water exactly if its
   total does not wrap, or expiry and flushing alone bring it there.
   */
  lemma {:induction false} LeavesLowWaterIff(es: seq<Entry>, fates: seq<Fate>, p: Policy)
    requires OldestFirst(es) && AllFree(es) && |fates| == |es| && Decided(es, fates, p)
    requires 0 < p.maxBytes < Sum(es)
    ensures Sum(es) - RemovedBytes(es, fates, |es|) <= LowWater(p.maxBytes) <==>
            Sum(es) < WORD || Sum(es) - ForcedBytes(es, p, |es|) <= LowWater(p.maxBytes)
  {
    if Sum(es) < WORD {
      LeavesLowWater(es, fates, p);
    } else {
      ForcedGo(es, fates, p, |es|);
      BudgetRemovesLessThanAWord(es, fates, p, |es|);
    }
  }

  /** When only the budget removes: exactly if the total does not wrap. */
  lemma {:induction false} BudgetLeavesLowWaterIff(es: seq<Entry>, fates: seq<Fate>, p: Policy)
    requires OldestFirst(es) && AllFree(es) && |fates| == |es| && Decided(es, fates, p)
    requires 0 < p.maxBytes < Sum(es) && !p.flushAll && p.ttl <= 0
    ensures Sum(es) - RemovedBytes(es, fates, |es|) <= LowWater(p.maxBytes) <==> Sum(es) < WORD
  {
    LeavesLowWaterIff(es, fates, p);
    NothingForced(es, p, |es|);
  }

  lemma {:induction false} NothingForced(es: seq<Entry>, p: Policy, n: nat)
    requires !p.flushAll && p.ttl <= 0 && n <= |es|
    ensures ForcedBytes(es, p, n) == 0
  {
    if n > 0 { NothingForced(es, p, n - 1); }
  }

  // ---------------------------------------------------------------------------------------------
  // Just enough is removed
  // ---------------------------------------------------------------------------------------------

  /** The bytes that have to go: what is forced, and what the budget asks for. */
  function Need(es: seq<Entry>, p: Policy): nat {
    var start, forced := Sum(es) % WORD, ForcedBytes(es, p, |es|);
    if 0 < p.maxBytes < start && start - LowWater(p.maxBytes) > forced then start - LowWater(p.maxBytes) else forced
  }

  /** From the first `k` on, the shortest run of oldest entries that holds `need` bytes. */
  function Enough(es: seq<Entry>, need: nat, k: nat): (r: nat)
    requires k <= |es|
    ensures k <= r <= |es| && (r < |es| ==> Sum(es[..r]) >= need) && forall j :: k <= j < r ==> Sum(es[..j]) < need
    decreases |es| - k
  {
    if k == |es| || Sum(es[..k]) >= need then k else Enough(es, need, k + 1)
  }

  lemma {:induction false} SumGrows(es: seq<Entry>, i: nat, j: nat)
    requires i <= j <= |es|
    ensures Sum(es[..i]) <= Sum(es[..j])
    decreases j
  {
    if i < j {
      SumGrows(es, i, j - 1);
      SumStep(es, j - 1);
    }
  }

  /** Oldest first, the forced entries are the first ones. */
  lemma {:induction false} ForcedAreFirst(es: seq<Entry>, p: Policy, i: nat, n: nat)
    requires OldestFirst(es) && i < n <= |es|
    ensures ForcedBytes(es, p, n) <= Sum(es[..n])
    ensures !Forced(es[i], p) ==> ForcedBytes(es, p, n) <= Sum(es[..i])
    ensures Forced(es[i], p) ==> ForcedBytes(es, p, n) >= Sum(es[..i + 1])
    decreases n
  {
    SumStep(es, n - 1);
    if n > 1 { ForcedAreFirst(es, p, if i < n - 1 then i else n - 2, n - 1); }
  }

  /** The first `i` entries lose what they hold, or what the shortest run with enough bytes holds. */
  lemma {:induction false} RemovedSoFar(es: seq<Entry>, fates: seq<Fate>, p: Policy, i: nat)
    requires OldestFirst(es) && AllFree(es) && |fates| == |es| && Decided(es, fates, p) && i <= |es|
    ensures var k := Enough(es, Need(es, p), 0);
      RemovedBytes(es, fates, i) == if i <= k then Sum(es[..i]) else Sum(es[..k])
  {
    if i > 0 {
      var n, k := i - 1, Enough(es, Need(es, p), 0);
      RemovedSoFar(es, fates, p, n);
      SumStep(es, n);
      ForcedAreFirst(es, p, n, |es|);
      assert fates[n] == FateOf(Due(es, fates, n, p), es[n].attempt);
      if n >= k { SumGrows(es, k, n); }
    }
  }

  /** With every removal succeeding, the bytes removed are those of the shortest run of oldest entries that is enough. */
  lemma {:induction false} RemovesJustEnough(es: seq<Entry>, fates: seq<Fate>, p: Policy)
    requires OldestFirst(es) && AllFree(es) && |fates| == |es| && Decided(es, fates, p)
    ensures RemovedBytes(es, fates, |es|) == Sum(es[..Enough(es, Need(es, p), 0)])
  {
    RemovedSoFar(es, fates, p, |es|);
  }

  /** The byte count a result reports is the drop in the total the budget looked at. */
  predicate ReportsTheDrop(es: seq<Entry>, fates: seq<Fate>, bytesRemoved: nat)
    requires |fates| == |es|
  {
    bytesRemoved == Sum(es) % WORD - Remaining(es, fates, |es|)
  }

  /** If the total does not wrap, whatever could be removed, it is. */
  lemma {:induction false} BytesAreConserved(es: seq<Entry>, fates: seq<Fate>, r: Result)
    requires |fates| == |es| && Counted(es, fates, r) && Sum(es) < WORD
    ensures ReportsTheDrop(es, fates, r.bytesRemoved) && r.bytesRemoved == RemovedBytes(es, fates, |es|)
  {
    RemovedAtMostSum(es, fates, |es|);
    assert es[..|es|] == es;
  }

  /**
   With every removal succeeding, it is exactly if the shortest run of oldest entries that is enough
   holds no more than the 64-bit total said, or whole words more.
   */
  lemma {:induction false} BytesAreConservedIff(es: seq<Entry>, fates: seq<Fate>, p: Policy, r: Result)
    requires OldestFirst(es) && AllFree(es) && |fates| == |es| && Decided(es, fates, p) && Counted(es, fates, r)
    ensures var start, run := Sum(es) % WORD, Sum(es[..Enough(es, Need(es, p), 0)]);
      ReportsTheDrop(es, fates, r.bytesRemoved) <==> run <= start || (run - start) % WORD == 0
  {
    RemovesJustEnough(es, fates, p);
  }

  /** A cache of 2^64 + 10 bytes adds up to 10; removing its first entry reports 2^64 - 1 bytes. */
  lemma {:induction false} WrappedTotalOverReports(fates: seq<Fate>, r: Result)
    requires var es := [Entry(0, 9, WORD - 1, Free), Entry(1, 8, 11, Free)];
      |fates| == 2 && Decided(es, fates, Policy(5, 0, false)) && Counted(es, fates, r)
    ensures var es := [Entry(0, 9, WORD - 1, Free), Entry(1, 8, 11, Free)];
      r.bytesRemoved == WORD - 1 && !ReportsTheDrop(es, fates, r.bytesRemoved)
  {
    var es, p := [Entry(0, 9, WORD - 1, Free), Entry(1, 8, 11, Free)], Policy(5, 0, false);
    assert es[..1] == [es[0]] && es[..0] == [] && es[..2] == es;
    SumStep(es, 0);
    SumStep(es, 1);
    assert Sum(es) % WORD == 10;
    assert fates[0] == FateOf(Due(es, fates, 0, p), es[0].attempt);
    assert RemovedBytes(es, fates, 0) == 0 && RemovedBytes(es, fates, 1) == WORD - 1;
    assert fates[1] == FateOf(Due(es, fates, 1, p), es[1].attempt);
    assert RemovedBytes(es, fates, 2) == WORD - 1;
  }

  /**
   The low-water bound needs the total not to wrap: a cache of exactly 2^64 bytes adds up to zero and
   nothing is removed, whatever the maximum.
   */
  lemma {:induction false} WrappedTotalRemovesNothing(p: Policy, fates: seq<Fate>)
    requires !p.flushAll && p.ttl <= 0
    requires var es := [Entry(0, 9, WORD / 2, Free), Entry(1, 8, WORD / 2, Free)];
             |fates| == 2 && Decided(es, fates, p)
    ensures var es := [Entry(0, 9, WORD / 2, Free), Entry(1, 8, WORD / 2, Free)];
            Sum(es) == WORD && RemovedBytes(es, fates, 2) == 0
  {
    var es := [Entry(0, 9, WORD / 2, Free), Entry(1, 8, WORD / 2, Free)];
    assert es[..1] == [es[0]] && es[..0] == [] && es[..2] == es;
    SumStep(es, 0);
    SumStep(es, 1);
    assert fates[0] == FateOf(Due(es, fates, 0, p), es[0].attempt);
    assert RemovedBytes(es, fates, 1) == RemovedBytes(es, fates, 0) == 0;
    assert fates[1] == FateOf(Due(es, fates, 1, p), es[1].attempt);
  }
}
