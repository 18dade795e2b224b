/**
 Planning a table-function scan (`InvokeTableFunctionPlan` in src/vgi_catalog_api.cpp): the worker
 answers a cursor with a page of splits and any number of further cursors; a deque of cursors is
 worked off under a page cap, a split cap and an interrupt check. The reference is the breadth-first
 order of the cursor tree, written level by level.
 */
module ScanPlan {
  import opened Basics
  import opened Options

  type Cursor = seq<nat>

  type Bytes = seq<nat>

  /** What the first page says about the whole plan. */
  datatype Facts = Facts(
    maxWorkers: int, catalogVersion: int, scope: string, executionId: Bytes, initOpaqueData: Bytes)

  /** A parsed page; parsing has dropped empty cursors. */
  datatype Page = Page(
    facts: Facts, keyGrouping: Option<Bytes>, identityKeys: Option<seq<string>>,
    splits: seq<Bytes>, nextCursors: seq<Cursor>)

  /** A request may come back without a result batch, or throw. */
  datatype Response = Answered(page: Page) | Missing | Fails

  /** The answer to the request numbered so, which may depend on all that went before. */
  type Worker = (nat, Cursor) -> Response

  datatype Plan = Plan(facts: Option<Facts>, identityKeys: Option<seq<string>>, splits: seq<Bytes>, pages: nat)

  datatype Outcome = Planned(plan: Plan) | Interrupted | PageCapExceeded | SplitCapExceeded | Failed

  const MAX_SPLITS := 0x10_0000

  // ---------------------------------------------------------------------------------------------
  // The cursor tree, level by level
  // ---------------------------------------------------------------------------------------------

  function Kids(w: Worker, n: nat, c: Cursor): seq<Cursor> {
    if w(n, c).Answered? then w(n, c).page.nextCursors else []
  }

  /** What the requests for `cs`, numbered from `base` on, name. */
  function Children(w: Worker, base: nat, cs: seq<Cursor>): seq<Cursor> {
    if cs == [] then [] else
      var last := |cs| - 1;
      Children(w, base, cs[..last]) + Kids(w, base + last, cs[last])
  }

  /** The cursors above a depth, in breadth-first order, and those at it; the root is the empty cursor. */
  datatype Layers = Layers(above: seq<Cursor>, at: seq<Cursor>)

  function Tree(w: Worker, d: nat): Layers {
    if d == 0 then Layers([], [[]])
    else var t := Tree(w, d - 1); Layers(t.above + t.at, Children(w, |t.above|, t.at))
  }

  /** The cursors at depth `d`. */
  function Level(w: Worker, d: nat): seq<Cursor> {
    Tree(w, d).at
  }

  /** The cursors above depth `d`: the requests made before that level, by their numbers. */
  function Upto(w: Worker, d: nat): seq<Cursor> {
    Tree(w, d).above
  }

  function SplitsOf(w: Worker, n: nat, c: Cursor): seq<Bytes> {
    if w(n, c).Answered? then w(n, c).page.splits else []
  }

  function Splits(w: Worker, cs: seq<Cursor>): seq<Bytes> {
    if cs == [] then [] else
      var last := |cs| - 1;
      Splits(w, cs[..last]) + SplitsOf(w, last, cs[last])
  }

  predicate AllAnswered(w: Worker, cs: seq<Cursor>) {
    forall k :: 0 <= k < |cs| ==> w(k, cs[k]).Answered?
  }

  /** The worker answers every request its own cursors can lead to. */
  ghost predicate AlwaysAnswers(w: Worker) {
    forall d: nat :: AllAnswered(w, Upto(w, d))
  }

  /** The tree ends above depth `d` and is within both caps. */
  predicate EndsWithin(w: Worker, d: nat, maxPages: nat) {
    Level(w, d) == [] && |Upto(w, d)| <= maxPages && |Splits(w, Upto(w, d))| <= MAX_SPLITS
  }

  predicate SameGrouping(w: Worker, cs: seq<Cursor>) {
    forall k :: 0 <= k < |cs| ==>
      w(k, cs[k]).Answered? && w(0, cs[0]).Answered? && w(k, cs[k]).page.keyGrouping == w(0, cs[0]).page.keyGrouping
  }

  /** The plan that the pages of `cs` make: facts from the first, splits from all in order. */
  function PlanOf(w: Worker, cs: seq<Cursor>): Plan
    requires AllAnswered(w, cs)
  {
    if cs == [] then Plan(None, None, [], 0)
    else Plan(Some(w(0, cs[0]).page.facts), if SameGrouping(w, cs) then w(0, cs[0]).page.identityKeys else None,
              Splits(w, cs), |cs|)
  }

  // ---------------------------------------------------------------------------------------------
  // Facts about the order
  // ---------------------------------------------------------------------------------------------

  lemma {:induction false} SplitsOfPrefix(w: Worker, a: seq<Cursor>, b: seq<Cursor>)
    ensures Splits(w, a) <= Splits(w, a + b)
    decreases |b|
  {
    if b == [] {
      assert a + b == a;
    } else {
      var n, ab := |b| - 1, a + b;
      SplitsOfPrefix(w, a, b[..n]);
      assert ab[..|ab| - 1] == a + b[..n];
    }
  }

  lemma {:induction false} SplitsOfOne(w: Worker, c: Cursor)
    ensures Splits(w, [c]) == SplitsOf(w, 0, c)
  {
    var none: seq<Cursor> := [];
    assert [c][..0] == none;
  }

  lemma {:induction false} EmptyLevelStays(w: Worker, d: nat, e: nat)
    requires Level(w, d) == [] && d <= e
    ensures Level(w, e) == [] && Upto(w, e) == Upto(w, d)
    decreases e
  {
    if d < e { EmptyLevelStays(w, d, e - 1); }
  }

  lemma {:induction false} UptoGrows(w: Worker, d: nat, e: nat) returns (rest: seq<Cursor>)
    requires d <= e
    ensures Upto(w, e) == Upto(w, d) + rest
    decreases e
  {
    if d == e {
      rest := [];
    } else {
      var less := UptoGrows(w, d, e - 1);
      rest := less + Level(w, e - 1);
      Associates(Upto(w, d), less, Level(w, e - 1));
    }
  }

  /** What has been visited at position `i` of level `d`. */
  function Visited(w: Worker, d: nat, i: nat): seq<Cursor>
    requires i <= |Level(w, d)|
  {
    Upto(w, d) + Level(w, d)[..i]
  }

  /** Any end of the tree lies below a level that is not empty, so it holds all that was visited. */
  lemma {:induction false} VisitedIsPrefix(w: Worker, d: nat, i: nat, end: nat) returns (rest: seq<Cursor>)
    requires i <= |Level(w, d)| && 0 < |Level(w, d)| && Level(w, end) == []
    ensures Upto(w, end) == Visited(w, d, i) + rest && |rest| >= |Level(w, d)| - i
  {
    if end <= d { EmptyLevelStays(w, end, d); }
    var more := UptoGrows(w, d + 1, end);
    rest := Level(w, d)[i..] + more;
    PrefixParts(Upto(w, d), Level(w, d), i, more);
  }

  lemma {:induction false} PrefixParts(upto: seq<Cursor>, level: seq<Cursor>, i: nat, more: seq<Cursor>)
    requires i <= |level|
    ensures upto + level + more == (upto + level[..i]) + (level[i..] + more)
  {
  }

  /** A tree that ends, ends with the same visit order wherever one looks. */
  lemma {:induction false} EndIsUnique(w: Worker, d: nat, e: nat)
    requires Level(w, d) == [] && Level(w, e) == []
    ensures Upto(w, d) == Upto(w, e)
  {
    EmptyLevelStays(w, if d < e then d else e, if d < e then e else d);
  }

  // ---------------------------------------------------------------------------------------------
  // The worklist
  // ---------------------------------------------------------------------------------------------

  /** The rest of level `d` from `i` on, then the children of what of it has been visited. */
  function Pending(w: Worker, d: nat, i: nat): seq<Cursor>
    requires i <= |Level(w, d)|
  {
    Level(w, d)[i..] + Children(w, |Upto(w, d)|, Level(w, d)[..i])
  }

  /** One page further: the deque loses its front and gains the page's cursors. */
  lemma {:induction false} PendingStep(w: Worker, d: nat, i: nat)
    requires i < |Level(w, d)|
    ensures Pending(w, d, i)[1..] + Kids(w, |Visited(w, d, i)|, Level(w, d)[i]) == Pending(w, d, i + 1)
    ensures Visited(w, d, i + 1) == Visited(w, d, i) + [Level(w, d)[i]]
  {
    var level := Level(w, d);
    var base := |Upto(w, d)|;
    TakeOne(level, i, Children(w, base, level[..i]), Kids(w, base + i, level[i]));
    ChildrenOfNext(w, base, level, i);
    Associates(Upto(w, d), level[..i], [level[i]]);
  }

  lemma {:induction false} TakeOne(level: seq<Cursor>, i: nat, below: seq<Cursor>, kids: seq<Cursor>)
    requires i < |level|
    ensures (level[i..] + below)[1..] + kids == level[i + 1..] + (below + kids)
    ensures level[..i + 1] == level[..i] + [level[i]]
  {
  }

  lemma {:induction false} ChildrenOfNext(w: Worker, base: nat, level: seq<Cursor>, i: nat)
    requires i < |level|
    ensures Children(w, base, level[..i + 1]) == Children(w, base, level[..i]) + Kids(w, base + i, level[i])
  {
    assert level[..i + 1][..i] == level[..i];
  }

  lemma {:induction false} PendingHead(w: Worker, d: nat, i: nat)
    requires i <= |Level(w, d)| && (i == |Level(w, d)| ==> Level(w, d) == []) && Pending(w, d, i) != []
    ensures i < |Level(w, d)| && Pending(w, d, i)[0] == Level(w, d)[i]
  {
  }

  /** At the end of a level the deque holds exactly the next one. */
  lemma {:induction false} PendingTurns(w: Worker, d: nat)
    ensures Pending(w, d, |Level(w, d)|) == Pending(w, d + 1, 0)
    ensures Visited(w, d, |Level(w, d)|) == Visited(w, d + 1, 0)
  {
    var level := Level(w, d);
    assert level[..|level|] == level;
  }

  /** The loop has visited the order up to position `i` of level `d`, which is not its end. */
  ghost predicate Follows(w: Worker, d: nat, i: nat, visited: seq<Cursor>, pending: seq<Cursor>) {
    i <= |Level(w, d)| && (i == |Level(w, d)| ==> Level(w, d) == []) &&
    visited == Visited(w, d, i) && pending == Pending(w, d, i)
  }

  lemma {:induction false} Follow(w: Worker, d: nat, i: nat, visited: seq<Cursor>, pending: seq<Cursor>)
    returns (d': nat, i': nat)
    requires Follows(w, d, i, visited, pending) && pending != []
    ensures i < |Level(w, d)| && pending[0] == Level(w, d)[i] && visited + [pending[0]] == Visited(w, d, i + 1)
    ensures Follows(w, d', i', visited + [pending[0]], pending[1..] + Kids(w, |visited|, pending[0]))
  {
    PendingHead(w, d, i);
    PendingStep(w, d, i);
    if i + 1 == |Level(w, d)| {
      PendingTurns(w, d);
      d', i' := d + 1, 0;
    } else {
      d', i' := d, i + 1;
    }
  }

  /** What the loop has gathered from the pages visited; identity keys not yet dropped. */
  ghost predicate Gathered(w: Worker, cs: seq<Cursor>, plan: Plan, grouping: Option<Bytes>, consistent: bool) {
    AllAnswered(w, cs) && plan.pages == |cs| && plan.splits == Splits(w, cs) &&
    if cs == [] then plan.facts == None && plan.identityKeys == None && consistent
    else
      plan.facts == Some(w(0, cs[0]).page.facts) && plan.identityKeys == w(0, cs[0]).page.identityKeys &&
      grouping == w(0, cs[0]).page.keyGrouping && (consistent <==> SameGrouping(w, cs))
  }

  lemma {:induction false} GatherFirst(w: Worker, c: Cursor, plan: Plan, grouping: Option<Bytes>, consistent: bool)
    requires w(0, c).Answered? && Gathered(w, [], plan, grouping, consistent)
    ensures var page := w(0, c).page;
      Gathered(w, [c], Plan(Some(page.facts), page.identityKeys, plan.splits + page.splits, 1), page.keyGrouping, consistent)
  {
    SplitsOfOne(w, c);
  }

  lemma {:induction false} GatherNext(w: Worker, cs: seq<Cursor>, c: Cursor, plan: Plan, grouping: Option<Bytes>,
                                      consistent: bool)
    requires cs != [] && w(|cs|, c).Answered? && Gathered(w, cs, plan, grouping, consistent)
    ensures var page := w(|cs|, c).page;
      Gathered(w, cs + [c], plan.(splits := plan.splits + page.splits, pages := plan.pages + 1), grouping,
               consistent && page.keyGrouping == grouping)
  {
    var all := cs + [c];
    assert all[..|all| - 1] == cs && all[|all| - 1] == c && all[0] == cs[0];
    if SameGrouping(w, all) {
      forall k | 0 <= k < |cs| ensures w(k, cs[k]).page.keyGrouping == w(0, cs[0]).page.keyGrouping {
        assert all[k] == cs[k];
      }
    }
  }

  lemma {:induction false} PlanOfGathered(w: Worker, cs: seq<Cursor>, plan: Plan, grouping: Option<Bytes>,
                                          consistent: bool)
    requires Gathered(w, cs, plan, grouping, consistent)
    ensures PlanOf(w, cs) == if consistent then plan else plan.(identityKeys := None)
  {
  }

  /** One page's part of the loop: plan facts from the first page, splits from every page. */
  method AddPage(w: Worker, ghost visited: seq<Cursor>, cursor: Cursor, page: Page, plan: Plan,
                 grouping: Option<Bytes>, consistent: bool)
    returns (newPlan: Plan, newGrouping: Option<Bytes>, newConsistent: bool)
    requires w(|visited|, cursor) == Answered(page) && Gathered(w, visited, plan, grouping, consistent)
    ensures Gathered(w, visited + [cursor], newPlan, newGrouping, newConsistent)
  {
    newPlan, newGrouping, newConsistent := plan.(pages := plan.pages + 1), grouping, consistent;
    if newPlan.pages == 1 {
      newPlan := newPlan.(facts := Some(page.facts), identityKeys := page.identityKeys);
      newGrouping := page.keyGrouping;
      GatherFirst(w, cursor, plan, grouping, consistent);
      assert visited + [cursor] == [cursor];
    } else {
      if page.keyGrouping != grouping {
        newConsistent := false;
      }
      GatherNext(w, visited, cursor, plan, grouping, consistent);
    }
    newPlan := newPlan.(splits := newPlan.splits + page.splits);
  }

  /** The request at position `i` of level `d` came back without a batch. */
  predicate Stopped(w: Worker, d: nat, i: nat) {
    i < |Level(w, d)| && w(|Upto(w, d)| + i, Level(w, d)[i]).Missing?
  }

  /** What an outcome says about the pages visited, up to position `i` of level `d`. */
  predicate Justified(w: Worker, maxPages: nat, interrupted: nat -> bool, r: Outcome, d: nat, i: nat)
    requires i <= |Level(w, d)|
  {
    var visited := Visited(w, d, i);
    AllAnswered(w, visited) &&
    match r
    case Planned(plan) =>
      plan == PlanOf(w, visited) && |visited| <= maxPages && |plan.splits| <= MAX_SPLITS &&
      (Level(w, d) == [] || Stopped(w, d, i))
    case Interrupted => interrupted(|visited|)
    case PageCapExceeded => |visited| >= maxPages && i < |Level(w, d)|
    case SplitCapExceeded => 0 < i && |Splits(w, visited)| > MAX_SPLITS
    case Failed => i < |Level(w, d)| && w(|visited|, Level(w, d)[i]).Fails?
  }

  /** An outcome is explained by how far the breadth-first order was followed. */
  ghost predicate Explained(w: Worker, maxPages: nat, interrupted: nat -> bool, r: Outcome) {
    exists d: nat, i: nat :: i <= |Level(w, d)| && Justified(w, maxPages, interrupted, r, d, i)
  }

  /** What an outcome says, in the loop's own terms: what was visited and what is still pending. */
  ghost predicate Because(w: Worker, maxPages: nat, interrupted: nat -> bool, r: Outcome, visited: seq<Cursor>,
                          pending: seq<Cursor>) {
    AllAnswered(w, visited) &&
    match r
    case Planned(plan) =>
      plan == PlanOf(w, visited) && |visited| <= maxPages && |plan.splits| <= MAX_SPLITS &&
      (pending == [] || w(|visited|, pending[0]).Missing?)
    case Interrupted => interrupted(|visited|)
    case PageCapExceeded => |visited| >= maxPages && pending != []
    case SplitCapExceeded => false
    case Failed => pending != [] && w(|visited|, pending[0]).Fails?
  }

  lemma {:induction false} Explain(w: Worker, maxPages: nat, interrupted: nat -> bool, r: Outcome, d: nat, i: nat,
                                   visited: seq<Cursor>, pending: seq<Cursor>)
    requires Follows(w, d, i, visited, pending) && Because(w, maxPages, interrupted, r, visited, pending)
    ensures Explained(w, maxPages, interrupted, r)
  {
    if pending != [] { PendingHead(w, d, i); }
    assert Justified(w, maxPages, interrupted, r, d, i);
  }

  lemma {:induction false} ExplainSplitCap(w: Worker, maxPages: nat, interrupted: nat -> bool, d: nat, i: nat,
                                           visited: seq<Cursor>)
    requires i < |Level(w, d)| && visited == Visited(w, d, i + 1) && AllAnswered(w, visited)
    requires |Splits(w, visited)| > MAX_SPLITS
    ensures Explained(w, maxPages, interrupted, SplitCapExceeded)
  {
    assert Justified(w, maxPages, interrupted, SplitCapExceeded, d, i + 1);
  }

  /**
   The breadth-first order is followed from the root; a plan is made of exactly the pages visited,
   and ends early only where a request came back without a batch.
   */
  method InvokeTableFunctionPlan(w: Worker, maxPages: nat, interrupted: nat -> bool) returns (r: Outcome)
    ensures Explained(w, maxPages, interrupted, r)
  {
    var pending: seq<Cursor> := [[]];
    var plan := Plan(None, None, [], 0);
    var firstGrouping: Option<Bytes> := None;
    var consistent := true;
    var pages := 0;
    ghost var depth: nat, index: nat := 0, 0;
    ghost var visited: seq<Cursor> := [];
    assert Follows(w, 0, 0, visited, pending);
    while pending != []
      invariant Follows(w, depth, index, visited, pending)
      invariant Gathered(w, visited, plan, firstGrouping, consistent)
      invariant pages == plan.pages <= maxPages && |plan.splits| <= MAX_SPLITS
      decreases maxPages - pages
    {
      var cursor := pending[0];
      ghost var d, i := Follow(w, depth, index, visited, pending);
      if interrupted(pages) {
        r := Interrupted;
        Explain(w, maxPages, interrupted, r, depth, index, visited, pending);
        return;
      }
      if pages >= maxPages {
        r := PageCapExceeded;
        Explain(w, maxPages, interrupted, r, depth, index, visited, pending);
        return;
      }
      var response := w(pages, cursor);
      if response.Missing? {
        break;
      }
      if response.Fails? {
        r := Failed;
        Explain(w, maxPages, interrupted, r, depth, index, visited, pending);
        return;
      }
      pages := pages + 1;
      plan, firstGrouping, consistent := AddPage(w, visited, cursor, response.page, plan, firstGrouping, consistent);
      visited := visited + [cursor];
      if |plan.splits| > MAX_SPLITS {
        r := SplitCapExceeded;
        ExplainSplitCap(w, maxPages, interrupted, depth, index, visited);
        return;
      }
      pending := pending[1..] + response.page.nextCursors;
      depth, index := d, i;
    }
    PlanOfGathered(w, visited, plan, firstGrouping, consistent);
    if !consistent {
      plan := plan.(identityKeys := None);
    }
    r := Planned(plan);
    Explain(w, maxPages, interrupted, r, depth, index, visited, pending);
  }

  // ---------------------------------------------------------------------------------------------
  // Completeness
  // ---------------------------------------------------------------------------------------------

  /** An outcome that says a cap was exceeded is right. */
  lemma {:induction false} CapRefuted(w: Worker, maxPages: nat, interrupted: nat -> bool, r: Outcome, d: nat, i: nat,
                                      end: nat)
    requires i <= |Level(w, d)| && Justified(w, maxPages, interrupted, r, d, i)
    requires r.PageCapExceeded? || r.SplitCapExceeded?
    ensures !EndsWithin(w, end, maxPages)
  {
    if Level(w, end) == [] {
      var rest := VisitedIsPrefix(w, d, i, end);
      SplitsOfPrefix(w, Visited(w, d, i), rest);
    }
  }

  lemma {:induction false} AnswersAt(w: Worker, d: nat, i: nat)
    requires AlwaysAnswers(w) && i < |Level(w, d)|
    ensures w(|Upto(w, d)| + i, Level(w, d)[i]).Answered?
  {
    assert Upto(w, d + 1)[|Upto(w, d)| + i] == Level(w, d)[i];
  }

  /**
   When the worker answers everything and nothing interrupts, planning succeeds precisely if the
   cursor tree ends within both caps, and the plan is then that of the whole tree in breadth-first
   order.
   */
  lemma {:induction false} PlannedIffTreeWithinCaps(w: Worker, maxPages: nat, interrupted: nat -> bool, r: Outcome)
    requires Explained(w, maxPages, interrupted, r)
    requires AlwaysAnswers(w) && forall k :: !interrupted(k)
    ensures r.Planned? <==> exists end: nat :: EndsWithin(w, end, maxPages)
    ensures r.Planned? ==> forall end: nat :: Level(w, end) == [] ==>
      AllAnswered(w, Upto(w, end)) && r.plan == PlanOf(w, Upto(w, end))
  {
    var d: nat, i: nat :| i <= |Level(w, d)| && Justified(w, maxPages, interrupted, r, d, i);
    if i < |Level(w, d)| { AnswersAt(w, d, i); }
    if r.Planned? {
      assert Visited(w, d, i) == Upto(w, d);
      assert EndsWithin(w, d, maxPages);
      forall end: nat | Level(w, end) == [] ensures Upto(w, end) == Upto(w, d) {
        EndIsUnique(w, d, end);
      }
    } else {
      forall end: nat ensures !EndsWithin(w, end, maxPages) {
        CapRefuted(w, maxPages, interrupted, r, d, i, end);
      }
    }
  }

  /** If the pages down to an empty level are answered, so is everything else: there is nothing else. */
  lemma {:induction false} AnsweredToTheEnd(w: Worker, d: nat)
    requires Level(w, d) == [] && AllAnswered(w, Upto(w, d))
    ensures AlwaysAnswers(w)
  {
    forall e: nat ensures AllAnswered(w, Upto(w, e)) {
      if d <= e {
        EmptyLevelStays(w, d, e);
      } else {
        var rest := UptoGrows(w, e, d);
        forall k | 0 <= k < |Upto(w, e)| ensures w(k, Upto(w, e)[k]).Answered? {
          assert Upto(w, d)[k] == Upto(w, e)[k];
        }
      }
    }
  }

  /** The plan covers the whole tree. */
  ghost predicate Whole(w: Worker, plan: Plan) {
    exists end: nat :: Level(w, end) == [] && AllAnswered(w, Upto(w, end)) && plan == PlanOf(w, Upto(w, end))
  }

  /** Whatever the worker does, a plan covers the whole tree exactly if the worker answers every request. */
  lemma {:induction false} PlanWholeIffAlwaysAnswers(w: Worker, maxPages: nat, interrupted: nat -> bool, r: Outcome)
    requires Explained(w, maxPages, interrupted, r) && r.Planned?
    ensures Whole(w, r.plan) <==> AlwaysAnswers(w)
  {
    var d: nat, i: nat :| i <= |Level(w, d)| && Justified(w, maxPages, interrupted, r, d, i);
    if Stopped(w, d, i) {
      if AlwaysAnswers(w) { AnswersAt(w, d, i); }
      forall end: nat | Level(w, end) == [] ensures r.plan.pages != |Upto(w, end)| {
        var rest := VisitedIsPrefix(w, d, i, end);
      }
    } else {
      assert Visited(w, d, i) == Upto(w, d);
      AnsweredToTheEnd(w, d);
    }
  }

  /** A root page that names one cursor, whose request comes back without a batch. */
  function Truncating(n: nat, c: Cursor): Response {
    if c == [] then Answered(Page(Facts(1, 0, "", [], []), None, None, [[7]], [[1]])) else Missing
  }

  predicate Truncates(w: Worker, n: nat, c: Cursor) {
    w(n, c) == Truncating(n, c)
  }

  lemma {:induction false} TruncatingLevels(w: Worker)
    requires forall n: nat, c: Cursor :: Truncates(w, n, c)
    ensures Level(w, 0) == [[]] && Level(w, 1) == [[1]] && Upto(w, 1) == [[]] && Upto(w, 2) == [[], [1]]
    ensures Level(w, 2) == []
  {
    assert Truncates(w, 0, []) && Truncates(w, 1, [1]);
    OneCursorLevel(w, 0, [], []);
    OneCursorLevel(w, 1, [[]], [1]);
  }

  /** Below a level of one cursor is what that cursor's page names. */
  lemma {:induction false} OneCursorLevel(w: Worker, d: nat, above: seq<Cursor>, c: Cursor)
    requires Tree(w, d) == Layers(above, [c])
    ensures Tree(w, d + 1) == Layers(above + [c], Kids(w, |above|, c))
  {
    ChildrenOfOne(w, |above|, c);
  }

  lemma {:induction false} ChildrenOfOne(w: Worker, base: nat, c: Cursor)
    ensures Children(w, base, [c]) == Kids(w, base, c)
  {
    ChildrenOfNext(w, base, [c], 0);
    assert [c][..1] == [c] && [c][..0] == [];
  }

  lemma {:induction false} BranchUnanswered(w: Worker, cs: seq<Cursor>)
    requires AllAnswered(w, cs) && forall n: nat, c: Cursor :: Truncates(w, n, c)
    ensures [1] !in cs
  {
    forall k | 0 <= k < |cs| ensures cs[k] != [1] {
      assert Truncates(w, k, cs[k]);
    }
  }

  lemma {:induction false} TruncatingVisits(w: Worker, d: nat, i: nat)
    requires forall n: nat, c: Cursor :: Truncates(w, n, c)
    requires i <= |Level(w, d)| && AllAnswered(w, Visited(w, d, i))
    ensures |Level(w, d)| == 1 && (Visited(w, d, i) == [] || Visited(w, d, i) == [[]])
  {
    TruncatingLevels(w);
    assert [1] in Upto(w, 2) by { assert Upto(w, 2)[1] == [1]; }
    BranchUnanswered(w, Visited(w, d, i));
    if d >= 2 {
      EmptyLevelStays(w, 2, d);
    }
  }

  /** Such a request ends planning early with a plan, although a branch that was named is not in it. */
  lemma {:induction false} UnansweredPageTruncates(w: Worker, maxPages: nat, interrupted: nat -> bool, r: Outcome)
    requires forall n: nat, c: Cursor :: Truncates(w, n, c)
    requires Explained(w, maxPages, interrupted, r) && maxPages >= 2 && forall k :: !interrupted(k)
    ensures r.Planned? && r.plan.pages == 1 && r.plan.splits == [[7]]
    ensures [1] in Level(w, 1) && [1] in Upto(w, 2)
  {
    var d: nat, i: nat :| i <= |Level(w, d)| && Justified(w, maxPages, interrupted, r, d, i);
    TruncatingVisits(w, d, i);
    assert Truncates(w, 0, []) && Truncates(w, 1, [1]);
    SplitsOfOne(w, []);
    TruncatingLevels(w);
  }
}
