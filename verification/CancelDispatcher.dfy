/**
 The background dispatcher of src/vgi_cancel_dispatcher.cpp: any number of threads suspend, resume,
 enqueue, start the worker, drain or destroy it while the worker loop runs. Every atomic load or
 store, every mutex acquisition, every queue operation is a step of its own, and steps of different
 threads interleave freely (sequentially consistent).
 */
module CancelDispatcher {
  import opened Options

  /** A request; `live` is whether it carries what processing it needs (a connection). */
  datatype Req = Req(id: nat, live: bool)

  datatype Kind = Cancel | Close

  datatype Offer = Offer(req: Req, kind: Kind)

  /** Who is processing a request: the worker loop or a draining caller. */
  datatype Role = Worker | Drainer

  datatype Job = Job(role: Role, req: Req, kind: Kind)

  /** Suspend, Resume, and the destructor, which goes on with Suspend. */
  datatype SuspendStage =
    | SuspendStore | Interrupting | AwaitProcessing | Resetting | Unlocking | ResumeCheck | ResumeStore | Destroying

  /** Enqueue and EnqueueStreamingClose. */
  datatype EnqueueStage = CheckShutdown | CheckAccepting | CheckRunning | AddPending | Put | TakeBack

  /** StartWorker. */
  datatype StartStage = StartCheck | AwaitStart | Recheck | Spawn | StoreStarted | StartUnlock

  /** WorkerLoop and DrainForTesting. */
  datatype LoopStage = WorkerStart | LoopHead | TryDequeue(role: Role, kind: Kind) | Subtract(taken: Job)

  /** ProcessOne, ProcessStreamingClose and, within them, BotContext. */
  datatype ProcessStage =
    | AwaitTurn | HasTarget | AwaitConn | BotShutdown | BotAccepting | BotCreate | BotRefused | Using | Finish

  /** Where a thread is; `after` is the enqueue a StartWorker is part of. */
  datatype Pc =
    | Suspending(suspend: SuspendStage)
    | Enqueuing(enqueue: EnqueueStage, offer: Offer)
    | Starting(start: StartStage, after: Option<Offer>)
    | Looping(loop: LoopStage)
    | Processing(stage: ProcessStage, job: Job)

  /** Holding processing_mutex_. */
  predicate HoldsProcessing(pc: Pc) {
    (pc.Suspending? && (pc.suspend.Resetting? || pc.suspend.Unlocking?)) || (pc.Processing? && !pc.stage.AwaitTurn?)
  }

  /** Holding conn_mutex_ across steps. */
  predicate HoldsConn(pc: Pc) {
    pc.Processing? && (pc.stage.BotShutdown? || pc.stage.BotAccepting? || pc.stage.BotCreate? || pc.stage.BotRefused?)
  }

  /** Holding start_mutex_. */
  predicate HoldsStart(pc: Pc) {
    pc.Starting? && !pc.start.StartCheck? && !pc.start.AwaitStart?
  }

  /** Let through by BotContext's check: about to hold, or holding, a bot context. */
  predicate Entered(pc: Pc) {
    pc.Processing? && (pc.stage.BotCreate? || pc.stage.Using?)
  }

  /** Processing a request with a bot context. */
  predicate Uses(pc: Pc) {
    pc.Processing? && pc.stage.Using?
  }

  datatype Gates = Gates(
    accepting: bool, shutdown: bool, context: bool, processing: Option<nat>, conn: Option<nat>)

  datatype Starts = Starts(
    started: bool, running: bool, starting: Option<nat>, threads: nat, born: nat)

  /** Where a request is. */
  datatype Place = Offered(thread: nat) | InCancels | InCloses | Taken | Refused

  datatype Queues = Queues(
    pending: int, cancels: seq<Req>, closes: seq<Req>,
    places: map<nat, Place>,       // history: every request ever offered
    dequeued: seq<nat>             // history: the requests dequeued, in order
  )

  datatype State = State(explicitOnly: bool, gates: Gates, starts: Starts, queues: Queues, pcs: map<nat, Pc>)

  /** What one step does: where the thread goes (`None`: it returns) and what it changes. */
  datatype Effect = Effect(next: Option<Pc>, gates: Gates, starts: Starts, queues: Queues)

  function Go(s: State, pc: Pc): Effect {
    Effect(Some(pc), s.gates, s.starts, s.queues)
  }

  function Return(s: State): Effect {
    Effect(None, s.gates, s.starts, s.queues)
  }

  function Refuse(s: State, offer: Offer): Effect {
    Return(s).(queues := s.queues.(places := s.queues.places[offer.req.id := Refused]))
  }

  /** What follows StartWorker. */
  function AfterStart(s: State, after: Option<Offer>): Effect {
    match after
    case None => Return(s)
    case Some(offer) => Go(s, Enqueuing(AddPending, offer))
  }

  function Fails(s: State, after: Option<Offer>): Effect {
    match after
    case None => Return(s)
    case Some(offer) => Refuse(s, offer)
  }

  function Without(q: seq<Req>, k: nat): seq<Req>
    requires k < |q|
  {
    q[..k] + q[k + 1..]
  }

  function QueueOf(q: Queues, kind: Kind): seq<Req> {
    if kind == Cancel then q.cancels else q.closes
  }

  function PlaceOf(kind: Kind): Place {
    if kind == Cancel then InCancels else InCloses
  }

  function WithQueue(q: Queues, kind: Kind, reqs: seq<Req>): Queues {
    if kind == Cancel then q.(cancels := reqs) else q.(closes := reqs)
  }

  /** `queue.try_dequeue`: the element at `choice`, or a failure. */
  function Dequeue(s: State, role: Role, kind: Kind, choice: nat): Effect {
    var q := s.queues;
    var reqs := QueueOf(q, kind);
    if choice < |reqs| then
      var req := reqs[choice];
      Go(s, Looping(Subtract(Job(role, req, kind))))
        .(queues := WithQueue(q, kind, Without(reqs, choice))
                      .(places := q.places[req.id := Taken], dequeued := q.dequeued + [req.id]))
    else if kind == Cancel then Go(s, Looping(TryDequeue(role, Close)))
    else if role == Worker then Go(s, Looping(LoopHead))
    else Return(s)
  }

  function SuspendStep(s: State, t: nat, stage: SuspendStage): Option<Effect> {
    var g := s.gates;
    match stage
    case SuspendStore => Some(Go(s, Suspending(Interrupting)).(gates := g.(accepting := false)))
    case Interrupting => if g.conn.Some? then None else Some(Go(s, Suspending(AwaitProcessing)))
    case AwaitProcessing =>
      if g.processing.Some? then None else Some(Go(s, Suspending(Resetting)).(gates := g.(processing := Some(t))))
    case Resetting =>
      if g.conn.Some? then None else Some(Go(s, Suspending(Unlocking)).(gates := g.(context := false)))
    case Unlocking => Some(Return(s).(gates := g.(processing := None)))
    case ResumeCheck => Some(if g.shutdown then Return(s) else Go(s, Suspending(ResumeStore)))
    case ResumeStore => Some(Return(s).(gates := g.(accepting := true)))
    case Destroying => Some(Go(s, Suspending(SuspendStore)).(gates := g.(shutdown := true)))
  }

  function EnqueueStep(s: State, stage: EnqueueStage, o: Offer, choice: nat): Effect {
    var q := s.queues;
    match stage
    case CheckShutdown => if s.gates.shutdown then Refuse(s, o) else Go(s, Enqueuing(CheckAccepting, o))
    case CheckAccepting => if s.gates.accepting then Go(s, Enqueuing(CheckRunning, o)) else Refuse(s, o)
    case CheckRunning =>
      if s.starts.running then Go(s, Enqueuing(AddPending, o))
      else if s.explicitOnly then Refuse(s, o)
      else Go(s, Starting(StartCheck, Some(o)))
    case AddPending => Go(s, Enqueuing(Put, o)).(queues := q.(pending := q.pending + 1))
    case Put =>
      if choice == 0 then
        Return(s).(queues := WithQueue(q, o.kind, QueueOf(q, o.kind) + [o.req])
                               .(places := q.places[o.req.id := PlaceOf(o.kind)]))
      else Go(s, Enqueuing(TakeBack, o))
    case TakeBack => Return(s).(queues := q.(pending := q.pending - 1, places := q.places[o.req.id := Refused]))
  }

  function StartStep(s: State, t: nat, stage: StartStage, a: Option<Offer>, choice: nat): Option<Effect> {
    match stage
    case StartCheck => Some(if s.starts.started then AfterStart(s, a) else Go(s, Starting(AwaitStart, a)))
    case AwaitStart =>
      if s.starts.starting.Some? then None
      else Some(Go(s, Starting(Recheck, a)).(starts := s.starts.(starting := Some(t))))
    case Recheck => Some(Go(s, Starting(if s.starts.started then StartUnlock else Spawn, a)))
    case Spawn =>
      Some(if choice == 0 then Go(s, Starting(StoreStarted, a)).(starts := s.starts.(threads := s.starts.threads + 1))
           else Fails(s, a).(starts := s.starts.(starting := None)))
    case StoreStarted => Some(Go(s, Starting(StartUnlock, a)).(starts := s.starts.(started := true)))
    case StartUnlock => Some(AfterStart(s, a).(starts := s.starts.(starting := None)))
  }

  function LoopStep(s: State, stage: LoopStage, choice: nat): Effect {
    match stage
    case WorkerStart => Go(s, Looping(LoopHead)).(starts := s.starts.(running := true))
    case LoopHead => if s.gates.shutdown then Return(s) else Go(s, Looping(TryDequeue(Worker, Cancel)))
    case TryDequeue(role, kind) => Dequeue(s, role, kind, choice)
    case Subtract(job) => Go(s, Processing(AwaitTurn, job)).(queues := s.queues.(pending := s.queues.pending - 1))
  }

  function ProcessStep(s: State, t: nat, stage: ProcessStage, job: Job): Option<Effect> {
    var g := s.gates;
    match stage
    case AwaitTurn =>
      if g.processing.Some? then None else Some(Go(s, Processing(HasTarget, job)).(gates := g.(processing := Some(t))))
    case HasTarget => Some(Go(s, Processing(if job.req.live then AwaitConn else Finish, job)))
    case AwaitConn =>
      if g.conn.Some? then None else Some(Go(s, Processing(BotShutdown, job)).(gates := g.(conn := Some(t))))
    case BotShutdown => Some(Go(s, Processing(if g.shutdown then BotRefused else BotAccepting, job)))
    case BotAccepting => Some(Go(s, Processing(if g.accepting then BotCreate else BotRefused, job)))
    case BotCreate => Some(Go(s, Processing(Using, job)).(gates := g.(context := true, conn := None)))
    case BotRefused => Some(Go(s, Processing(Finish, job)).(gates := g.(conn := None)))
    case Using => Some(Go(s, Processing(Finish, job)))
    case Finish =>
      Some(Go(s, Looping(if job.role == Worker then LoopHead else TryDequeue(Drainer, job.kind)))
             .(gates := g.(processing := None)))
  }

  /** The next step of a thread; `None` while it is blocked. */
  function Next(s: State, t: nat, pc: Pc, choice: nat): Option<Effect> {
    match pc
    case Suspending(stage) => SuspendStep(s, t, stage)
    case Enqueuing(stage, offer) => Some(EnqueueStep(s, stage, offer, choice))
    case Starting(stage, after) => StartStep(s, t, stage, after, choice)
    case Looping(stage) => Some(LoopStep(s, stage, choice))
    case Processing(stage, job) => ProcessStep(s, t, stage, job)
  }

  datatype Op = Suspend | Resume | Destroy | StartWorker | Drain | Work | Enqueue(req: Req, kind: Kind)

  /** A thread enters an operation; the worker's thread can only exist once it was spawned. */
  function Enter(s: State, t: nat, op: Op): Option<Effect> {
    match op
    case Suspend => Some(Go(s, Suspending(SuspendStore)))
    case Resume => Some(Go(s, Suspending(ResumeCheck)))
    case Destroy => Some(Go(s, Suspending(Destroying)))
    case StartWorker => Some(Go(s, Starting(StartCheck, None)))
    case Drain => Some(Go(s, Looping(TryDequeue(Drainer, Cancel))))
    case Work =>
      if s.starts.born < s.starts.threads then
        Some(Go(s, Looping(WorkerStart)).(starts := s.starts.(born := s.starts.born + 1)))
      else None
    case Enqueue(req, kind) =>
      if req.id in s.queues.places then None
      else Some(Go(s, Enqueuing(CheckShutdown, Offer(req, kind)))
                  .(queues := s.queues.(places := s.queues.places[req.id := Offered(t)])))
  }

  datatype Event = Begin(thread: nat, op: Op) | Step(thread: nat, choice: nat)

  function EffectOf(s: State, e: Event): Option<Effect> {
    match e
    case Begin(t, op) => if t in s.pcs then None else Enter(s, t, op)
    case Step(t, choice) => if t in s.pcs then Next(s, t, s.pcs[t], choice) else None
  }

  function Apply(s: State, t: nat, e: Effect): State {
    State(s.explicitOnly, e.gates, e.starts, e.queues,
          match e.next case None => s.pcs - {t} case Some(pc) => s.pcs[t := pc])
  }

  predicate Takes(s: State, e: Event, t: State) {
    EffectOf(s, e).Some? && t == Apply(s, e.thread, EffectOf(s, e).value)
  }

  predicate Init(s: State) {
    s.gates == Gates(true, false, false, None, None) && s.starts == Starts(false, false, None, 0, 0) &&
    s.queues == Queues(0, [], [], map[], []) && s.pcs == map[]
  }

  // ---------------------------------------------------------------------------------------------
  // Mutual exclusion
  // ---------------------------------------------------------------------------------------------

  predicate Exclusive(s: State) {
    forall u :: u in s.pcs ==>
      (HoldsProcessing(s.pcs[u]) ==> s.gates.processing == Some(u)) &&
      (HoldsConn(s.pcs[u]) ==> s.gates.conn == Some(u))
  }

  /** One mutex: `mine` tells whether the thread holds it before, `will` after. */
  predicate MutexStep(before: Option<nat>, after: Option<nat>, t: nat, mine: bool, will: bool) {
    (will ==> after == Some(t)) &&
    (after == before || (before == None && after == Some(t)) || (mine && after == None))
  }

  lemma {:induction false} NextProcessing(s: State, t: nat, pc: Pc, choice: nat)
    requires Next(s, t, pc, choice).Some?
    requires HoldsProcessing(pc) ==> s.gates.processing == Some(t)
    ensures var e := Next(s, t, pc, choice).value;
      MutexStep(s.gates.processing, e.gates.processing, t, HoldsProcessing(pc), e.next.Some? && HoldsProcessing(e.next.value))
  {
  }

  lemma {:induction false} NextConn(s: State, t: nat, pc: Pc, choice: nat)
    requires Next(s, t, pc, choice).Some?
    requires HoldsConn(pc) ==> s.gates.conn == Some(t)
    ensures var e := Next(s, t, pc, choice).value;
      MutexStep(s.gates.conn, e.gates.conn, t, HoldsConn(pc), e.next.Some? && HoldsConn(e.next.value))
  {
  }

  lemma {:induction false} ExclusiveKept(s: State, e: Event, t: State)
    requires Exclusive(s) && Takes(s, e, t)
    ensures Exclusive(t)
  {
    if e.Step? {
      NextProcessing(s, e.thread, s.pcs[e.thread], e.choice);
      NextConn(s, e.thread, s.pcs[e.thread], e.choice);
    }
  }

  // ---------------------------------------------------------------------------------------------
  // One worker
  // ---------------------------------------------------------------------------------------------

  /** Outside the spawning step, the flag says whether the worker thread exists. */
  predicate Agree(s: Starts) {
    s.threads == if s.started then 1 else 0
  }

  predicate StartOk(s: Starts, pc: Pc) {
    match pc
    case Starting(Spawn, _) => s.threads == 0 && !s.started
    case Starting(StoreStarted, _) => s.threads == 1 && !s.started
    case _ => Agree(s)
  }

  predicate OneWorker(s: State) {
    s.starts.threads <= 1 && s.starts.born <= s.starts.threads &&
    (s.starts.starting == None ==> Agree(s.starts)) &&
    forall u :: u in s.pcs && HoldsStart(s.pcs[u]) ==> s.starts.starting == Some(u) && StartOk(s.starts, s.pcs[u])
  }

  lemma {:induction false} NextStarts(s: State, t: nat, pc: Pc, choice: nat)
    requires Next(s, t, pc, choice).Some?
    requires s.starts.threads <= 1 && s.starts.born <= s.starts.threads && (s.starts.starting == None ==> Agree(s.starts))
    requires HoldsStart(pc) ==> s.starts.starting == Some(t) && StartOk(s.starts, pc)
    ensures var e := Next(s, t, pc, choice).value;
      e.starts.threads <= 1 && e.starts.born <= e.starts.threads && (e.starts.starting == None ==> Agree(e.starts)) &&
      MutexStep(s.starts.starting, e.starts.starting, t, HoldsStart(pc), e.next.Some? && HoldsStart(e.next.value)) &&
      (e.next.Some? && HoldsStart(e.next.value) ==> StartOk(e.starts, e.next.value)) &&
      (!HoldsStart(pc) ==> e.starts.threads == s.starts.threads && e.starts.started == s.starts.started)
  {
  }

  lemma {:induction false} OneWorkerKept(s: State, e: Event, t: State)
    requires OneWorker(s) && Takes(s, e, t)
    ensures OneWorker(t)
  {
    if e.Step? { NextStarts(s, e.thread, s.pcs[e.thread], e.choice); }
  }

  // ---------------------------------------------------------------------------------------------
  // The pending count
  // ---------------------------------------------------------------------------------------------

  /** Counted in pending_count_ but in no queue: about to be put, or taken out. */
  predicate Counting(pc: Pc) {
    (pc.Enqueuing? && (pc.enqueue.Put? || pc.enqueue.TakeBack?)) || (pc.Looping? && pc.loop.Subtract?)
  }

  function InFlight(s: State): set<nat> {
    set u | u in s.pcs && Counting(s.pcs[u])
  }

  predicate PendingExact(s: State) {
    s.queues.pending == |s.queues.cancels| + |s.queues.closes| + |InFlight(s)|
  }

  function Bit(b: bool): int {
    if b then 1 else 0
  }

  lemma {:induction false} NextPending(s: State, t: nat, pc: Pc, choice: nat)
    requires Next(s, t, pc, choice).Some?
    ensures var e := Next(s, t, pc, choice).value;
      e.queues.pending - |e.queues.cancels| - |e.queues.closes| - Bit(e.next.Some? && Counting(e.next.value)) ==
      s.queues.pending - |s.queues.cancels| - |s.queues.closes| - Bit(Counting(pc))
  {
  }

  lemma {:induction false} CountWithout(all: set<nat>, t: nat)
    ensures |all| == |all - {t}| + Bit(t in all)
  {
    if t in all { assert all == (all - {t}) + {t}; } else { assert all == all - {t}; }
  }

  lemma {:induction false} InFlightStep(s: State, t: nat, e: Effect)
    ensures |InFlight(Apply(s, t, e))| - Bit(e.next.Some? && Counting(e.next.value)) ==
            |InFlight(s)| - Bit(t in s.pcs && Counting(s.pcs[t]))
  {
    var after := Apply(s, t, e);
    var rest := InFlight(s) - {t};
    if e.next.Some? && Counting(e.next.value) {
      assert InFlight(after) == rest + {t};
    } else {
      assert InFlight(after) == rest;
    }
    CountWithout(InFlight(s), t);
  }

  lemma {:induction false} PendingKept(s: State, e: Event, t: State)
    requires PendingExact(s) && Takes(s, e, t)
    ensures PendingExact(t)
  {
    InFlightStep(s, e.thread, EffectOf(s, e).value);
    if e.Step? { NextPending(s, e.thread, s.pcs[e.thread], e.choice); }
  }

  // ---------------------------------------------------------------------------------------------
  // Where requests go
  // ---------------------------------------------------------------------------------------------

  /** The requests `reqs` are all different and all at `place`. */
  predicate Placed(places: map<nat, Place>, reqs: seq<Req>, place: Place) {
    (forall k :: 0 <= k < |reqs| ==> reqs[k].id in places && places[reqs[k].id] == place) &&
    forall i, j :: 0 <= i < j < |reqs| ==> reqs[i].id != reqs[j].id
  }

  predicate TakenOnce(q: Queues) {
    (forall k :: 0 <= k < |q.dequeued| ==> q.dequeued[k] in q.places && q.places[q.dequeued[k]] == Taken) &&
    forall i, j :: 0 <= i < j < |q.dequeued| ==> q.dequeued[i] != q.dequeued[j]
  }

  predicate QueuesOk(q: Queues) {
    Placed(q.places, q.cancels, InCancels) && Placed(q.places, q.closes, InCloses) && TakenOnce(q)
  }

  function OfferOf(pc: Pc): Option<Offer> {
    match pc
    case Enqueuing(_, o) => Some(o)
    case Starting(_, after) => after
    case _ => None
  }

  predicate OfferOk(places: map<nat, Place>, u: nat, pc: Pc) {
    OfferOf(pc).Some? ==> OfferOf(pc).value.req.id in places && places[OfferOf(pc).value.req.id] == Offered(u)
  }

  predicate Filed(s: State) {
    QueuesOk(s.queues) && forall u :: u in s.pcs ==> OfferOk(s.queues.places, u, s.pcs[u])
  }

  /** A request that is only on offer may be moved anywhere else: the queues do not have it. */
  lemma {:induction false} MovedOffer(q: Queues, id: nat, place: Place)
    requires QueuesOk(q) && (id in q.places ==> q.places[id].Offered?)
    requires place.Offered? || place.Refused?
    ensures QueuesOk(q.(places := q.places[id := place]))
  {
  }

  lemma {:induction false} PutKept(q: Queues, o: Offer)
    requires QueuesOk(q) && o.req.id in q.places && q.places[o.req.id].Offered?
    ensures QueuesOk(WithQueue(q, o.kind, QueueOf(q, o.kind) + [o.req]).(places := q.places[o.req.id := PlaceOf(o.kind)]))
  {
  }

  lemma {:induction false} WithoutPlaced(places: map<nat, Place>, reqs: seq<Req>, k: nat, place: Place, other: Place)
    requires Placed(places, reqs, place) && k < |reqs|
    ensures Placed(places[reqs[k].id := other], Without(reqs, k), place)
  {
    var rest := Without(reqs, k);
    forall i | 0 <= i < |rest| ensures rest[i] == reqs[if i < k then i else i + 1] && rest[i].id != reqs[k].id {
    }
  }

  lemma {:induction false} DequeueKept(s: State, role: Role, kind: Kind, choice: nat)
    requires QueuesOk(s.queues) && choice < |QueueOf(s.queues, kind)|
    ensures QueuesOk(Dequeue(s, role, kind, choice).queues)
  {
    WithoutPlaced(s.queues.places, QueueOf(s.queues, kind), choice, PlaceOf(kind), Taken);
  }

  /** Only the thread's own offer, or a queued request, changes its place. */
  predicate PlacesOk(s: State, t: nat, e: Effect) {
    QueuesOk(e.queues) && (e.next.Some? ==> OfferOk(e.queues.places, t, e.next.value)) &&
    forall id :: id in s.queues.places && s.queues.places[id].Offered? && s.queues.places[id].thread != t ==>
      id in e.queues.places && e.queues.places[id] == s.queues.places[id]
  }

  lemma {:induction false} DequeuePlaces(s: State, t: nat, role: Role, kind: Kind, choice: nat)
    requires QueuesOk(s.queues)
    ensures PlacesOk(s, t, Dequeue(s, role, kind, choice))
  {
    if choice < |QueueOf(s.queues, kind)| { DequeueKept(s, role, kind, choice); }
  }

  lemma {:induction false} EnqueuePlaces(s: State, t: nat, stage: EnqueueStage, o: Offer, choice: nat)
    requires QueuesOk(s.queues) && OfferOk(s.queues.places, t, Enqueuing(stage, o))
    ensures PlacesOk(s, t, EnqueueStep(s, stage, o, choice))
  {
    if stage.Put? {
      PutKept(s.queues, o);
    } else {
      MovedOffer(s.queues, o.req.id, Refused);
    }
  }

  lemma {:induction false} StartPlaces(s: State, t: nat, stage: StartStage, a: Option<Offer>, choice: nat)
    requires StartStep(s, t, stage, a, choice).Some? && QueuesOk(s.queues) && OfferOk(s.queues.places, t, Starting(stage, a))
    ensures PlacesOk(s, t, StartStep(s, t, stage, a, choice).value)
  {
    if a.Some? { MovedOffer(s.queues, a.value.req.id, Refused); }
  }

  lemma {:induction false} NextPlaces(s: State, t: nat, pc: Pc, choice: nat)
    requires Next(s, t, pc, choice).Some? && QueuesOk(s.queues) && OfferOk(s.queues.places, t, pc)
    ensures PlacesOk(s, t, Next(s, t, pc, choice).value)
  {
    match pc
    case Enqueuing(stage, o) => EnqueuePlaces(s, t, stage, o, choice);
    case Starting(stage, a) => StartPlaces(s, t, stage, a, choice);
    case Looping(stage) => if stage.TryDequeue? { DequeuePlaces(s, t, stage.role, stage.kind, choice); }
    case _ =>
  }

  lemma {:induction false} FiledKept(s: State, e: Event, t: State)
    requires Filed(s) && Takes(s, e, t)
    ensures Filed(t)
  {
    if e.Step? {
      NextPlaces(s, e.thread, s.pcs[e.thread], e.choice);
    } else if e.op.Enqueue? {
      MovedOffer(s.queues, e.op.req.id, Offered(e.thread));
    }
  }

  // ---------------------------------------------------------------------------------------------
  // Runs
  // ---------------------------------------------------------------------------------------------

  predicate Inv(s: State) {
    Exclusive(s) && OneWorker(s) && PendingExact(s) && Filed(s)
  }

  predicate Run(states: seq<State>, events: seq<Event>) {
    |states| == |events| + 1 && Init(states[0]) &&
    forall i :: 0 <= i < |events| ==> Takes(states[i], events[i], states[i + 1])
  }

  lemma {:induction false} RunInv(states: seq<State>, events: seq<Event>, i: nat)
    requires Run(states, events) && i < |states|
    ensures Inv(states[i])
  {
    if i == 0 {
      assert InFlight(states[0]) == {};
    } else {
      var s, e, t := states[i - 1], events[i - 1], states[i];
      RunInv(states, events, i - 1);
      ExclusiveKept(s, e, t);
      OneWorkerKept(s, e, t);
      PendingKept(s, e, t);
      FiledKept(s, e, t);
    }
  }

  /** At most one worker thread is ever started. */
  lemma {:induction false} AtMostOneWorker(states: seq<State>, events: seq<Event>, i: nat)
    requires Run(states, events) && i < |states|
    ensures states[i].starts.threads <= 1 && states[i].starts.born <= states[i].starts.threads
  {
    RunInv(states, events, i);
  }

  /** pending_count_ is never below the queue lengths; the excess is the requests in a thread's hands. */
  lemma {:induction false} PendingCoversQueues(states: seq<State>, events: seq<Event>, i: nat)
    requires Run(states, events) && i < |states|
    ensures states[i].queues.pending ==
      |states[i].queues.cancels| + |states[i].queues.closes| + |InFlight(states[i])|
  {
    RunInv(states, events, i);
  }

  /** Each request is dequeued at most once, and one that was refused never is. */
  lemma {:induction false} DequeuedAtMostOnce(states: seq<State>, events: seq<Event>, i: nat)
    requires Run(states, events) && i < |states|
    ensures var q := states[i].queues;
      (forall a, b :: 0 <= a < b < |q.dequeued| ==> q.dequeued[a] != q.dequeued[b]) &&
      forall a :: 0 <= a < |q.dequeued| ==> q.dequeued[a] in q.places && !q.places[q.dequeued[a]].Refused?
  {
    RunInv(states, events, i);
  }

  // ---------------------------------------------------------------------------------------------
  // Suspend
  // ---------------------------------------------------------------------------------------------

  predicate NoneEntered(s: State) {
    forall u :: u in s.pcs ==> !Entered(s.pcs[u])
  }

  /** What Suspend promises: new work is refused, there is no bot context, and nobody processes a request with one. */
  predicate Quiet(s: State) {
    !s.gates.accepting && !s.gates.context && NoneEntered(s)
  }

  /** The step in which a Resume stores accepting_. */
  predicate StoresAccepting(s: State, e: Event) {
    e.Step? && e.thread in s.pcs && s.pcs[e.thread] == Suspending(ResumeStore)
  }

  /** How far the Suspend of thread `u` has come, and what holds by then. */
  predicate OnTheWay(s: State, u: nat) {
    u in s.pcs && !s.gates.accepting &&
    s.pcs[u].Suspending? &&
    match s.pcs[u].suspend
    case Interrupting | AwaitProcessing => true
    case Resetting => NoneEntered(s)
    case Unlocking => NoneEntered(s) && !s.gates.context
    case _ => false
  }

  lemma {:induction false} NextRefuses(s: State, t: nat, pc: Pc, choice: nat)
    requires Next(s, t, pc, choice).Some? && !s.gates.accepting && pc != Suspending(ResumeStore)
    ensures var e := Next(s, t, pc, choice).value;
      !e.gates.accepting &&
      (!Entered(pc) ==> (e.gates.context ==> s.gates.context) && !(e.next.Some? && Entered(e.next.value)))
  {
  }

  /** While requests are refused and none has entered, none enters. */
  lemma {:induction false} NoneEnters(s: State, e: Event, t: State)
    requires !s.gates.accepting && Takes(s, e, t) && !StoresAccepting(s, e)
    ensures !t.gates.accepting
    ensures NoneEntered(s) ==> NoneEntered(t) && (t.gates.context ==> s.gates.context)
  {
    if e.Step? { NextRefuses(s, e.thread, s.pcs[e.thread], e.choice); }
  }

  lemma {:induction false} SuspendingKept(s: State, e: Event, t: State, u: nat)
    requires Exclusive(s) && OnTheWay(s, u) && Takes(s, e, t) && !StoresAccepting(s, e)
    ensures OnTheWay(t, u) || Quiet(t)
  {
    NoneEnters(s, e, t);
  }

  lemma {:induction false} SuspendProgress(states: seq<State>, events: seq<Event>, u: nat, i: nat, k: nat)
    requires Run(states, events) && i < k < |states|
    requires events[i].Step? && events[i].thread == u && u in states[i].pcs && states[i].pcs[u] == Suspending(SuspendStore)
    requires forall m :: i < m < k ==> !StoresAccepting(states[m], events[m])
    ensures OnTheWay(states[k], u) || Quiet(states[k])
    decreases k
  {
    assert Takes(states[k - 1], events[k - 1], states[k]);
    if k > i + 1 {
      SuspendProgress(states, events, u, i, k - 1);
      RunInv(states, events, k - 1);
      if Quiet(states[k - 1]) {
        NoneEnters(states[k - 1], events[k - 1], states[k]);
      } else {
        SuspendingKept(states[k - 1], events[k - 1], states[k], u);
      }
    }
  }

  lemma {:induction false} QuietStays(states: seq<State>, events: seq<Event>, r: nat, j: nat)
    requires Run(states, events) && r <= j < |states| && Quiet(states[r])
    requires forall m :: r <= m < j ==> !StoresAccepting(states[m], events[m])
    ensures Quiet(states[j])
    decreases j
  {
    if r < j {
      QuietStays(states, events, r, j - 1);
      assert Takes(states[j - 1], events[j - 1], states[j]);
      NoneEnters(states[j - 1], events[j - 1], states[j]);
    }
  }

  /**
   Thread `u` stores accepting_ = false at `i` and has returned from Suspend by `r`. As long as no
   Resume has stored accepting_ = true since `i`, the bot context is null and no request is being
   processed with one.
   */
  lemma {:induction false} SuspendQuiets(states: seq<State>, events: seq<Event>, u: nat, i: nat, r: nat, j: nat)
    requires Run(states, events) && i < r <= j < |states|
    requires events[i].Step? && events[i].thread == u && u in states[i].pcs && states[i].pcs[u] == Suspending(SuspendStore)
    requires u !in states[r].pcs
    requires forall m :: i < m < j ==> !StoresAccepting(states[m], events[m])
    ensures Quiet(states[j])
  {
    SuspendProgress(states, events, u, i, r);
    QuietStays(states, events, r, j);
  }

  // ---------------------------------------------------------------------------------------------
  // What a caller of Suspend can rely on
  // ---------------------------------------------------------------------------------------------

  /** A Resume that was called earlier can still store its flag. */
  predicate ResumePending(s: State) {
    exists u :: u in s.pcs && (s.pcs[u] == Suspending(ResumeStore) ||
                               (s.pcs[u] == Suspending(ResumeCheck) && !s.gates.shutdown))
  }

  predicate BeginsResume(e: Event) {
    e.Begin? && e.op.Resume?
  }

  lemma {:induction false} NextPendsNoResume(s: State, t: nat, pc: Pc, choice: nat)
    requires Next(s, t, pc, choice).Some?
    ensures var e := Next(s, t, pc, choice).value;
      (s.gates.shutdown ==> e.gates.shutdown) && e.next != Some(Suspending(ResumeCheck)) &&
      (e.next == Some(Suspending(ResumeStore)) ==> pc == Suspending(ResumeCheck) && !s.gates.shutdown)
  {
  }

  /** Only calling Resume makes one pending. */
  lemma {:induction false} NonePends(s: State, e: Event, t: State)
    requires !ResumePending(s) && Takes(s, e, t) && !BeginsResume(e)
    ensures !ResumePending(t) && !StoresAccepting(s, e)
  {
    if e.Step? { NextPendsNoResume(s, e.thread, s.pcs[e.thread], e.choice); }
  }

  lemma {:induction false} RunNonePends(states: seq<State>, events: seq<Event>, b: nat, j: nat)
    requires Run(states, events) && b <= j < |states| && !ResumePending(states[b])
    requires forall m :: b <= m < j ==> !BeginsResume(events[m])
    ensures !ResumePending(states[j])
    ensures forall m :: b <= m < j ==> !StoresAccepting(states[m], events[m])
    decreases j
  {
    if b < j {
      RunNonePends(states, events, b, j - 1);
      assert Takes(states[j - 1], events[j - 1], states[j]);
      NonePends(states[j - 1], events[j - 1], states[j]);
    }
  }

  /**
   Thread `u` is about to store accepting_ = false at `i` and has returned from Suspend by `r`. If no
   Resume was pending at `i` and none has been called since, the dispatcher is quiet at every `j` from
   `r` on, and the request to resume has to come from a new call.
   */
  lemma {:induction false} SuspendQuietsUntilResume(states: seq<State>, events: seq<Event>, u: nat, i: nat, r: nat, j: nat)
    requires Run(states, events) && i < r <= j < |states|
    requires events[i].Step? && events[i].thread == u && u in states[i].pcs && states[i].pcs[u] == Suspending(SuspendStore)
    requires u !in states[r].pcs
    requires !ResumePending(states[i]) && forall m :: i <= m < j ==> !BeginsResume(events[m])
    ensures Quiet(states[j]) && !ResumePending(states[j])
  {
    RunNonePends(states, events, i, j);
    SuspendQuiets(states, events, u, i, r, j);
  }

  // ---------------------------------------------------------------------------------------------
  // The condition is on the store, not on when Resume was called
  // ---------------------------------------------------------------------------------------------

  /** The events take `s` to `t`. */
  ghost predicate Leads(s: State, events: seq<Event>, t: State)
    decreases |events|
  {
    if events == [] then s == t
    else exists u :: Takes(s, events[0], u) && Leads(u, events[1..], t)
  }

  lemma {:induction false} Leads1(s: State, e: Event, t: State)
    requires Takes(s, e, t)
    ensures Leads(s, [e], t)
  {
    assert Leads(t, [e][1..], t);
  }

  lemma {:induction false} LeadsOn(s: State, a: seq<Event>, t: State, b: seq<Event>, u: State)
    requires Leads(s, a, t) && Leads(t, b, u)
    ensures Leads(s, a + b, u)
    decreases |a|
  {
    if a == [] {
      assert a + b == b;
    } else {
      var m :| Takes(s, a[0], m) && Leads(m, a[1..], t);
      LeadsOn(m, a[1..], t, b, u);
      assert (a + b)[1..] == a[1..] + b;
    }
  }

  predicate NoneBeginsResume(events: seq<Event>) {
    forall k :: 0 <= k < |events| ==> !BeginsResume(events[k])
  }

  /** Whatever the threads do, short of a new call of Resume, the dispatcher stays quiet. */
  ghost predicate StaysQuiet(s: State) {
    forall events: seq<Event>, t: State :: Leads(s, events, t) && NoneBeginsResume(events) ==> Quiet(t)
  }

  lemma {:induction false} LeadsQuiet(s: State, events: seq<Event>, t: State)
    requires Quiet(s) && !ResumePending(s) && Leads(s, events, t) && NoneBeginsResume(events)
    ensures Quiet(t)
    decreases |events|
  {
    if events != [] {
      var u :| Takes(s, events[0], u) && Leads(u, events[1..], t);
      NonePends(s, events[0], u);
      NoneEnters(s, events[0], u);
      LeadsQuiet(u, events[1..], t);
    }
  }

  /** A pending Resume opens the gate again in one or two steps of its own. */
  lemma {:induction false} PendingResumeStores(s: State) returns (events: seq<Event>, t: State)
    requires ResumePending(s)
    ensures Leads(s, events, t) && NoneBeginsResume(events) && t.gates.accepting
  {
    var u :| u in s.pcs && (s.pcs[u] == Suspending(ResumeStore) ||
                            (s.pcs[u] == Suspending(ResumeCheck) && !s.gates.shutdown));
    if s.pcs[u] == Suspending(ResumeStore) {
      events, t := [Step(u, 0)], s.(pcs := s.pcs - {u}, gates := s.gates.(accepting := true));
      Leads1(s, Step(u, 0), t);
    } else {
      var m := s.(pcs := s.pcs[u := Suspending(ResumeStore)]);
      t := m.(pcs := m.pcs - {u}, gates := m.gates.(accepting := true));
      events := [Step(u, 0)] + [Step(u, 0)];
      Leads1(s, Step(u, 0), m);
      Leads1(m, Step(u, 0), t);
      LeadsOn(s, [Step(u, 0)], m, [Step(u, 0)], t);
    }
  }

  /** Once quiet, the dispatcher stays so until the next call of Resume exactly if none is pending. */
  lemma {:induction false} StaysQuietIffNonePending(s: State)
    requires Quiet(s)
    ensures StaysQuiet(s) <==> !ResumePending(s)
  {
    if ResumePending(s) {
      var events, t := PendingResumeStores(s);
      assert !Quiet(t);
    } else {
      forall events: seq<Event>, t: State | Leads(s, events, t) && NoneBeginsResume(events) ensures Quiet(t) {
        LeadsQuiet(s, events, t);
      }
    }
  }

  lemma {:induction false} Leads3(s: State, e: Event, t: State, f: Event, u: State, g: Event, v: State)
    requires Takes(s, e, t) && Takes(t, f, u) && Takes(u, g, v)
    ensures Leads(s, [e, f, g], v)
  {
    Leads1(s, e, t);
    Leads1(t, f, u);
    Leads1(u, g, v);
    LeadsOn(s, [e], t, [f], u);
    LeadsOn(s, [e] + [f], u, [g], v);
    assert [e] + [f] + [g] == [e, f, g];
  }

  /** Three more steps of thread `t`. */
  function Steps(t: nat): seq<Event> {
    [Step(t, 0), Step(t, 0), Step(t, 0)]
  }

  function At(s: State, t: nat, pc: Pc, gates: Gates): State {
    s.(pcs := s.pcs[t := pc], gates := gates)
  }

  lemma {:induction false} DequeuesFirst(s: State, t: nat) returns (u: State)
    requires t in s.pcs && s.pcs[t] == Looping(TryDequeue(Worker, Cancel)) && s.queues.cancels != []
    ensures Takes(s, Step(t, 0), u) && u.gates == s.gates
    ensures u.pcs == s.pcs[t := Looping(Subtract(Job(Worker, s.queues.cancels[0], Cancel)))]
  {
    u := Apply(s, t, Dequeue(s, Worker, Cancel, 0));
  }

  lemma {:induction false} WorkerTakes(s: State, t: nat) returns (u: State, job: Job)
    requires t in s.pcs && s.pcs[t] == Looping(LoopHead) && !s.gates.shutdown && s.queues.cancels != []
    ensures job.req == s.queues.cancels[0] && u.pcs == s.pcs[t := Processing(AwaitTurn, job)] && u.gates == s.gates
    ensures Leads(s, Steps(t), u)
  {
    job := Job(Worker, s.queues.cancels[0], Cancel);
    var s1 := At(s, t, Looping(TryDequeue(Worker, Cancel)), s.gates);
    var s2 := DequeuesFirst(s1, t);
    u := At(s2, t, Processing(AwaitTurn, job), s.gates).(queues := s2.queues.(pending := s2.queues.pending - 1));
    assert u.pcs == s.pcs[t := Processing(AwaitTurn, job)];
    Leads3(s, Step(t, 0), s1, Step(t, 0), s2, Step(t, 0), u);
  }

  /** Nobody else is in the way: a request can be processed at once. */
  predicate Open(g: Gates) {
    g.accepting && !g.shutdown && g.processing == None && g.conn == None
  }

  lemma {:induction false} JobLocks(s: State, t: nat, job: Job) returns (u: State)
    requires t in s.pcs && s.pcs[t] == Processing(AwaitTurn, job) && job.req.live && Open(s.gates)
    ensures u == At(s, t, Processing(BotShutdown, job), s.gates.(processing := Some(t), conn := Some(t)))
    ensures Leads(s, Steps(t), u)
  {
    var s1 := At(s, t, Processing(HasTarget, job), s.gates.(processing := Some(t)));
    var s2 := At(s, t, Processing(AwaitConn, job), s1.gates);
    u := At(s, t, Processing(BotShutdown, job), s1.gates.(conn := Some(t)));
    assert s1.pcs[t := Processing(AwaitConn, job)] == s2.pcs && s2.pcs[t := Processing(BotShutdown, job)] == u.pcs;
    Leads3(s, Step(t, 0), s1, Step(t, 0), s2, Step(t, 0), u);
  }

  lemma {:induction false} JobEnters(s: State, t: nat, job: Job) returns (u: State)
    requires t in s.pcs && s.pcs[t] == Processing(BotShutdown, job) && s.gates.accepting && !s.gates.shutdown
    ensures u.gates.context && t in u.pcs && Uses(u.pcs[t]) && Leads(s, Steps(t), u)
  {
    var s1 := At(s, t, Processing(BotAccepting, job), s.gates);
    var s2 := At(s, t, Processing(BotCreate, job), s.gates);
    u := At(s, t, Processing(Using, job), s.gates.(context := true, conn := None));
    assert s1.pcs[t := Processing(BotCreate, job)] == s2.pcs && s2.pcs[t := Processing(Using, job)] == u.pcs;
    Leads3(s, Step(t, 0), s1, Step(t, 0), s2, Step(t, 0), u);
  }

  /** Nine steps of the worker loop. */
  function WorkEvents(t: nat): seq<Event> {
    Steps(t) + Steps(t) + Steps(t)
  }

  /** Wherever requests are taken, the worker loop with a live request ends up using a bot context. */
  lemma {:induction false} WorkerUses(s: State, t: nat) returns (u: State)
    requires t in s.pcs && s.pcs[t] == Looping(LoopHead)
    requires s.queues.cancels != [] && s.queues.cancels[0].live && Open(s.gates)
    ensures u.gates.context && t in u.pcs && Uses(u.pcs[t]) && Leads(s, WorkEvents(t), u)
  {
    var s1, job := WorkerTakes(s, t);
    var s2 := JobLocks(s1, t, job);
    u := JobEnters(s2, t, job);
    LeadsOn(s, Steps(t), s1, Steps(t), s2);
    LeadsOn(s, Steps(t) + Steps(t), s2, Steps(t), u);
  }

  function SuspendEvents(t: nat): seq<Event> {
    [Begin(t, Suspend), Step(t, 0), Step(t, 0)] + Steps(t)
  }

  lemma {:induction false} SuspendStarts(s: State, t: nat) returns (u: State)
    requires t !in s.pcs && s.gates.conn == None
    ensures u == At(s, t, Suspending(AwaitProcessing), s.gates.(accepting := false))
    ensures Leads(s, [Begin(t, Suspend), Step(t, 0), Step(t, 0)], u)
  {
    var s1 := At(s, t, Suspending(SuspendStore), s.gates);
    var s2 := At(s, t, Suspending(Interrupting), s.gates.(accepting := false));
    u := At(s, t, Suspending(AwaitProcessing), s2.gates);
    assert s1.pcs[t := Suspending(Interrupting)] == s2.pcs && s2.pcs[t := Suspending(AwaitProcessing)] == u.pcs;
    Leads3(s, Begin(t, Suspend), s1, Step(t, 0), s2, Step(t, 0), u);
  }

  lemma {:induction false} SuspendEnds(s: State, t: nat) returns (u: State)
    requires t in s.pcs && s.pcs[t] == Suspending(AwaitProcessing) && s.gates.processing == None && s.gates.conn == None
    ensures u == s.(pcs := s.pcs - {t}, gates := s.gates.(context := false)) && Leads(s, Steps(t), u)
  {
    var s1 := At(s, t, Suspending(Resetting), s.gates.(processing := Some(t)));
    var s2 := At(s, t, Suspending(Unlocking), s1.gates.(context := false));
    u := s.(pcs := s.pcs - {t}, gates := s.gates.(context := false));
    assert s1.pcs[t := Suspending(Unlocking)] == s2.pcs && s2.pcs - {t} == u.pcs;
    Leads3(s, Step(t, 0), s1, Step(t, 0), s2, Step(t, 0), u);
  }

  lemma {:induction false} SuspendAlone(s: State, t: nat) returns (u: State)
    requires t !in s.pcs && s.gates.conn == None && s.gates.processing == None
    ensures u == s.(gates := s.gates.(accepting := false, context := false)) && Leads(s, SuspendEvents(t), u)
  {
    var s1 := SuspendStarts(s, t);
    u := SuspendEnds(s1, t);
    LeadsOn(s, [Begin(t, Suspend), Step(t, 0), Step(t, 0)], s1, Steps(t), u);
    assert u.pcs == s.pcs;
  }

  /**
   Whenever a Resume (thread `r`) has read shutdown_ but not yet stored, a Suspend (thread `t`) that
   begins and returns afterwards does not keep the dispatcher quiet: with a live request queued, the
   pending store and the worker loop (thread `w`) bring the context back, though no Resume began since.
   */
  lemma {:induction false} ResumeInFlightBreaksSuspend(s: State, r: nat, t: nat, w: nat)
    returns (suspended: State, after: State)
    requires r in s.pcs && s.pcs[r] == Suspending(ResumeStore) && t !in s.pcs && Open(s.gates)
    requires w in s.pcs && s.pcs[w] == Looping(LoopHead)
    requires s.queues.cancels != [] && s.queues.cancels[0].live
    ensures Leads(s, SuspendEvents(t), suspended) && t !in suspended.pcs
    ensures Leads(suspended, [Step(r, 0)] + WorkEvents(w), after)
    ensures after.gates.context && w in after.pcs && Uses(after.pcs[w])
  {
    suspended := SuspendAlone(s, t);
    var resumed := suspended.(pcs := suspended.pcs - {r}, gates := suspended.gates.(accepting := true));
    Leads1(suspended, Step(r, 0), resumed);
    after := WorkerUses(resumed, w);
    LeadsOn(suspended, [Step(r, 0)], resumed, WorkEvents(w), after);
  }

  // A reachable state of that kind: thread 0 enqueues, starting the worker (thread 3), and thread 1 is in Resume.

  function Fresh(pcs: map<nat, Pc>, starts: Starts, queues: Queues): State {
    State(false, Gates(true, false, false, None, None), starts, queues, pcs)
  }

  lemma {:induction false} OfferAccepted() returns (u: State)
    ensures u == Fresh(map[0 := Enqueuing(CheckRunning, Offer(Req(0, true), Cancel))], Starts(false, false, None, 0, 0),
                       Queues(0, [], [], map[0 := Offered(0)], []))
    ensures Leads(Fresh(map[], Starts(false, false, None, 0, 0), Queues(0, [], [], map[], [])),
                  [Begin(0, Enqueue(Req(0, true), Cancel))] + [Step(0, 0), Step(0, 0)], u)
  {
    var o := Offer(Req(0, true), Cancel);
    var none := Starts(false, false, None, 0, 0);
    var q := Queues(0, [], [], map[0 := Offered(0)], []);
    var s := Fresh(map[], none, Queues(0, [], [], map[], []));
    var s1 := Fresh(map[0 := Enqueuing(CheckShutdown, o)], none, q);
    var s2 := Fresh(map[0 := Enqueuing(CheckAccepting, o)], none, q);
    u := Fresh(map[0 := Enqueuing(CheckRunning, o)], none, q);
    assert s1.pcs[0 := Enqueuing(CheckAccepting, o)] == s2.pcs && s2.pcs[0 := Enqueuing(CheckRunning, o)] == u.pcs;
    Leads3(s, Begin(0, Enqueue(Req(0, true), Cancel)), s1, Step(0, 0), s2, Step(0, 0), u);
    assert [Begin(0, Enqueue(Req(0, true), Cancel)), Step(0, 0), Step(0, 0)] ==
           [Begin(0, Enqueue(Req(0, true), Cancel))] + [Step(0, 0), Step(0, 0)];
  }

  lemma {:induction false} Leads2(s: State, e: Event, t: State, f: Event, u: State)
    requires Takes(s, e, t) && Takes(t, f, u)
    ensures Leads(s, [e] + [f], u)
  {
    Leads1(s, e, t);
    Leads1(t, f, u);
    LeadsOn(s, [e], t, [f], u);
  }

  function Twice(): seq<Event> {
    [Step(0, 0)] + [Step(0, 0)]
  }

  lemma {:induction false} FindsNoWorker(q: Queues, o: Offer) returns (u: State)
    ensures u == Fresh(map[0 := Starting(AwaitStart, Some(o))], Starts(false, false, None, 0, 0), q)
    ensures Leads(Fresh(map[0 := Enqueuing(CheckRunning, o)], Starts(false, false, None, 0, 0), q), Twice(), u)
  {
    var none := Starts(false, false, None, 0, 0);
    var s := Fresh(map[0 := Enqueuing(CheckRunning, o)], none, q);
    var s1 := Fresh(map[0 := Starting(StartCheck, Some(o))], none, q);
    u := Fresh(map[0 := Starting(AwaitStart, Some(o))], none, q);
    assert s.pcs[0 := Starting(StartCheck, Some(o))] == s1.pcs && s1.pcs[0 := Starting(AwaitStart, Some(o))] == u.pcs;
    Leads2(s, Step(0, 0), s1, Step(0, 0), u);
  }

  lemma {:induction false} LocksStart(q: Queues, o: Offer) returns (u: State)
    ensures u == Fresh(map[0 := Starting(Spawn, Some(o))], Starts(false, false, Some(0), 0, 0), q)
    ensures Leads(Fresh(map[0 := Starting(AwaitStart, Some(o))], Starts(false, false, None, 0, 0), q), Twice(), u)
  {
    var none := Starts(false, false, None, 0, 0);
    var s := Fresh(map[0 := Starting(AwaitStart, Some(o))], none, q);
    var s1 := Fresh(map[0 := Starting(Recheck, Some(o))], none.(starting := Some(0)), q);
    u := Fresh(map[0 := Starting(Spawn, Some(o))], s1.starts, q);
    assert s.pcs[0 := Starting(Recheck, Some(o))] == s1.pcs && s1.pcs[0 := Starting(Spawn, Some(o))] == u.pcs;
    Leads2(s, Step(0, 0), s1, Step(0, 0), u);
  }

  lemma {:induction false} SpawnsWorker(q: Queues, o: Offer) returns (u: State)
    ensures u == Fresh(map[0 := Starting(StartUnlock, Some(o))], Starts(true, false, Some(0), 1, 0), q)
    ensures Leads(Fresh(map[0 := Starting(Spawn, Some(o))], Starts(false, false, Some(0), 0, 0), q), Twice(), u)
  {
    var s := Fresh(map[0 := Starting(Spawn, Some(o))], Starts(false, false, Some(0), 0, 0), q);
    var s1 := Fresh(map[0 := Starting(StoreStarted, Some(o))], Starts(false, false, Some(0), 1, 0), q);
    u := Fresh(map[0 := Starting(StartUnlock, Some(o))], Starts(true, false, Some(0), 1, 0), q);
    assert s.pcs[0 := Starting(StoreStarted, Some(o))] == s1.pcs && s1.pcs[0 := Starting(StartUnlock, Some(o))] == u.pcs;
    Leads2(s, Step(0, 0), s1, Step(0, 0), u);
  }

  lemma {:induction false} CountsRequest(q: Queues, o: Offer) returns (u: State)
    ensures u == Fresh(map[0 := Enqueuing(Put, o)], Starts(true, false, None, 1, 0), q.(pending := q.pending + 1))
    ensures Leads(Fresh(map[0 := Starting(StartUnlock, Some(o))], Starts(true, false, Some(0), 1, 0), q), Twice(), u)
  {
    var s := Fresh(map[0 := Starting(StartUnlock, Some(o))], Starts(true, false, Some(0), 1, 0), q);
    var s1 := Fresh(map[0 := Enqueuing(AddPending, o)], Starts(true, false, None, 1, 0), q);
    u := Fresh(map[0 := Enqueuing(Put, o)], s1.starts, q.(pending := q.pending + 1));
    assert s.pcs[0 := Enqueuing(AddPending, o)] == s1.pcs && s1.pcs[0 := Enqueuing(Put, o)] == u.pcs;
    Leads2(s, Step(0, 0), s1, Step(0, 0), u);
  }

  lemma {:induction false} PutsRequest(q: Queues, req: Req) returns (u: State)
    requires q.cancels == []
    ensures u == Fresh(map[], Starts(true, false, None, 1, 0), q.(cancels := [req], places := q.places[req.id := InCancels]))
    ensures Leads(Fresh(map[0 := Enqueuing(Put, Offer(req, Cancel))], Starts(true, false, None, 1, 0), q), [Step(0, 0)], u)
  {
    var s := Fresh(map[0 := Enqueuing(Put, Offer(req, Cancel))], Starts(true, false, None, 1, 0), q);
    u := Fresh(map[], s.starts, q.(cancels := [req], places := q.places[req.id := InCancels]));
    assert s.pcs - {0} == u.pcs;
    Leads1(s, Step(0, 0), u);
  }

  lemma {:induction false} WorkerBegins(q: Queues) returns (u: State)
    ensures u == Fresh(map[3 := Looping(LoopHead)], Starts(true, true, None, 1, 1), q)
    ensures Leads(Fresh(map[], Starts(true, false, None, 1, 0), q), [Begin(3, Work)] + [Step(3, 0)], u)
  {
    var s := Fresh(map[], Starts(true, false, None, 1, 0), q);
    var s1 := Fresh(map[3 := Looping(WorkerStart)], Starts(true, false, None, 1, 1), q);
    u := Fresh(map[3 := Looping(LoopHead)], Starts(true, true, None, 1, 1), q);
    assert s1.pcs[3 := Looping(LoopHead)] == u.pcs;
    Leads2(s, Begin(3, Work), s1, Step(3, 0), u);
  }

  lemma {:induction false} ResumeReads(s: State, t: nat) returns (u: State)
    requires t !in s.pcs && !s.gates.shutdown
    ensures u == s.(pcs := s.pcs[t := Suspending(ResumeStore)]) && Leads(s, [Begin(t, Resume)] + [Step(t, 0)], u)
  {
    var s1 := s.(pcs := s.pcs[t := Suspending(ResumeCheck)]);
    u := s.(pcs := s.pcs[t := Suspending(ResumeStore)]);
    assert s1.pcs[t := Suspending(ResumeStore)] == u.pcs;
    Leads1(s, Begin(t, Resume), s1);
    Leads1(s1, Step(t, 0), u);
    LeadsOn(s, [Begin(t, Resume)], s1, [Step(t, 0)], u);
  }

  /** A run from the start in which Suspend returns and the context comes back with no new Resume. */
  lemma {:induction false} ResumeBeforeSuspendBreaksIt()
    returns (s: State, before: seq<Event>, during: State, suspended: State, after: State)
    ensures Init(s) && Leads(s, before, during) && 2 !in during.pcs
    ensures Leads(during, SuspendEvents(2), suspended) && 2 !in suspended.pcs
    ensures Leads(suspended, [Step(1, 0)] + WorkEvents(3), after)
    ensures after.gates.context && 3 in after.pcs && Uses(after.pcs[3])
  {
    s := Fresh(map[], Starts(false, false, None, 0, 0), Queues(0, [], [], map[], []));
    var o := Offer(Req(0, true), Cancel);
    var begin := [Begin(0, Enqueue(Req(0, true), Cancel))] + [Step(0, 0), Step(0, 0)];
    var s1 := OfferAccepted();
    var q := s1.queues;
    var s2 := FindsNoWorker(q, o);
    var s3 := LocksStart(q, o);
    var s4 := SpawnsWorker(q, o);
    var s5 := CountsRequest(q, o);
    var s6 := PutsRequest(s5.queues, o.req);
    var s7 := WorkerBegins(s6.queues);
    during := ResumeReads(s7, 1);
    LeadsOn(s, begin, s1, Twice(), s2);
    LeadsOn(s, begin + Twice(), s2, Twice(), s3);
    LeadsOn(s, begin + Twice() + Twice(), s3, Twice(), s4);
    before := begin + Twice() + Twice() + Twice();
    LeadsOn(s, before, s4, Twice(), s5);
    LeadsOn(s, before + Twice(), s5, [Step(0, 0)], s6);
    before := before + Twice() + [Step(0, 0)];
    LeadsOn(s, before, s6, [Begin(3, Work)] + [Step(3, 0)], s7);
    before := before + ([Begin(3, Work)] + [Step(3, 0)]);
    LeadsOn(s, before, s7, [Begin(1, Resume)] + [Step(1, 0)], during);
    before := before + ([Begin(1, Resume)] + [Step(1, 0)]);
    suspended, after := ResumeInFlightBreaksSuspend(during, 1, 2, 3);
  }
}
