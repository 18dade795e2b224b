/**
 The worker artifact cache of src/vgi_database_worker.cpp as a protocol: any number of calls, in any
 number of processes, install, repair, launch, list, clean and prune an artifact through its two lock
 files. Every lock operation, every check and every filesystem change is a step of its own, calls
 interleave freely, an exception may end a call and a crash may end a process anywhere.

 `Dir` records of an artifact directory what the protocol looks at: whether the entrypoint exists, the
 text of the manifest, and the temporary manifests beside it. Recursive removal is not atomic and may
 give up half way. Every install rewrites the manifest's last_used stamp, also while others hold leases.
 */
module ArtifactCache {
  import opened Options
  import opened Stamping
  import opened Manifest

  datatype Dir = Absent | Present(entry: bool, manifest: Option<string>, temps: map<nat, string>)

  predicate CacheValid(a: Artifact, d: Dir) {
    d.Present? && d.entry && d.manifest.Some? && Matches(d.manifest.value, a)
  }

  predicate HasEntry(d: Dir) {
    d.Present? && d.entry
  }

  /** Something a removal in progress may leave behind. */
  predicate Remnant(before: Dir, after: Dir) {
    before.Present? &&
    (after.Absent? ||
     ((after.entry ==> before.entry) && (after.manifest.None? || after.manifest == before.manifest) &&
      forall n :: n in after.temps ==> n in before.temps && after.temps[n] == before.temps[n]))
  }

  /** One call, in one process. The handle a call returns keeps the call's identity. */
  datatype Call = Call(process: nat, id: nat)

  datatype Target = Tmp(name: nat) | Trash

  datatype Pc =
    // Install
    | InstallStart
    | FirstCheck
    | WaitExclusive
    | SecondCheck
    | Removing
    | MakeStaging
    | Filling(name: nat)
    | Publishing(name: nat)
    | Undoing(name: nat)
    | DropExclusive
    | WaitShared
    | TouchRead(lease: nat)
    | TouchMove(lease: nat, temp: nat, now: Numeral)
    | Verify(lease: nat)
    | DropInstall(lease: nat)
    // PruneWorkerCache, for this artifact
    | PruneStart
    | PruneTry
    | PruneMove
    | PruneTrash
    // CleanupStaging, for one listed name
    | CleanStart(target: Target)
    | CleanTry(target: Target)
    | CleanRemove(target: Target)
    // ListWorkerCache, for this artifact
    | ListTry
    | ListHold
    // AcquireResolvedWorkerLaunch
    | LaunchStart
    | LaunchWait
    | LaunchVerify(lease: nat)
    // Letting go of the install lock, after a removal or an exception
    | Leaving

  predicate HoldsInstall(pc: Pc) {
    match pc
    case InstallStart | PruneStart | CleanStart(_) | ListTry | ListHold => false
    case LaunchStart | LaunchWait | LaunchVerify(_) => false
    case _ => true
  }

  predicate HoldsExclusive(pc: Pc) {
    match pc
    case SecondCheck | Removing | MakeStaging | Filling(_) | Publishing(_) | Undoing(_) | DropExclusive => true
    case PruneMove | PruneTrash | CleanRemove(_) | ListHold => true
    case _ => false
  }

  predicate Touches(pc: Pc) {
    pc.TouchRead? || pc.TouchMove?
  }

  predicate UsesLease(pc: Pc) {
    Touches(pc) || pc.Verify? || pc.DropInstall? || pc.LaunchVerify?
  }

  /** A lifetime lease held shared: one open lock file, shared by its handles. */
  datatype Lease = Lease(process: nat, holders: set<Call>, seen: Option<nat>)

  datatype Files = Files(
    dir: Dir,                    // artifacts/<id>
    version: nat,                // counts the times `dir` was filled, emptied or moved
    stamp: nat,                  // counts the rewrites of the manifest's stamp
    staging: map<nat, Dir>,      // staging/<id>-<n>
    trash: Dir,                  // staging/.trash-<id>
    tampered: bool               // whether anyone else ever changed `dir`
  )

  datatype State = State(
    artifact: Artifact,          // what the manifest is compared with
    pcs: map<Call, Pc>,
    install: Option<Call>,       // holder of <id>.install
    exclusive: Option<Call>,     // exclusive holder of <id>.lease
    leases: map<nat, Lease>,     // shared holders of <id>.lease
    nextLease: nat,
    registry: map<nat, nat>,     // per process: the (weak) lease of the resolved worker token
    files: Files
  )

  // ---------------------------------------------------------------------------------------------
  // The steps of a call
  // ---------------------------------------------------------------------------------------------

  datatype LockOp = Keep | Take | Drop

  datatype LeaseOp = SameLeases | NewLease | JoinLease(lease: nat) | ConfirmLease(lease: nat)

  /** What one step does: where the call goes (`None`: it returns) and what it changes. */
  datatype Effect = Effect(
    next: Option<Pc>, install: LockOp, exclusive: LockOp, leases: LeaseOp, files: Files, registry: map<nat, nat>)

  /** What goes into a manifest besides the artifact; `cut` is what a failing write leaves of one. */
  datatype Texts = Texts(source: string, size: Numeral, now: Numeral, cut: string)

  /**
   What a step leaves open: a name, how far a removal got (`None`: it is over), whether the step fails,
   whether a temporary manifest is then kept, and what is written.
   */
  datatype Outcome = Outcome(name: nat, left: Option<Dir>, fails: bool, keeps: bool, texts: Texts)

  function Go(s: State, pc: Pc): Effect {
    Effect(Some(pc), Keep, Keep, SameLeases, s.files, s.registry)
  }

  function Return(s: State): Effect {
    Effect(None, Keep, Keep, SameLeases, s.files, s.registry)
  }

  function WithDir(f: Files, d: Dir): Files {
    f.(dir := d, version := f.version + 1)
  }

  function WithTemps(f: Files, temps: map<nat, string>): Files
    requires f.dir.Present?
  {
    f.(dir := f.dir.(temps := temps))
  }

  /** A non-blocking exclusive acquire succeeds exactly when nobody holds the lease. */
  predicate LeaseFree(s: State) {
    s.exclusive.None? && s.leases == map[]
  }

  /** Install, outside repair. */
  function Resolve(s: State, c: Call): Option<Effect>
    requires c in s.pcs
  {
    match s.pcs[c]
    case InstallStart => if s.install.None? then Some(Go(s, FirstCheck).(install := Take)) else None
    case FirstCheck => Some(Go(s, if CacheValid(s.artifact, s.files.dir) then WaitShared else WaitExclusive))
    case DropExclusive => Some(Go(s, WaitShared).(exclusive := Drop))
    case WaitShared => if s.exclusive.None? then Some(Go(s, TouchRead(s.nextLease)).(leases := NewLease)) else None
    case Verify(l) =>
      if HasEntry(s.files.dir)
      then Some(Go(s, DropInstall(l)).(leases := ConfirmLease(l), registry := s.registry[c.process := l])) else None
    case DropInstall(_) | Leaving => Some(Return(s).(install := Drop))
    case _ => None
  }

  /**
   TouchLastUsed: write the stamped manifest to a file of its own beside the manifest, then move it over
   the manifest. On a failure the file is removed, if that succeeds.
   */
  function Touch(s: State, c: Call, o: Outcome): Option<Effect>
    requires c in s.pcs
  {
    match s.pcs[c]
    case TouchRead(l) =>
      if s.files.dir.Absent? || s.files.dir.manifest.None? then Some(Go(s, Verify(l)))
      else Some(TouchWrite(s, l, TouchLastUsed(s.files.dir.manifest.value, o.texts.now), o))
    case TouchMove(l, n, _) =>
      if s.files.dir.Absent? || n !in s.files.dir.temps then Some(Go(s, Verify(l)))
      else if o.fails then Some(Go(s, Verify(l)).(files := Untouched(s.files, n, o.keeps)))
      else
        var moved := s.files.dir.(temps := s.files.dir.temps - {n}, manifest := Some(s.files.dir.temps[n]));
        Some(Go(s, Verify(l)).(files := s.files.(dir := moved, stamp := s.files.stamp + 1)))
    case _ => None
  }

  /** The file is created and written; creating fails if there is one of that name. */
  function TouchWrite(s: State, l: nat, stamped: Option<string>, o: Outcome): Effect
    requires s.files.dir.Present?
  {
    var f := s.files;
    if stamped.None? then Go(s, Verify(l))
    else if o.name in f.dir.temps then Go(s, Verify(l)).(files := Untouched(f, o.name, o.keeps))
    else if o.fails then Go(s, Verify(l)).(files := if o.keeps then WithTemps(f, f.dir.temps[o.name := o.texts.cut]) else f)
    else Go(s, TouchMove(l, o.name, o.texts.now)).(files := WithTemps(f, f.dir.temps[o.name := stamped.value]))
  }

  /** After a failure: temporary file `n` is removed, or stays. */
  function Untouched(f: Files, n: nat, keeps: bool): Files
    requires f.dir.Present?
  {
    if keeps then f else WithTemps(f, f.dir.temps - {n})
  }

  /** Install's repair takes both locks, looks again, and removes what is there. */
  function Repair(s: State, c: Call, o: Outcome): Option<Effect>
    requires c in s.pcs
  {
    var f := s.files;
    match s.pcs[c]
    case WaitExclusive => if LeaseFree(s) then Some(Go(s, SecondCheck).(exclusive := Take)) else None
    case SecondCheck =>
      Some(Go(s, if CacheValid(s.artifact, f.dir) then DropExclusive else if f.dir.Present? then Removing else MakeStaging))
    case Removing =>
      if o.left.None? then Some(Go(s, MakeStaging))
      else if Remnant(f.dir, o.left.value) then Some(Go(s, Removing).(files := WithDir(f, o.left.value)))
      else None
    case _ => None
  }

  /** Then it fills a staging directory and moves that in. */
  function Refill(s: State, c: Call, o: Outcome): Option<Effect>
    requires c in s.pcs
  {
    var f := s.files;
    match s.pcs[c]
    case MakeStaging =>
      Some(Go(s, Filling(o.name)).(files := f.(staging := f.staging[o.name := Present(false, None, map[])])))
    case Filling(n) =>
      if o.fails then Some(Go(s, Undoing(n)))
      else
        var body := ManifestBody(o.texts.source, s.artifact, o.texts.size, o.texts.now);
        Some(Go(s, Publishing(n)).(files := f.(staging := f.staging[n := Present(true, Some(body), map[])])))
    case Undoing(n) => RemoveStaging(s, Undoing(n), n, o)
    case Publishing(n) =>
      if o.fails then Some(Go(s, Undoing(n)))
      else if f.dir.Absent? && n in f.staging
      then Some(Go(s, DropExclusive).(files := WithDir(f.(staging := f.staging - {n}), f.staging[n]))) else None
    case _ => None
  }

  /** One entry of PruneWorkerCache. */
  function Prune(s: State, c: Call, o: Outcome): Option<Effect>
    requires c in s.pcs
  {
    var f := s.files;
    match s.pcs[c]
    case PruneStart => if s.install.None? then Some(Go(s, PruneTry).(install := Take)) else None
    case PruneTry =>
      Some(if LeaseFree(s) then Go(s, PruneMove).(exclusive := Take) else Return(s).(install := Drop))
    case PruneMove =>
      if f.dir.Present? then Some(Go(s, PruneTrash).(files := WithDir(f.(trash := f.dir), Absent))) else None
    case PruneTrash => RemoveOrReturn(s, PruneTrash, f.trash, o, (d: Dir) => f.(trash := d))
    case _ => None
  }

  /** One name of CleanupStaging, one entry of ListWorkerCache. */
  function Maintain(s: State, c: Call, o: Outcome): Option<Effect>
    requires c in s.pcs
  {
    var f := s.files;
    match s.pcs[c]
    case CleanStart(x) => if s.install.None? then Some(Go(s, CleanTry(x)).(install := Take)) else None
    case CleanTry(x) =>
      Some(if LeaseFree(s) then Go(s, CleanRemove(x)).(exclusive := Take) else Return(s).(install := Drop))
    case CleanRemove(x) =>
      if x.Trash? then RemoveOrReturn(s, CleanRemove(x), f.trash, o, (d: Dir) => f.(trash := d))
      else RemoveStaging(s, CleanRemove(x), x.name, o)
    case ListTry => Some(if LeaseFree(s) then Go(s, ListHold).(exclusive := Take) else Return(s))
    case ListHold => Some(Return(s).(exclusive := Drop))
    case _ => None
  }

  /** Remove a bit more of `d`, or stop removing and let go of the locks, the lease first. */
  function RemoveOrReturn(s: State, pc: Pc, d: Dir, o: Outcome, put: Dir -> Files): Option<Effect> {
    if o.left.None? then Some(Go(s, Leaving).(exclusive := Drop))
    else if Remnant(d, o.left.value) then Some(Go(s, pc).(files := put(o.left.value)))
    else None
  }

  function RemoveStaging(s: State, pc: Pc, n: nat, o: Outcome): Option<Effect> {
    var f := s.files;
    RemoveOrReturn(s, pc, if n in f.staging then f.staging[n] else Absent, o,
                   (d: Dir) => f.(staging := if d.Absent? then f.staging - {n} else f.staging[n := d]))
  }

  function Launch(s: State, c: Call): Option<Effect>
    requires c in s.pcs
  {
    match s.pcs[c]
    case LaunchStart =>
      if c.process !in s.registry then None
      else
        var l := s.registry[c.process];
        if l in s.leases && s.leases[l].process == c.process
        then Some(Go(s, LaunchVerify(l)).(leases := JoinLease(l)))
        else Some(Go(s, LaunchWait))
    case LaunchWait =>
      if s.exclusive.None?
      then Some(Go(s, LaunchVerify(s.nextLease)).(leases := NewLease, registry := s.registry[c.process := s.nextLease]))
      else None
    case LaunchVerify(l) => if HasEntry(s.files.dir) then Some(Return(s).(leases := ConfirmLease(l))) else None
    case _ => None
  }

  /** The next step of a running call; `None` while it is blocked or about to throw. */
  function Next(s: State, c: Call, o: Outcome): Option<Effect>
    requires c in s.pcs
  {
    match s.pcs[c]
    case InstallStart | FirstCheck | DropExclusive | WaitShared | Verify(_) | DropInstall(_) | Leaving => Resolve(s, c)
    case TouchRead(_) | TouchMove(_, _, _) => Touch(s, c, o)
    case WaitExclusive | SecondCheck | Removing => Repair(s, c, o)
    case MakeStaging | Filling(_) | Publishing(_) | Undoing(_) => Refill(s, c, o)
    case LaunchStart | LaunchWait | LaunchVerify(_) => Launch(s, c)
    case PruneStart | PruneTry | PruneMove | PruneTrash => Prune(s, c, o)
    case _ => Maintain(s, c, o)
  }

  function LockAfter(lock: Option<Call>, op: LockOp, c: Call): Option<Call> {
    match op
    case Keep => lock
    case Take => Some(c)
    case Drop => None
  }

  function LeasesAfter(s: State, c: Call, op: LeaseOp): map<nat, Lease> {
    match op
    case SameLeases => s.leases
    case NewLease => s.leases[s.nextLease := Lease(c.process, {c}, None)]
    case JoinLease(l) =>
      if l in s.leases then s.leases[l := s.leases[l].(holders := s.leases[l].holders + {c})] else s.leases
    case ConfirmLease(l) =>
      if l in s.leases then s.leases[l := s.leases[l].(seen := Some(s.files.version))] else s.leases
  }

  function Apply(s: State, c: Call, e: Effect): State {
    State(s.artifact,
          if e.next.Some? then s.pcs[c := e.next.value] else s.pcs - {c},
          LockAfter(s.install, e.install, c),
          LockAfter(s.exclusive, e.exclusive, c),
          LeasesAfter(s, c, e.leases),
          if e.leases.NewLease? then s.nextLease + 1 else s.nextLease,
          e.registry,
          e.files)
  }

  // ---------------------------------------------------------------------------------------------
  // Events
  // ---------------------------------------------------------------------------------------------

  predicate Begins(pc: Pc) {
    pc.InstallStart? || pc.PruneStart? || pc.CleanStart? || pc.ListTry? || pc.LaunchStart?
  }

  datatype Event =
    | Begin(call: Call, pc: Pc)
    | Step(call: Call, outcome: Outcome)
    | Abort(call: Call)
    | Release(call: Call)
    | Crash(process: nat)
    | Tamper(dir: Dir)

  /** Every lease without handle `c`; a lease without handles is closed. */
  function WithoutHolder(leases: map<nat, Lease>, c: Call): map<nat, Lease> {
    map l | l in leases && leases[l].holders != {c} :: leases[l].(holders := leases[l].holders - {c})
  }

  function Unless(lock: Option<Call>, gone: bool): Option<Call> {
    if gone then None else lock
  }

  predicate Takes(s: State, e: Event, t: State) {
    match e
    case Begin(c, pc) =>
      c !in s.pcs && Begins(pc) && (forall l :: l in s.leases ==> c !in s.leases[l].holders) &&
      t == s.(pcs := s.pcs[c := pc])
    case Step(c, o) => c in s.pcs && Next(s, c, o).Some? && t == Apply(s, c, Next(s, c, o).value)
    case Abort(c) =>
      // An exception unwinds the call: its lease and handle are released, then the install lock.
      c in s.pcs && !s.pcs[c].Leaving? &&
      t == s.(pcs := if s.install == Some(c) then s.pcs[c := Leaving] else s.pcs - {c},
              exclusive := Unless(s.exclusive, s.exclusive == Some(c)), leases := WithoutHolder(s.leases, c))
    case Release(c) =>
      // A caller lets go of the handle a finished call returned.
      c !in s.pcs && t == s.(leases := WithoutHolder(s.leases, c))
    case Crash(p) =>
      // A process dies; the system closes its files. Directories stay as they are.
      t == s.(pcs := map c | c in s.pcs && c.process != p :: s.pcs[c],
              install := Unless(s.install, s.install.Some? && s.install.value.process == p),
              exclusive := Unless(s.exclusive, s.exclusive.Some? && s.exclusive.value.process == p),
              leases := map l | l in s.leases && s.leases[l].process != p :: s.leases[l],
              registry := s.registry - {p})
    case Tamper(d) =>
      // Someone outside the protocol changes the directory while nobody holds a lease on it.
      s.leases == map[] && t == s.(files := WithDir(s.files, d).(tampered := true))
  }

  predicate Init(s: State) {
    s == State(s.artifact, map[], None, None, map[], 0, map[], Files(Absent, 0, 0, map[], Absent, false))
  }

  // ---------------------------------------------------------------------------------------------
  // The invariant
  // ---------------------------------------------------------------------------------------------

  predicate InstallAgrees(s: State) {
    (forall c :: c in s.pcs && HoldsInstall(s.pcs[c]) ==> s.install == Some(c)) &&
    (s.install.Some? ==> s.install.value in s.pcs && HoldsInstall(s.pcs[s.install.value]))
  }

  predicate ExclusiveAgrees(s: State) {
    (forall c :: c in s.pcs && HoldsExclusive(s.pcs[c]) ==> s.exclusive == Some(c)) &&
    (s.exclusive.Some? ==> s.exclusive.value in s.pcs && HoldsExclusive(s.pcs[s.exclusive.value])) &&
    (s.exclusive.Some? ==> s.leases == map[])
  }

  /** A holder is a call still verifying the lease, or a handle whose lease was verified. */
  predicate HolderOk(s: State, l: nat, c: Call)
    requires l in s.leases
  {
    c.process == s.leases[l].process &&
    if c in s.pcs then UsesLease(s.pcs[c]) && s.pcs[c].lease == l else s.leases[l].seen.Some?
  }

  predicate LeasesAgree(s: State) {
    (forall l :: l in s.leases ==> l < s.nextLease) &&
    (forall l, c :: l in s.leases && c in s.leases[l].holders ==> HolderOk(s, l, c)) &&
    (forall c :: c in s.pcs && UsesLease(s.pcs[c]) ==>
       s.pcs[c].lease in s.leases && c in s.leases[s.pcs[c].lease].holders &&
       (s.pcs[c].DropInstall? ==> s.leases[s.pcs[c].lease].seen.Some?))
  }

  /** A verified lease pins the directory: same contents as when it was verified, entrypoint there. */
  predicate LeasesPin(s: State) {
    forall l :: l in s.leases && s.leases[l].seen.Some? ==>
      s.leases[l].seen.value == s.files.version && HasEntry(s.files.dir)
  }

  /** The entrypoint is there, and the manifest matches if the artifact is safe. */
  ghost predicate Whole(a: Artifact, d: Dir) {
    HasEntry(d) && (Safe(a) ==> CacheValid(a, d))
  }

  /** Temporary file `n` holds the manifest with its stamp rewritten. */
  predicate Prepared(d: Dir, n: nat, now: Numeral) {
    d.Present? && d.manifest.Some? && n in d.temps && TouchLastUsed(d.manifest.value, now) == Some(d.temps[n])
  }

  /** What a call may rely on finding at its place. */
  ghost predicate PlaceOk(a: Artifact, pc: Pc, f: Files) {
    match pc
    case Filling(n) => n in f.staging
    case Publishing(n) => n in f.staging && Whole(a, f.staging[n])
    case Removing => f.tampered || !Safe(a)
    case DropExclusive | WaitShared | TouchRead(_) | Verify(_) => f.tampered || Whole(a, f.dir)
    case TouchMove(_, n, now) => (f.tampered || Whole(a, f.dir)) && Prepared(f.dir, n, now)
    case _ => true
  }

  /** Without tampering the directory of a safe artifact appears and disappears whole. */
  ghost predicate DirWhole(a: Artifact, f: Files) {
    Safe(a) && !f.tampered && f.dir.Present? ==> CacheValid(a, f.dir)
  }

  ghost predicate Inv(s: State) {
    InstallAgrees(s) && ExclusiveAgrees(s) && LeasesAgree(s) && LeasesPin(s) && DirWhole(s.artifact, s.files) &&
    forall c :: c in s.pcs ==> PlaceOk(s.artifact, s.pcs[c], s.files)
  }

  // ---------------------------------------------------------------------------------------------
  // Every step keeps it
  // ---------------------------------------------------------------------------------------------

  /** The lock operations of a step match the places it leads from and to. */
  predicate LockOpOk(op: LockOp, held: bool, holds: bool) {
    match op
    case Keep => held == holds
    case Take => !held && holds
    case Drop => held && !holds
  }

  predicate LeaseOpOk(s: State, c: Call, e: Effect)
    requires c in s.pcs
  {
    match e.leases
    case SameLeases =>
      if s.pcs[c].DropInstall? then e.next.None?
      else if UsesLease(s.pcs[c]) then e.next.Some? && (e.next.value.TouchMove? || e.next.value.Verify?) && e.next.value.lease == s.pcs[c].lease
      else e.next.Some? ==> !UsesLease(e.next.value)
    case NewLease =>
      !UsesLease(s.pcs[c]) && (e.next == Some(TouchRead(s.nextLease)) || e.next == Some(LaunchVerify(s.nextLease))) &&
      s.exclusive.None?
    case JoinLease(l) =>
      !UsesLease(s.pcs[c]) && e.next == Some(LaunchVerify(l)) && l in s.leases && s.leases[l].process == c.process
    case ConfirmLease(l) =>
      UsesLease(s.pcs[c]) && s.pcs[c].lease == l && (e.next.None? || e.next == Some(DropInstall(l))) &&
      HasEntry(s.files.dir) && e.files == s.files
  }

  /** The same files, manifests aside. */
  predicate SamePackage(d: Dir, e: Dir) {
    d.Present? == e.Present? && (d.Present? ==> d.entry == e.entry)
  }

  /** The same manifest, or rewritten from `pc`. */
  predicate ManifestOk(d: Dir, e: Dir, pc: Pc) {
    d.Present? && e.Present? ==>
      e.manifest == d.manifest ||
      (pc.TouchMove? && d.manifest.Some? && e.manifest.Some? && e.manifest == TouchLastUsed(d.manifest.value, pc.now))
  }

  /** A step changes the package, or somebody's staging directory, only under the locks. */
  ghost predicate FilesOk(s: State, c: Call, e: Effect)
    requires c in s.pcs
  {
    DirWhole(s.artifact, e.files) && e.files.tampered == s.files.tampered &&
    (e.next.Some? ==> PlaceOk(s.artifact, e.next.value, e.files)) &&
    (!HoldsExclusive(s.pcs[c]) ==>
       SamePackage(s.files.dir, e.files.dir) && e.files.version == s.files.version &&
       ManifestOk(s.files.dir, e.files.dir, s.pcs[c])) &&
    (e.files.dir != s.files.dir || e.files.version != s.files.version || e.files.stamp != s.files.stamp ==>
       HoldsInstall(s.pcs[c]) && (HoldsExclusive(s.pcs[c]) || Touches(s.pcs[c]))) &&
    (e.files.staging != s.files.staging ==> HoldsInstall(s.pcs[c]))
  }

  ghost predicate EffectOk(s: State, c: Call, e: Effect)
    requires c in s.pcs
  {
    LockOpOk(e.install, HoldsInstall(s.pcs[c]), e.next.Some? && HoldsInstall(e.next.value)) &&
    LockOpOk(e.exclusive, HoldsExclusive(s.pcs[c]), e.next.Some? && HoldsExclusive(e.next.value)) &&
    (e.install.Take? ==> s.install.None?) && (e.exclusive.Take? ==> LeaseFree(s)) &&
    LeaseOpOk(s, c, e) && FilesOk(s, c, e)
  }

  lemma {:induction false} ResolveOk(s: State, c: Call)
    requires c in s.pcs && DirWhole(s.artifact, s.files) && PlaceOk(s.artifact, s.pcs[c], s.files) && Resolve(s, c).Some?
    ensures EffectOk(s, c, Resolve(s, c).value)
  {
  }

  /** A step that leads from `TouchRead` and changes temporary files at most. */
  lemma {:induction false} TempsOk(s: State, c: Call, next: Pc, temps: map<nat, string>)
    requires c in s.pcs && DirWhole(s.artifact, s.files) && PlaceOk(s.artifact, s.pcs[c], s.files) && s.pcs[c].TouchRead? && s.files.dir.Present?
    requires next.Verify? || (next.TouchMove? && Prepared(s.files.dir.(temps := temps), next.temp, next.now))
    requires next.lease == s.pcs[c].lease
    ensures EffectOk(s, c, Go(s, next).(files := WithTemps(s.files, temps)))
  {
    assert CacheValid(s.artifact, s.files.dir.(temps := temps)) == CacheValid(s.artifact, s.files.dir);
  }

  lemma {:induction false} TouchWriteOk(s: State, c: Call, stamped: Option<string>, o: Outcome)
    requires c in s.pcs && DirWhole(s.artifact, s.files) && PlaceOk(s.artifact, s.pcs[c], s.files) && s.pcs[c].TouchRead?
    requires s.files.dir.Present? && s.files.dir.manifest.Some?
    requires TouchLastUsed(s.files.dir.manifest.value, o.texts.now) == stamped
    ensures EffectOk(s, c, TouchWrite(s, s.pcs[c].lease, stamped, o))
  {
    var temps, next := s.files.dir.temps, Verify(s.pcs[c].lease);
    assert WithTemps(s.files, temps) == s.files;
    TempsOk(s, c, next, temps);
    TempsOk(s, c, next, temps - {o.name});
    TempsOk(s, c, next, temps[o.name := o.texts.cut]);
    if stamped.Some? { TempsOk(s, c, TouchMove(s.pcs[c].lease, o.name, o.texts.now), temps[o.name := stamped.value]); }
  }

  lemma {:induction false} TouchReadOk(s: State, c: Call, o: Outcome)
    requires c in s.pcs && DirWhole(s.artifact, s.files) && PlaceOk(s.artifact, s.pcs[c], s.files) && s.pcs[c].TouchRead?
    ensures Touch(s, c, o).Some? && EffectOk(s, c, Touch(s, c, o).value)
  {
    var d := s.files.dir;
    if d.Present? && d.manifest.Some? { TouchWriteOk(s, c, TouchLastUsed(d.manifest.value, o.texts.now), o); }
  }

  lemma {:induction false} TouchMoveOk(s: State, c: Call, o: Outcome)
    requires c in s.pcs && DirWhole(s.artifact, s.files) && PlaceOk(s.artifact, s.pcs[c], s.files) && s.pcs[c].TouchMove?
    ensures Touch(s, c, o).Some? && EffectOk(s, c, Touch(s, c, o).value)
  {
    if Safe(s.artifact) { StampKeepsMatch(s.files.dir.manifest.value, s.pcs[c].now, s.artifact); }
  }

  lemma {:induction false} RepairOk(s: State, c: Call, o: Outcome)
    requires c in s.pcs && DirWhole(s.artifact, s.files) && PlaceOk(s.artifact, s.pcs[c], s.files) && Repair(s, c, o).Some?
    ensures EffectOk(s, c, Repair(s, c, o).value)
  {
  }

  lemma {:induction false} FillOk(s: State, c: Call, o: Outcome)
    requires c in s.pcs && DirWhole(s.artifact, s.files) && PlaceOk(s.artifact, s.pcs[c], s.files) && s.pcs[c].Filling?
    ensures Refill(s, c, o).Some? && EffectOk(s, c, Refill(s, c, o).value)
  {
    WrittenMatchesIff(o.texts.source, s.artifact, o.texts.size, o.texts.now);
  }

  lemma {:induction false} RefillOk(s: State, c: Call, o: Outcome)
    requires c in s.pcs && DirWhole(s.artifact, s.files) && PlaceOk(s.artifact, s.pcs[c], s.files) && Refill(s, c, o).Some?
    ensures EffectOk(s, c, Refill(s, c, o).value)
  {
    if s.pcs[c].Filling? { FillOk(s, c, o); }
  }

  lemma {:induction false} PruneOk(s: State, c: Call, o: Outcome)
    requires c in s.pcs && DirWhole(s.artifact, s.files) && PlaceOk(s.artifact, s.pcs[c], s.files) && Prune(s, c, o).Some?
    ensures EffectOk(s, c, Prune(s, c, o).value)
  {
  }

  lemma {:induction false} CleanOk(s: State, c: Call, o: Outcome)
    requires c in s.pcs && DirWhole(s.artifact, s.files) && PlaceOk(s.artifact, s.pcs[c], s.files)
    requires s.pcs[c].CleanRemove? && Maintain(s, c, o).Some?
    ensures EffectOk(s, c, Maintain(s, c, o).value)
  {
  }

  lemma {:induction false} MaintainOk(s: State, c: Call, o: Outcome)
    requires c in s.pcs && DirWhole(s.artifact, s.files) && PlaceOk(s.artifact, s.pcs[c], s.files) && Maintain(s, c, o).Some?
    ensures EffectOk(s, c, Maintain(s, c, o).value)
  {
    if s.pcs[c].CleanRemove? { CleanOk(s, c, o); }
  }

  lemma {:induction false} LaunchOk(s: State, c: Call)
    requires c in s.pcs && DirWhole(s.artifact, s.files) && PlaceOk(s.artifact, s.pcs[c], s.files) && Launch(s, c).Some?
    ensures EffectOk(s, c, Launch(s, c).value)
  {
  }

  lemma {:induction false} NextOk(s: State, c: Call, o: Outcome)
    requires Inv(s) && c in s.pcs && Next(s, c, o).Some?
    ensures EffectOk(s, c, Next(s, c, o).value)
  {
    match s.pcs[c]
    case InstallStart | FirstCheck | DropExclusive | WaitShared | Verify(_) | DropInstall(_) | Leaving => ResolveOk(s, c);
    case TouchRead(_) => TouchReadOk(s, c, o);
    case TouchMove(_, _, _) => TouchMoveOk(s, c, o);
    case WaitExclusive | SecondCheck | Removing => RepairOk(s, c, o);
    case MakeStaging | Filling(_) | Publishing(_) | Undoing(_) => RefillOk(s, c, o);
    case LaunchStart | LaunchWait | LaunchVerify(_) => LaunchOk(s, c);
    case PruneStart | PruneTry | PruneMove | PruneTrash => PruneOk(s, c, o);
    case _ => MaintainOk(s, c, o);
  }

  lemma {:induction false} ApplyLocks(s: State, c: Call, e: Effect)
    requires Inv(s) && c in s.pcs && EffectOk(s, c, e)
    ensures InstallAgrees(Apply(s, c, e)) && ExclusiveAgrees(Apply(s, c, e))
  {
  }

  lemma {:induction false} ApplyHolder(s: State, c: Call, e: Effect, l: nat, x: Call)
    requires LeasesAgree(s) && c in s.pcs && LeaseOpOk(s, c, e)
    requires l in Apply(s, c, e).leases && x in Apply(s, c, e).leases[l].holders
    ensures HolderOk(Apply(s, c, e), l, x)
  {
    if l in s.leases && x in s.leases[l].holders { assert HolderOk(s, l, x); }
  }

  lemma {:induction false} ApplyUser(s: State, c: Call, e: Effect, x: Call)
    requires LeasesAgree(s) && c in s.pcs && LeaseOpOk(s, c, e)
    requires x in Apply(s, c, e).pcs && UsesLease(Apply(s, c, e).pcs[x])
    ensures var t := Apply(s, c, e);
      t.pcs[x].lease in t.leases && x in t.leases[t.pcs[x].lease].holders &&
      (t.pcs[x].DropInstall? ==> t.leases[t.pcs[x].lease].seen.Some?)
  {
  }

  lemma {:induction false} ApplyLeases(s: State, c: Call, e: Effect)
    requires LeasesAgree(s) && c in s.pcs && LeaseOpOk(s, c, e)
    ensures LeasesAgree(Apply(s, c, e))
  {
    var t := Apply(s, c, e);
    forall l, x | l in t.leases && x in t.leases[l].holders ensures HolderOk(t, l, x) { ApplyHolder(s, c, e, l, x); }
    forall x | x in t.pcs && UsesLease(t.pcs[x])
      ensures t.pcs[x].lease in t.leases && x in t.leases[t.pcs[x].lease].holders &&
              (t.pcs[x].DropInstall? ==> t.leases[t.pcs[x].lease].seen.Some?)
    {
      ApplyUser(s, c, e, x);
    }
  }

  lemma {:induction false} ApplyFiles(s: State, c: Call, e: Effect)
    requires Inv(s) && c in s.pcs && EffectOk(s, c, e)
    ensures LeasesPin(Apply(s, c, e))
    ensures forall x :: x in Apply(s, c, e).pcs ==> PlaceOk(s.artifact, Apply(s, c, e).pcs[x], e.files)
  {
    var t := Apply(s, c, e);
    forall x | x in t.pcs && x != c ensures PlaceOk(s.artifact, t.pcs[x], e.files) {
      assert t.pcs[x] == s.pcs[x] && PlaceOk(s.artifact, s.pcs[x], s.files);
      assert HoldsInstall(s.pcs[x]) ==> !HoldsInstall(s.pcs[c]);
    }
  }

  lemma {:induction false} AbortKeeps(s: State, c: Call, t: State)
    requires Inv(s) && Takes(s, Abort(c), t)
    ensures Inv(t)
  {
    assert s.exclusive.Some? ==> t.leases == map[];
  }

  lemma {:induction false} ReleaseKeeps(s: State, c: Call, t: State)
    requires Inv(s) && Takes(s, Release(c), t)
    ensures Inv(t)
  {
    assert s.exclusive.Some? ==> t.leases == map[];
  }

  lemma {:induction false} CrashKeeps(s: State, p: nat, t: State)
    requires Inv(s) && Takes(s, Crash(p), t)
    ensures Inv(t)
  {
    assert s.exclusive.Some? ==> t.leases == map[];
    forall c | c in t.pcs && UsesLease(t.pcs[c]) ensures t.pcs[c].lease in t.leases {
      assert HolderOk(s, s.pcs[c].lease, c);
    }
    forall l, c | l in t.leases && c in t.leases[l].holders ensures HolderOk(t, l, c) {
      assert HolderOk(s, l, c);
    }
  }

  lemma {:induction false} BeginKeeps(s: State, c: Call, pc: Pc, t: State)
    requires Inv(s) && Takes(s, Begin(c, pc), t)
    ensures Inv(t)
  {
    assert !HoldsInstall(pc) && !HoldsExclusive(pc) && !UsesLease(pc) && PlaceOk(s.artifact, pc, s.files);
    assert LeasesAgree(t) by {
      forall l, x | l in t.leases && x in t.leases[l].holders ensures HolderOk(t, l, x) { assert HolderOk(s, l, x); }
    }
  }

  lemma {:induction false} StepKeeps(s: State, c: Call, o: Outcome, t: State)
    requires Inv(s) && Takes(s, Step(c, o), t)
    ensures Inv(t)
  {
    NextOk(s, c, o);
    ApplyLocks(s, c, Next(s, c, o).value);
    ApplyLeases(s, c, Next(s, c, o).value);
    ApplyFiles(s, c, Next(s, c, o).value);
  }

  lemma {:induction false} TamperKeeps(s: State, d: Dir, t: State)
    requires Inv(s) && Takes(s, Tamper(d), t)
    ensures Inv(t)
  {
  }

  lemma {:induction false} TakesKeeps(s: State, e: Event, t: State)
    requires Inv(s) && Takes(s, e, t)
    ensures Inv(t)
  {
    match e
    case Begin(c, pc) => BeginKeeps(s, c, pc, t);
    case Step(c, o) => StepKeeps(s, c, o, t);
    case Abort(c) => AbortKeeps(s, c, t);
    case Release(c) => ReleaseKeeps(s, c, t);
    case Crash(p) => CrashKeeps(s, p, t);
    case Tamper(d) => TamperKeeps(s, d, t);
  }

  // ---------------------------------------------------------------------------------------------
  // Runs
  // ---------------------------------------------------------------------------------------------

  predicate Run(states: seq<State>, events: seq<Event>) {
    |states| == |events| + 1 && Init(states[0]) &&
    forall i :: 0 <= i < |events| ==> Takes(states[i], events[i], states[i + 1])
  }

  lemma {:induction false} RunInv(states: seq<State>, events: seq<Event>, i: nat)
    requires Run(states, events) && i < |states|
    ensures Inv(states[i])
  {
    if i > 0 {
      RunInv(states, events, i - 1);
      TakesKeeps(states[i - 1], events[i - 1], states[i]);
    }
  }

  /** `c` has returned with a handle on lease `l` and has not let go of it. */
  predicate Held(s: State, c: Call, l: nat) {
    l in s.leases && c in s.leases[l].holders && c !in s.pcs
  }

  /** In every run the entrypoint is there for as long as any returned lease is held. */
  lemma {:induction false} EntrypointStays(states: seq<State>, events: seq<Event>, i: nat, c: Call, l: nat)
    requires Run(states, events) && i < |states| && Held(states[i], c, l)
    ensures HasEntry(states[i].files.dir)
  {
    RunInv(states, events, i);
    assert HolderOk(states[i], l, c);
  }

  /** While a lease is held the package stays; only an install stamping the manifest writes there at all. */
  lemma {:induction false} FrozenStep(s: State, e: Event, t: State, c: Call, l: nat)
    requires Inv(s) && Takes(s, e, t) && Held(s, c, l) && Held(t, c, l)
    ensures SamePackage(s.files.dir, t.files.dir) && t.files.version == s.files.version && t.artifact == s.artifact
    ensures t.files.dir != s.files.dir || t.files.stamp != s.files.stamp ==>
      e.Step? && e.call in s.pcs && Touches(s.pcs[e.call]) && s.install == Some(e.call) &&
      ManifestOk(s.files.dir, t.files.dir, s.pcs[e.call])
  {
    if e.Step? { NextOk(s, e.call, e.outcome); }
  }

  /**
   Nobody replaces or removes the package underneath a held lease. The manifest is the one it was, with
   its stamp rewritten any number of times; so it goes on matching if the artifact is safe.
   */
  lemma {:induction false} DirectoryFrozen(states: seq<State>, events: seq<Event>, i: nat, j: nat, c: Call, l: nat)
    returns (stamps: seq<Numeral>)
    requires Run(states, events) && i <= j < |states|
    requires forall k :: i <= k <= j ==> Held(states[k], c, l)
    ensures states[j].artifact == states[i].artifact && states[j].files.version == states[i].files.version
    ensures HasEntry(states[i].files.dir) && HasEntry(states[j].files.dir)
    ensures StampedFrom(states[i].files.dir.manifest, states[j].files.dir.manifest, stamps)
    ensures Safe(states[i].artifact) ==>
      (CacheValid(states[j].artifact, states[j].files.dir) <==> CacheValid(states[i].artifact, states[i].files.dir))
    decreases j
  {
    EntrypointStays(states, events, j, c, l);
    stamps := [];
    if i < j {
      stamps := DirectoryFrozen(states, events, i, j - 1, c, l);
      var s, e, t := states[j - 1], events[j - 1], states[j];
      RunInv(states, events, j - 1);
      FrozenStep(s, e, t, c, l);
      if t.files.dir.manifest != s.files.dir.manifest {
        var now := s.pcs[e.call].now;
        StampedNext(states[i].files.dir.manifest, s.files.dir.manifest, t.files.dir.manifest, stamps, now);
        if Safe(s.artifact) { StampKeepsMatch(s.files.dir.manifest.value, now, s.artifact); }
        stamps := stamps + [now];
      }
    }
  }

  /** `after` is manifest `before`, stamped in turn. */
  predicate StampedFrom(before: Option<string>, after: Option<string>, stamps: seq<Numeral>) {
    before.Some? == after.Some? && (before.Some? ==> after.value == TouchAll(KEY, before.value, stamps))
  }

  lemma {:induction false} StampedNext(before: Option<string>, mid: Option<string>, after: Option<string>,
                                       stamps: seq<Numeral>,
                                       now: Numeral)
    requires StampedFrom(before, mid, stamps) && mid.Some? && after.Some? && after == TouchLastUsed(mid.value, now)
    ensures StampedFrom(before, after, stamps + [now])
  {
    TouchNext(KEY, before.value, stamps, now, after.value);
  }

  /** No two installs stamp at once, so no rewrite of the manifest is lost. */
  lemma {:induction false} StampsInTurn(states: seq<State>, events: seq<Event>, i: nat, c: Call, d: Call)
    requires Run(states, events) && i < |states| && c in states[i].pcs && d in states[i].pcs
    requires Touches(states[i].pcs[c]) && Touches(states[i].pcs[d])
    ensures c == d
  {
    RunInv(states, events, i);
  }

  /** A staging directory is left alone by everybody but the installer filling it. */
  lemma {:induction false} StagingStays(states: seq<State>, events: seq<Event>, i: nat, c: Call)
    requires Run(states, events) && i < |events|
    requires c in states[i].pcs && (states[i].pcs[c].Filling? || states[i].pcs[c].Publishing?)
    requires c in states[i + 1].pcs && states[i + 1].pcs[c] == states[i].pcs[c]
    ensures var n := states[i].pcs[c].name;
            n in states[i].files.staging && n in states[i + 1].files.staging &&
            states[i + 1].files.staging[n] == states[i].files.staging[n]
  {
    var s, e, t := states[i], events[i], states[i + 1];
    RunInv(states, events, i);
    assert PlaceOk(s.artifact, s.pcs[c], s.files) && Takes(s, e, t);
    if e.Step? {
      NextOk(s, e.call, e.outcome);
      assert e.call != c ==> !HoldsInstall(s.pcs[e.call]);
    }
  }

  /**
   Unless somebody outside the protocol interferes, the second entrypoint check of an install never
   fails: nothing can be removed between validating the cache and holding the shared lease.
   */
  lemma {:induction false} NeverDisappears(states: seq<State>, events: seq<Event>, i: nat, c: Call, o: Outcome)
    requires Run(states, events) && i < |states| && !states[i].files.tampered
    requires c in states[i].pcs && states[i].pcs[c].Verify?
    ensures HasEntry(states[i].files.dir) && Next(states[i], c, o).Some?
  {
    RunInv(states, events, i);
    assert PlaceOk(states[i].artifact, states[i].pcs[c], states[i].files);
  }

  /**
   Unless somebody outside the protocol interferes, the directory of a safe artifact is absent or
   complete.
   */
  lemma {:induction false} AppearsWhole(states: seq<State>, events: seq<Event>, i: nat)
    requires Run(states, events) && i < |states| && !states[i].files.tampered && Safe(states[i].artifact)
    ensures states[i].files.dir == Absent || CacheValid(states[i].artifact, states[i].files.dir)
  {
    RunInv(states, events, i);
  }
}
