/**
  Runs of the whole scheduler: every critical section of `Scheduler`, performed by
  workers, the discovery goroutine, event sources and reloads in any order, next to
  the agent server, whose live runs are what the allocator must bound.
 */
module SchedulerRuns {
  import opened Collections
  import opened Scheduler

  /**
    Where a worker stands in its attempt. `Snapped(n)`: the complete snapshot it holds
    shows `n` live runs. A worker reserves only for a thread that its snapshot shows idle,
    at most once, and starts a run only after the reservation succeeded.
   */
  datatype Phase = Started | Snapped(n: nat) | Observed(n: nat) | Refused | Reserved | Submitted

  datatype Worker = Worker(workflow: Workflow, phase: Phase)

  datatype Stage = Finding | Listing(workflow: Workflow, remaining: set<Key>) | Choosing | Replaying

  datatype Scan = NoScan | Scan(epoch: nat, cfg: Config, retired: map<nat, Workflow>, listed: set<nat>, stage: Stage)

  datatype World = World(
    rt: State,
    workers: map<Key, Worker>,
    scan: Scan,
    live: map<Key, nat>,   // non-terminal runs on the server, per thread
    sessions: set<Key>,    // threads that own a session on the server
    covered: set<nat>,     // workflows whose sessions have once been listed to the end
    bounded: set<nat>,     // workflows for which a reservation has succeeded
    owed: set<Key>)        // hinted threads that no attempt has followed yet

  ghost predicate ValidConfig(cfg: Config) {
    && (forall i, j :: 0 <= i < j < |cfg.workflows| ==> cfg.workflows[i].id != cfg.workflows[j].id)
    && (forall c :: c in cfg.routes ==> cfg.routes[c] in cfg.workflows)
  }

  /** An empty process beside a server with arbitrary history. */
  ghost predicate Init(w: World) {
    && ValidConfig(w.rt.cfg)
    && w.rt == State(w.rt.cfg, map[], map[], {}, map[], map[], 0, 0, 0, false, false, false, 0, map[])
    && w.workers == map[] && w.scan == NoScan
    && w.live.Keys <= w.sessions
    && w.covered == {} && w.bounded == {} && w.owed == {}
  }

  datatype Step =
    | Hinted(k: Key, w: Workflow)
    | RescanRequested
    | DispatchRound(now: int, chosen: set<Key>)
    | TakesSnapshot(k: Key)
    | Observes(k: Key)
    | Reserves(k: Key)
    | Submits(k: Key, effect: bool)
    | Finishes(k: Key, outcome: Outcome, now: int, delay: nat, held: bool)
    | RunEnds(k: Key)
    | ScanBegins(now: int)
    | FindsChannels(channels: map<nat, nat>)
    | StartsListing(w: Workflow)
    | SkipsListing(w: Workflow)
    | Discovers(k: Key)
    | EndsListing(now: int)
    | OpensAdmission
    | Replays(k: Key, w: Workflow)
    | EndsScan(success: bool, at: int)
    | Reloads(cfg: Config)

  ghost predicate HintedStep(v: World, k: Key, w: Workflow, v': World) {
    && (k in v.rt.jobs || (w in v.rt.cfg.workflows && w.id == k.workflow))
    && v' == v.(rt := Enqueue(v.rt, k, w),
                owed := if k in Enqueue(v.rt, k, w).jobs then v.owed + {k} else v.owed)
  }

  ghost predicate RescanRequestedStep(v: World, v': World) {
    v' == v.(rt := v.rt.(scanAt := 0))
  }

  ghost predicate DispatchRoundStep(v: World, now: int, chosen: set<Key>, v': World) {
    && FairChoice(v.rt, now, chosen)
    && chosen <= v.rt.jobs.Keys
    && v' == v.(rt := Dispatched(v.rt, chosen),
                workers := map k | k in v.workers.Keys + chosen ::
                  if k in chosen
                      then Worker(Launched(v.rt.jobs[k], Owner(v.rt.cfg, v.rt.channels, k)).workflow, Started)
                  else v.workers[k],
                owed := v.owed - chosen)
  }

  ghost predicate TakesSnapshotStep(v: World, k: Key, v': World) {
    && k in v.workers && v.workers[k].phase.Started?
    && v' == v.(workers := Advance(v.workers, k, Snapped(ActiveOf(v.live, k))))
  }

  ghost predicate ObservesStep(v: World, k: Key, v': World) {
    && k in v.workers && v.workers[k].phase.Snapped?
    && v' == v.(rt := Observe(v.rt, k, v.workers[k].phase.n),
                workers := Advance(v.workers, k, Observed(v.workers[k].phase.n)))
  }

  ghost predicate ReservesStep(v: World, k: Key, v': World) {
    && k in v.workers && v.workers[k].phase == Observed(0)
    && v.workers[k].workflow.id == k.workflow
    && var w := v.workers[k].workflow;
       v' == v.(rt := Reserve(v.rt, k, w),
                workers := Advance(v.workers, k, if Blocked(v.rt, w) then Refused else Reserved),
                bounded := if Blocked(v.rt, w) then v.bounded else v.bounded + {w.id})
  }

  ghost predicate SubmitsStep(v: World, k: Key, effect: bool, v': World) {
    && k in v.workers && v.workers[k].phase.Reserved?
    && v' == v.(workers := Advance(v.workers, k, Submitted),
                live := if effect then v.live[k := 1] else v.live,
                sessions := if effect then v.sessions + {k} else v.sessions)
  }

  ghost predicate FinishesStep(v: World, k: Key, outcome: Outcome, now: int, delay: nat, held: bool, v': World) {
    && k in v.workers && k in v.rt.jobs && v.rt.running > 0
    // Success is reported only after the observation, and a refused reservation
    // leaves frozen or queued input behind (`AdmissionTheorems.RefusedReservationHoldsInput`).
    && (outcome.Succeeded? ==> !v.workers[k].phase.Started? && !v.workers[k].phase.Snapped?)
    && (v.workers[k].phase.Refused? ==> outcome.Succeeded? && held)
    && v' == v.(rt := Finish(v.rt, k, v.workers[k].workflow.poll, outcome, now, delay, held),
                workers := v.workers - {k})
  }

  ghost predicate RunEndsStep(v: World, k: Key, v': World) {
    && k in v.live && v.live[k] > 0
    && v' == v.(live := v.live[k := v.live[k] - 1])
  }

  ghost predicate ScanBeginsStep(v: World, now: int, v': World) {
    && !v.rt.scanning && v.scan.NoScan? && now >= v.rt.scanAt
    && v' == v.(rt := ScanBegin(v.rt), scan := Scan(v.rt.epoch, v.rt.cfg, v.rt.retired, {}, Finding))
  }

  ghost predicate FindsChannelsStep(v: World, channels: map<nat, nat>, v': World) {
    && v.scan.Scan? && v.scan.stage.Finding? && v.scan.epoch == v.rt.epoch
    && v' == v.(rt := ScanChannels(v.rt, channels), scan := v.scan.(stage := Choosing))
  }

  ghost predicate StartsListingStep(v: World, w: Workflow, v': World) {
    && v.scan.Scan? && v.scan.stage.Choosing?
    && (w in v.scan.cfg.workflows || w in v.scan.retired.Values)
    && v' == v.(scan := v.scan.(stage := Listing(w, set k | k in v.sessions && k.workflow == w.id)))
  }

  ghost predicate SkipsListingStep(v: World, w: Workflow, v': World) {
    && v.scan.Scan? && v.scan.stage.Choosing?
    && w.id in v.rt.discovered // listed recently enough in this epoch
    && v' == v.(scan := v.scan.(listed := v.scan.listed + {w.id}))
  }

  ghost predicate DiscoversStep(v: World, k: Key, v': World) {
    && v.scan.Scan? && v.scan.stage.Listing? && k in v.scan.stage.remaining
    && v.scan.epoch == v.rt.epoch
    && var rt := Discover(v.rt, v.scan.epoch, k, v.scan.stage.workflow, true);
       v' == v.(rt := rt,
                scan := if k in rt.jobs
                        then v.scan.(stage := v.scan.stage.(remaining := v.scan.stage.remaining - {k}))
                        else v.scan,
                owed := if k in rt.jobs then v.owed + {k} else v.owed)
  }

  ghost predicate EndsListingStep(v: World, now: int, v': World) {
    && v.scan.Scan? && v.scan.stage.Listing? && v.scan.stage.remaining == {}
    && v' == v.(rt := ScanListed(v.rt, v.scan.epoch, v.scan.stage.workflow.id, now),
                scan := v.scan.(listed := v.scan.listed + {v.scan.stage.workflow.id}, stage := Choosing),
                covered := v.covered + {v.scan.stage.workflow.id})
  }

  ghost predicate OpensAdmissionStep(v: World, v': World) {
    && v.scan.Scan? && v.scan.stage.Choosing? && v.scan.epoch == v.rt.epoch
    && (forall w :: w in v.scan.cfg.workflows ==> w.id in v.scan.listed)
    && v' == v.(rt := ScanOpen(v.rt), scan := v.scan.(stage := Replaying))
  }

  ghost predicate ReplaysStep(v: World, k: Key, w: Workflow, v': World) {
    && v.scan.Scan? && v.scan.stage.Replaying? && v.scan.epoch == v.rt.epoch
    && w in v.scan.cfg.workflows && w.id == k.workflow
    && var rt := Discover(v.rt, v.scan.epoch, k, w, false);
       v' == v.(rt := rt, owed := if k in rt.jobs then v.owed + {k} else v.owed)
  }

  ghost predicate EndsScanStep(v: World, success: bool, at: int, v': World) {
    && v.scan.Scan? && (success ==> v.scan.stage.Replaying?)
    && v' == v.(rt := ScanEnd(v.rt, v.scan.epoch, success, at), scan := NoScan)
  }

  ghost predicate ReloadsStep(v: World, cfg: Config, v': World) {
    && ValidConfig(cfg) && cfg.process == v.rt.cfg.process
    && v' == v.(rt := Reload(v.rt, cfg))
  }

  ghost predicate Next(v: World, step: Step, v': World) {
    match step
    case Hinted(k, w) => HintedStep(v, k, w, v')
    case RescanRequested => RescanRequestedStep(v, v')
    case DispatchRound(now, chosen) => DispatchRoundStep(v, now, chosen, v')
    case TakesSnapshot(k) => TakesSnapshotStep(v, k, v')
    case Observes(k) => ObservesStep(v, k, v')
    case Reserves(k) => ReservesStep(v, k, v')
    case Submits(k, effect) => SubmitsStep(v, k, effect, v')
    case Finishes(k, outcome, now, delay, held) => FinishesStep(v, k, outcome, now, delay, held, v')
    case RunEnds(k) => RunEndsStep(v, k, v')
    case ScanBegins(now) => ScanBeginsStep(v, now, v')
    case FindsChannels(channels) => FindsChannelsStep(v, channels, v')
    case StartsListing(w) => StartsListingStep(v, w, v')
    case SkipsListing(w) => SkipsListingStep(v, w, v')
    case Discovers(k) => DiscoversStep(v, k, v')
    case EndsListing(now) => EndsListingStep(v, now, v')
    case OpensAdmission => OpensAdmissionStep(v, v')
    case Replays(k, w) => ReplaysStep(v, k, w, v')
    case EndsScan(success, at) => EndsScanStep(v, success, at, v')
    case Reloads(cfg) => ReloadsStep(v, cfg, v')
  }

  function Advance(workers: map<Key, Worker>, k: Key, phase: Phase): map<Key, Worker>
    requires k in workers
  {
    workers[k := workers[k].(phase := phase)]
  }

  /** A run of the scheduler: world `i + 1` follows world `i` by step `i`. */
  ghost predicate Run(worlds: seq<World>, steps: seq<Step>) {
    && |worlds| == |steps| + 1
    && Init(worlds[0])
    && forall i :: 0 <= i < |steps| ==> Next(worlds[i], steps[i], worlds[i + 1])
  }

  // ---------------------------------------------------------------------
  // Invariants of every run, reloads included
  // ---------------------------------------------------------------------

  /** Orders identify jobs and never exceed the sequence counter. */
  ghost predicate Orders(jobs: map<Key, Job>, sequence: nat) {
    && DistinctOrders(jobs)
    && (forall k :: k in jobs ==> jobs[k].order <= sequence)
  }

  /** Exactly one worker per working job, working for the workflow stored in the job. */
  ghost predicate Crew(jobs: map<Key, Job>, workers: map<Key, Worker>) {
    forall k :: if k in jobs && jobs[k].working
                then k in workers && workers[k].workflow == jobs[k].workflow
                else k !in workers
  }

  predicate BeforeObservation(p: Phase) {
    p.Started? || p.Snapped?
  }

  /** No mark is lost: of unknown capacity, of a hint, or of a cancellation. */
  ghost predicate Marks(v: World) {
    && (forall k :: k in v.rt.unknown ==> k in v.rt.jobs)
    && (forall k :: k in v.rt.unknown && !v.rt.jobs[k].dirty ==>
         k in v.workers && BeforeObservation(v.workers[k].phase))
    && (forall k :: k in v.owed ==> k in v.rt.jobs && v.rt.jobs[k].dirty)
    && (forall k :: k in v.rt.jobs && v.rt.jobs[k].cancelled ==> v.rt.jobs[k].working && v.rt.jobs[k].dirty)
  }

  predicate PhaseFits(active: map<Key, nat>, k: Key, p: Phase) {
    match p
    case Observed(n) => ActiveOf(active, k) == n
    case Refused => ActiveOf(active, k) == 0
    case Reserved => ActiveOf(active, k) == 1
    case Submitted => ActiveOf(active, k) == 1
    case _ => true
  }

  /** Only a thread's own worker touches its count and its capacity wait. */
  ghost predicate Phases(v: World) {
    && (forall k :: k in v.workers ==> PhaseFits(v.rt.active, k, v.workers[k].phase))
    && (forall k :: k in v.workers && k in v.rt.jobs && v.rt.jobs[k].capacityWait ==> v.workers[k].phase.Refused?)
  }

  /** What a thread that waits for capacity may legitimately wait for. */
  ghost predicate Waits(rt: State, w: Workflow) {
    || !rt.initialized
    || rt.discovering
    || rt.unknown != {}
    || Total(rt.active, w.id) >= w.maxRuns
    || (rt.epoch > 0 && rt.scanAt == 0) // after a reload: a new scan is due at once
  }

  ghost predicate Wakeups(v: World) {
    forall k :: k in v.rt.jobs && v.rt.jobs[k].capacityWait && !v.rt.jobs[k].dirty ==>
        Waits(v.rt, v.rt.jobs[k].workflow)
  }

  ghost predicate Scans(v: World) {
    && v.rt.scanning == v.scan.Scan?
    && (v.scan.Scan? ==> v.scan.epoch <= v.rt.epoch && (v.scan.epoch < v.rt.epoch ==> v.rt.scanAt == 0))
    && (v.scan.Scan? && !v.scan.stage.Replaying? ==> v.rt.discovering)
  }

  ghost predicate Books(v: World) {
    && |v.rt.jobs.Keys| <= MAX_QUEUED_THREADS
    && v.rt.running == |v.workers.Keys|
    && Orders(v.rt.jobs, v.rt.sequence)
    && Crew(v.rt.jobs, v.workers)
  }

  ghost predicate Sound(v: World) {
    && Books(v)
    && Marks(v)
    && Phases(v)
    && Wakeups(v)
    && Scans(v)
  }

  lemma SoundInit(v: World)
    requires Init(v)
    ensures Sound(v)
  {
  }

  // Books

  lemma NewOrder(jobs: map<Key, Job>, sequence: nat, k: Key, w: Workflow)
    requires Orders(jobs, sequence) && k !in jobs
    ensures Orders(jobs[k := NewJob(w, sequence + 1)], sequence + 1)
  {
  }

  lemma MarkedOrder(jobs: map<Key, Job>, sequence: nat, k: Key, j: Job)
    requires Orders(jobs, sequence) && k in jobs && j.order == jobs[k].order
    ensures Orders(jobs[k := j], sequence)
  {
  }

  lemma EnqueueCrew(jobs: map<Key, Job>, sequence: nat, workers: map<Key, Worker>, k: Key, w: Workflow)
    requires Crew(jobs, workers)
    ensures Crew(EnqueuedJobs(jobs, sequence, k, w), workers)
  {
  }

  lemma EnqueueBooks(v: World, k: Key, w: Workflow, v': World)
    requires Books(v)
    requires v'.rt.jobs == EnqueuedJobs(v.rt.jobs, v.rt.sequence, k, w)
    requires v'.rt.sequence == Enqueue(v.rt, k, w).sequence && v'.rt.running == v.rt.running
    requires v'.workers == v.workers
    ensures Books(v')
  {
    var jobs := v.rt.jobs;
    assert |jobs| == |jobs.Keys|;
    if k in jobs {
      MarkedOrder(jobs, v.rt.sequence, k, jobs[k].(dirty := true));
      UpdateCard(jobs, k, jobs[k].(dirty := true));
    } else {
      NewOrder(jobs, v.rt.sequence, k, w);
      UpdateCard(jobs, k, NewJob(w, v.rt.sequence + 1));
    }
    EnqueueCrew(jobs, v.rt.sequence, v.workers, k, w);
  }

  /** The two job tables differ at most in marks that the books do not mention. */
  ghost predicate SameShape(a: map<Key, Job>, b: map<Key, Job>) {
    && a.Keys == b.Keys
    && forall k :: k in a ==>
         a[k].working == b[k].working && a[k].order == b[k].order && a[k].workflow == b[k].workflow
  }

  lemma ShapeBooks(v: World, v': World)
    requires Books(v) && SameShape(v.rt.jobs, v'.rt.jobs)
    requires v'.rt.sequence == v.rt.sequence && v'.rt.running == v.rt.running
    requires v'.workers.Keys == v.workers.Keys
    requires forall k :: k in v.workers ==> v'.workers[k].workflow == v.workers[k].workflow
    ensures Books(v')
  {
  }

  lemma DispatchBooks(v: World, now: int, chosen: set<Key>, v': World)
    requires Books(v) && DispatchRoundStep(v, now, chosen, v')
    ensures Books(v')
  {
    assert v'.workers.Keys == v.workers.Keys + chosen;
    assert v'.rt.jobs.Keys == v.rt.jobs.Keys;
    assert forall k :: k in chosen ==> Eligible(v.rt, k, now) && k !in v.workers.Keys;
    LaunchOrders(v.rt.jobs, v.rt.sequence, v.rt.cfg, v.rt.channels, chosen);
    LaunchCrew(v.rt.jobs, v.workers, v.rt.cfg, v.rt.channels, chosen, v'.workers);
  }

  lemma LaunchOrders(jobs: map<Key, Job>, sequence: nat, cfg: Config, channels: map<nat, nat>, chosen: set<Key>)
    requires Orders(jobs, sequence)
    ensures Orders(LaunchedJobs(jobs, cfg, channels, chosen), sequence)
  {
  }

  lemma LaunchCrew(
    jobs: map<Key, Job>, workers: map<Key, Worker>, cfg: Config, channels: map<nat, nat>, chosen: set<Key>,
                   workers': map<Key, Worker>)
    requires Crew(jobs, workers) && chosen <= jobs.Keys
    requires workers'.Keys == workers.Keys + chosen
    requires forall k :: k in workers' ==>
               workers'[k] == if k in chosen then Worker(Launched(jobs[k], Owner(cfg, channels, k)).workflow, Started)
                              else workers[k]
    ensures Crew(LaunchedJobs(jobs, cfg, channels, chosen), workers')
  {
  }

  lemma FinishOrders(jobs: map<Key, Job>, sequence: nat, k: Key, j: Job)
    requires Orders(jobs, sequence) && j.order == sequence + 1
    ensures Orders(jobs[k := j], sequence + 1) && Orders(jobs - {k}, sequence + 1)
  {
  }

  lemma FinishCrew(jobs: map<Key, Job>, workers: map<Key, Worker>, k: Key, j: Job)
    requires Crew(jobs, workers) && !j.working
    ensures Crew(jobs[k := j], workers - {k}) && Crew(jobs - {k}, workers - {k})
  {
  }

  lemma FinishBooks(v: World, k: Key, outcome: Outcome, now: int, delay: nat, held: bool, v': World)
    requires Books(v) && FinishesStep(v, k, outcome, now, delay, held, v')
    ensures Books(v')
  {
    var j := Rescheduled(v.rt.jobs[k], v.rt.sequence + 1, v.workers[k].workflow.poll, outcome, now, delay);
    FinishOrders(v.rt.jobs, v.rt.sequence, k, j);
    FinishCrew(v.rt.jobs, v.workers, k, j);
    UpdateCard(v.rt.jobs, k, j);
    RemoveCard(v.rt.jobs, k);
    RemoveCard(v.workers, k);
    assert v'.rt.jobs == v.rt.jobs[k := j] || v'.rt.jobs == v.rt.jobs - {k};
  }

  /** Steps of the discovery goroutine and of the environment that leave every thread's bookkeeping alone. */
  predicate Background(step: Step) {
    || step.RescanRequested? || step.RunEnds? || step.ScanBegins?
    || step.StartsListing? || step.SkipsListing? || step.EndsListing?
  }

  lemma BackgroundFrame(v: World, step: Step, v': World)
    requires Background(step) && Next(v, step, v')
    ensures v'.rt.jobs == v.rt.jobs && v'.rt.active == v.rt.active && v'.rt.unknown == v.rt.unknown
    ensures v'.rt.running == v.rt.running && v'.rt.sequence == v.rt.sequence
    ensures v'.rt.initialized == v.rt.initialized && (v.rt.discovering ==> v'.rt.discovering)
    ensures v.rt.scanAt == 0 ==> v'.rt.scanAt == 0
    ensures v'.rt.epoch == v.rt.epoch
    ensures v'.workers == v.workers && v'.owed == v.owed
  {
  }

  lemma BooksNext(v: World, step: Step, v': World)
    requires Books(v) && Next(v, step, v')
    ensures Books(v')
  {
    if Background(step) {
      BackgroundFrame(v, step, v');
    } else if Remark(step) {
      RemarkFrame(v, step, v');
      ShapeBooks(v, v');
    } else {
      match step
      case Hinted(k, w) => EnqueueBooks(v, k, w, v');
      case Discovers(k) => EnqueueBooks(v, k, v.scan.stage.workflow, v');
      case Replays(k, w) => EnqueueBooks(v, k, w, v');
      case DispatchRound(now, chosen) => DispatchBooks(v, now, chosen, v');
      case Finishes(k, outcome, now, delay, held) => FinishBooks(v, k, outcome, now, delay, held, v');
      case _ => WorkerBooks(v, step, v');
    }
  }

  /** Critical sections that only set marks on jobs. */
  predicate Remark(step: Step) {
    step.FindsChannels? || step.Reloads? || step.OpensAdmission? || step.EndsScan?
  }

  /** The jobs keep their shape and their waits; marks are only added, and only attempts at work are cancelled. */
  ghost predicate Remarked(before: map<Key, Job>, after: map<Key, Job>) {
    && SameShape(before, after)
    && forall k :: k in before ==>
         && after[k].capacityWait == before[k].capacityWait
         && (before[k].dirty ==> after[k].dirty)
         && (after[k].cancelled ==> before[k].cancelled || (before[k].working && after[k].dirty))
  }

  lemma ChannelsRemark(s: State, channels: map<nat, nat>)
    ensures Remarked(s.jobs, ScanChannels(s, channels).jobs)
  {
  }

  lemma ReloadRemarks(s: State, cfg: Config)
    ensures Remarked(s.jobs, Reload(s, cfg).jobs)
  {
  }

  lemma WokenRemarks(jobs: map<Key, Job>)
    ensures Remarked(jobs, Woken(jobs)) && Remarked(jobs, jobs)
  {
  }

  lemma RemarkFrame(v: World, step: Step, v': World)
    requires Remark(step) && Next(v, step, v')
    ensures Remarked(v.rt.jobs, v'.rt.jobs)
    ensures v'.rt.active == v.rt.active && v'.rt.unknown == v.rt.unknown
    ensures v'.rt.running == v.rt.running && v'.rt.sequence == v.rt.sequence
    ensures v'.workers == v.workers && v'.owed == v.owed
  {
    WokenRemarks(v.rt.jobs);
    hide Remarked, Woken, Retired;
    match step
    case FindsChannels(channels) => ChannelsRemark(v.rt, channels);
    case Reloads(cfg) => ReloadRemarks(v.rt, cfg);
    case OpensAdmission =>
    case EndsScan(_, _) =>
  }

  lemma AdvanceShape(workers: map<Key, Worker>, k: Key, phase: Phase)
    requires k in workers
    ensures Advance(workers, k, phase).Keys == workers.Keys
    ensures forall a :: a in workers ==> Advance(workers, k, phase)[a].workflow == workers[a].workflow
  {
  }

  lemma WokenShape(jobs: map<Key, Job>)
    ensures SameShape(jobs, Woken(jobs))
  {
  }

  lemma WorkerBooks(v: World, step: Step, v': World)
    requires step.TakesSnapshot? || step.Observes? || step.Reserves? || step.Submits?
    requires Books(v) && Next(v, step, v')
    ensures Books(v')
  {
    WorkerFrame(v, step, v');
    hide Next, Books, SameShape;
    ShapeBooks(v, v');
  }

  /** What an attempt's steps leave of the bookkeeping. */
  lemma WorkerFrame(v: World, step: Step, v': World)
    requires step.TakesSnapshot? || step.Observes? || step.Reserves? || step.Submits?
    requires Next(v, step, v')
    ensures SameShape(v.rt.jobs, v'.rt.jobs)
    ensures v'.rt.running == v.rt.running && v'.rt.sequence == v.rt.sequence
    ensures v'.workers.Keys == v.workers.Keys
    ensures forall k :: k in v.workers ==> v'.workers[k].workflow == v.workers[k].workflow
  {
    AdvanceShape(v.workers, step.k, v'.workers[step.k].phase);
    WokenShape(v.rt.jobs);
    hide Woken;
  }

  // Marks

  /** What dispatch does to one thread. */
  lemma DispatchedThread(v: World, now: int, chosen: set<Key>, v': World, k: Key)
    requires DispatchRoundStep(v, now, chosen, v') && k in v.rt.jobs
    ensures k in v'.rt.jobs
    ensures k !in chosen ==>
              v'.rt.jobs[k] == v.rt.jobs[k] && (k in v.workers ==> k in v'.workers && v'.workers[k] == v.workers[k])
    ensures k in chosen ==>
              && v'.rt.jobs[k].working && !v'.rt.jobs[k].dirty && !v'.rt.jobs[k].cancelled
              && k in v'.workers && v'.workers[k].phase.Started?
  {
    hide FairChoice, Owner;
  }

  lemma DispatchMarks(v: World, now: int, chosen: set<Key>, v': World)
    requires Crew(v.rt.jobs, v.workers) && Marks(v) && DispatchRoundStep(v, now, chosen, v')
    ensures Marks(v')
  {
    assert v'.rt.unknown == v.rt.unknown && v'.owed == v.owed - chosen && v'.rt.jobs.Keys == v.rt.jobs.Keys;
    hide DispatchRoundStep, Crew, Dispatched;
    forall k | k in v.rt.jobs
      ensures k in v.rt.unknown && !v'.rt.jobs[k].dirty ==> k in v'.workers && BeforeObservation(v'.workers[k].phase)
      ensures k in v'.owed ==> v'.rt.jobs[k].dirty
      ensures v'.rt.jobs[k].cancelled ==> v'.rt.jobs[k].working && v'.rt.jobs[k].dirty
    {
      DispatchedThread(v, now, chosen, v', k);
    }
  }

  lemma WorkerMarks(v: World, step: Step, v': World)
    requires step.TakesSnapshot? || step.Observes? || step.Reserves? || step.Submits? || step.Finishes?
    requires Crew(v.rt.jobs, v.workers) && Marks(v) && Next(v, step, v')
    ensures Marks(v')
  {
  }

  lemma HintMarks(v: World, k: Key, w: Workflow, v': World)
    requires Crew(v.rt.jobs, v.workers) && Marks(v) && HintedStep(v, k, w, v')
    ensures Marks(v')
  {
  }

  lemma DiscoverMarks(v: World, k: Key, v': World)
    requires Crew(v.rt.jobs, v.workers) && Marks(v) && DiscoversStep(v, k, v')
    ensures Marks(v')
  {
  }

  lemma ReplayMarks(v: World, k: Key, w: Workflow, v': World)
    requires Crew(v.rt.jobs, v.workers) && Marks(v) && ReplaysStep(v, k, w, v')
    ensures Marks(v')
  {
  }

  lemma BackgroundMarks(v: World, step: Step, v': World)
    requires Background(step) && Marks(v) && Next(v, step, v')
    ensures Marks(v')
  {
    BackgroundFrame(v, step, v');
    hide Next;
  }

  lemma RemarkMarks(v: World, step: Step, v': World)
    requires Remark(step) && Marks(v) && Next(v, step, v')
    ensures Marks(v')
  {
    RemarkFrame(v, step, v');
    hide Next;
  }

  lemma MarksNext(v: World, step: Step, v': World)
    requires Crew(v.rt.jobs, v.workers) && Marks(v) && Next(v, step, v')
    ensures Marks(v')
  {
    if Background(step) {
      BackgroundMarks(v, step, v');
    } else if Remark(step) {
      RemarkMarks(v, step, v');
    } else {
      hide Crew, Marks, HintedStep, DiscoversStep, ReplaysStep, DispatchRoundStep, TakesSnapshotStep, ObservesStep,
        ReservesStep, SubmitsStep, FinishesStep;
      match step
      case DispatchRound(now, chosen) => DispatchMarks(v, now, chosen, v');
      case Hinted(k, w) => HintMarks(v, k, w, v');
      case Discovers(k) => DiscoverMarks(v, k, v');
      case Replays(k, w) => ReplayMarks(v, k, w, v');
      case _ => WorkerMarks(v, step, v');
    }
  }

  // Phases

  lemma WorkerPhases(v: World, step: Step, v': World)
    requires step.TakesSnapshot? || step.Observes? || step.Reserves? || step.Submits? || step.Finishes?
    requires Crew(v.rt.jobs, v.workers) && Phases(v) && Next(v, step, v')
    ensures Phases(v')
  {
    if step.Reserves? {
      ReservePhases(v, step.k, v');
    } else if step.Finishes? {
      FinishPhases(v, step, v');
    }
  }

  lemma ReservePhases(v: World, k: Key, v': World)
    requires Crew(v.rt.jobs, v.workers) && Phases(v) && ReservesStep(v, k, v')
    ensures Phases(v')
  {
    hide Blocked;
  }

  lemma FinishPhases(v: World, step: Step, v': World)
    requires step.Finishes? && Crew(v.rt.jobs, v.workers) && Phases(v) && Next(v, step, v')
    ensures Phases(v')
  {
    hide Rescheduled;
  }

  lemma QueuePhases(v: World, step: Step, v': World)
    requires step.Hinted? || step.Discovers? || step.Replays?
    requires Crew(v.rt.jobs, v.workers) && Phases(v) && Next(v, step, v')
    ensures Phases(v')
  {
  }

  lemma DispatchPhases(v: World, now: int, chosen: set<Key>, v': World)
    requires Phases(v) && DispatchRoundStep(v, now, chosen, v')
    ensures Phases(v')
  {
  }

  lemma PhasesNext(v: World, step: Step, v': World)
    requires Crew(v.rt.jobs, v.workers) && Phases(v) && Next(v, step, v')
    ensures Phases(v')
  {
    if Background(step) {
      BackgroundFrame(v, step, v');
    } else if Remark(step) {
      RemarkFrame(v, step, v');
    } else {
      match step
      case TakesSnapshot(_) => WorkerPhases(v, step, v');
      case Observes(_) => WorkerPhases(v, step, v');
      case Reserves(_) => WorkerPhases(v, step, v');
      case Submits(_, _) => WorkerPhases(v, step, v');
      case Finishes(_, _, _, _, _) => WorkerPhases(v, step, v');
      case DispatchRound(now, chosen) => DispatchPhases(v, now, chosen, v');
      case _ => QueuePhases(v, step, v');
    }
  }

  // Wake-ups

  /** Reasons to wait survive as long as no count falls and no flag clears. */
  lemma WaitsKept(v: World, v': World)
    requires Wakeups(v)
    requires v'.rt.initialized == v.rt.initialized && (v.rt.discovering ==> v'.rt.discovering)
    requires v.rt.unknown != {} ==> v'.rt.unknown != {}
    requires forall k :: ActiveOf(v.rt.active, k) <= ActiveOf(v'.rt.active, k)
    requires v.rt.scanAt == 0 ==> v'.rt.scanAt == 0
    requires v'.rt.epoch == v.rt.epoch
    requires forall k :: k in v'.rt.jobs && v'.rt.jobs[k].capacityWait && !v'.rt.jobs[k].dirty ==>
               || (k in v.rt.jobs && v.rt.jobs[k].capacityWait && !v.rt.jobs[k].dirty &&
                    v'.rt.jobs[k].workflow == v.rt.jobs[k].workflow)
               || Waits(v'.rt, v'.rt.jobs[k].workflow)
    ensures Wakeups(v')
  {
    forall w: nat ensures Total(v.rt.active, w) <= Total(v'.rt.active, w) {
      TotalGrows(v.rt.active, v'.rt.active, w);
    }
  }

  lemma ReserveWakes(v: World, k: Key, v': World)
    requires Crew(v.rt.jobs, v.workers) && Phases(v) && Wakeups(v) && ReservesStep(v, k, v')
    ensures Wakeups(v')
  {
    var w := v.workers[k].workflow;
    if Blocked(v.rt, w) {
      assert Waits(v'.rt, w);
    }
    WaitsKept(v, v');
  }

  lemma ObserveWakes(v: World, k: Key, v': World)
    requires Wakeups(v) && ObservesStep(v, k, v')
    ensures Wakeups(v')
  {
    if v'.rt.jobs == v.rt.jobs {
      var n := v.workers[k].phase.n;
      if n >= ActiveOf(v.rt.active, k) && (k in v.rt.unknown ==> v'.rt.unknown != {}) {
        WaitsKept(v, v');
      }
    }
  }

  lemma DispatchWakes(v: World, now: int, chosen: set<Key>, v': World)
    requires Wakeups(v) && DispatchRoundStep(v, now, chosen, v')
    ensures Wakeups(v')
  {
    WaitsKept(v, v');
  }

  lemma FinishWakes(v: World, k: Key, outcome: Outcome, now: int, delay: nat, held: bool, v': World)
    requires Wakeups(v) && FinishesStep(v, k, outcome, now, delay, held, v')
    ensures Wakeups(v')
  {
    WaitsKept(v, v');
  }

  lemma WakeupsNext(v: World, step: Step, v': World)
    requires Crew(v.rt.jobs, v.workers) && Phases(v) && Wakeups(v) && Scans(v) && Next(v, step, v')
    ensures Wakeups(v')
  {
    if Background(step) {
      BackgroundFrame(v, step, v');
      WaitsKept(v, v');
    } else {
      match step
      case Observes(k) => ObserveWakes(v, k, v');
      case Reserves(k) => ReserveWakes(v, k, v');
      case DispatchRound(now, chosen) => DispatchWakes(v, now, chosen, v');
      case Finishes(k, outcome, now, delay, held) => FinishWakes(v, k, outcome, now, delay, held, v');
      case OpensAdmission =>
      case EndsScan(_, _) =>
      case Reloads(_) =>
      case _ => QueueWakes(v, step, v');
    }
  }

  lemma QueueWakes(v: World, step: Step, v': World)
    requires step.Hinted? || step.Discovers? || step.Replays? || step.FindsChannels? || step.TakesSnapshot? ||
              step.Submits?
    requires Wakeups(v) && Next(v, step, v')
    ensures Wakeups(v')
  {
    WaitsKept(v, v');
  }

  lemma ScansNext(v: World, step: Step, v': World)
    requires Scans(v) && Next(v, step, v')
    ensures Scans(v')
  {
  }

  lemma TotalGrows(a: map<Key, nat>, b: map<Key, nat>, w: nat)
    requires forall k :: ActiveOf(a, k) <= ActiveOf(b, k)
    ensures Total(a, w) <= Total(b, w)
  {
    var a' := map k | k in OfWorkflow(a, w) && a[k] > 0 :: a[k];
    SumPositive(OfWorkflow(a, w));
    forall k | k in a' ensures k in OfWorkflow(b, w) && a'[k] <= OfWorkflow(b, w)[k] {
      assert ActiveOf(a, k) <= ActiveOf(b, k);
    }
    assert a' == Positive(OfWorkflow(a, w));
    SumMonotone(a', OfWorkflow(b, w));
  }

  ghost function Positive<K>(m: map<K, nat>): map<K, nat> {
    map k | k in m && m[k] > 0 :: m[k]
  }

  lemma {:induction false} SumPositive<K>(m: map<K, nat>)
    ensures Sum(Positive(m)) == Sum(m)
  {
    if m != map[] {
      var k :| k in m;
      SumRemove(m, k);
      SumPositive(m - {k});
      if m[k] > 0 {
        SumRemove(Positive(m), k);
        assert Positive(m) - {k} == Positive(m - {k});
      } else {
        assert Positive(m) == Positive(m - {k});
      }
    } else {
      assert Positive(m) == m;
    }
  }

  lemma SoundNext(v: World, step: Step, v': World)
    requires Sound(v) && Next(v, step, v')
    ensures Sound(v')
  {
    assert Crew(v.rt.jobs, v.workers);
    hide Books, Marks, Phases, Wakeups, Scans, Next, Crew;
    BooksNext(v, step, v');
    MarksNext(v, step, v');
    PhasesNext(v, step, v');
    WakeupsNext(v, step, v');
    ScansNext(v, step, v');
  }

  lemma {:induction false} SoundRun(worlds: seq<World>, steps: seq<Step>, i: nat)
    requires Run(worlds, steps) && i < |worlds|
    ensures Sound(worlds[i])
  {
    hide Sound, Next, Init;
    if i == 0 {
      SoundInit(worlds[0]);
    } else {
      SoundRun(worlds, steps, i - 1);
      SoundNext(worlds[i - 1], steps[i - 1], worlds[i]);
    }
  }
}
