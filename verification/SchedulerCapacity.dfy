/**
  Run-capacity safety within one configuration epoch, from an empty process beside a
  server with any history, and the exact reason why a reload can break it.
 */
module SchedulerCapacity {
  import opened Collections
  import opened Scheduler
  import opened SchedulerRuns
  import opened SchedulerTheorems

  /** A run without configuration reloads. */
  ghost predicate EpochRun(worlds: seq<World>, steps: seq<Step>) {
    Run(worlds, steps) && forall i :: 0 <= i < |steps| ==> !steps[i].Reloads?
  }

  /** The allocator counts thread `k` fully, and a snapshot in flight will not raise the count. */
  ghost predicate Counted(v: World, k: Key) {
    && ActiveOf(v.live, k) <= ActiveOf(v.rt.active, k)
    && (k in v.workers && v.workers[k].phase.Snapped? ==> v.workers[k].phase.n <= ActiveOf(v.rt.active, k))
  }

  /** What a worker holds bounds its thread's live runs, for only that worker can start one. */
  predicate HoldsFor(live: nat, p: Phase) {
    match p
    case Started => true
    case Snapped(n) => live <= n
    case Observed(n) => live <= n
    case Refused => live == 0
    case Reserved => live == 0
    case Submitted => live <= 1
  }

  ghost predicate Holds(v: World) {
    && (forall k :: k in v.workers ==> HoldsFor(ActiveOf(v.live, k), v.workers[k].phase))
    && (forall k :: ActiveOf(v.live, k) > 0 ==> k in v.sessions)
    && (forall k :: k in v.workers && v.workers[k].phase.Snapped? && v.workers[k].phase.n > 0 ==> k in v.sessions)
  }

  ghost predicate Configured(jobs: map<Key, Job>, cfg: Config) {
    forall k :: k in jobs ==> jobs[k].workflow in cfg.workflows
  }

  ghost predicate OneConfig(v: World) {
    && ValidConfig(v.rt.cfg)
    && v.rt.epoch == 0 && v.rt.retired == map[]
    && (v.scan.Scan? ==> v.scan.epoch == 0 && v.scan.cfg == v.rt.cfg && v.scan.retired == map[])
    && Configured(v.rt.jobs, v.rt.cfg)
    && (v.scan.Scan? && v.scan.stage.Listing? ==> v.scan.stage.workflow in v.rt.cfg.workflows)
  }

  ghost predicate AllCovered(v: World) {
    forall w :: w in v.rt.cfg.workflows ==> w.id in v.covered
  }

  /** Every thread of a listed workflow is unknown or counted; a listing in progress gets there. */
  ghost predicate Listed(v: World) {
    && (forall k: Key :: k.workflow in v.covered ==> k in v.rt.unknown || Counted(v, k))
    && (v.scan.Scan? && v.scan.stage.Listing? ==>
          forall k :: k in v.sessions && k.workflow == v.scan.stage.workflow.id ==>
            k in v.scan.stage.remaining || k in v.rt.unknown || Counted(v, k))
    && (v.scan.Scan? ==> v.scan.listed <= v.covered)
    && v.rt.discovered.Keys <= v.covered
  }

  /** Admission opens only after every configured workflow has been listed. */
  ghost predicate Opened(v: World) {
    && (v.scan.Scan? && v.scan.stage.Replaying? ==> AllCovered(v))
    && (v.rt.initialized ==> AllCovered(v))
  }

  /** Once a reservation has succeeded, all of the workflow's runs are counted and within its limit. */
  ghost predicate Bounded(v: World) {
    forall w :: w in v.rt.cfg.workflows && w.id in v.bounded ==>
      && (forall k: Key :: k.workflow == w.id ==> Counted(v, k))
      && Total(v.rt.active, w.id) <= w.maxRuns
  }

  ghost predicate Capacity(v: World) {
    Sound(v) && Holds(v) && OneConfig(v) && Listed(v) && Opened(v) && Bounded(v)
  }

  lemma TotalSet(active: map<Key, nat>, k: Key, n: nat, w: nat)
    ensures Total(active[k := n], w) + (if k.workflow == w then ActiveOf(active, k) else 0) ==
            Total(active, w) + (if k.workflow == w then n else 0)
  {
    TotalRemove(active[k := n], k, w);
    assert active[k := n] - {k} == active - {k};
    if k in active {
      TotalRemove(active, k, w);
    } else {
      assert active - {k} == active;
    }
  }

  lemma CapacityInit(v: World)
    requires Init(v)
    ensures Capacity(v)
  {
    SoundInit(v);
  }

  lemma WorkerHolds(v: World, step: Step, v': World)
    requires step.TakesSnapshot? || step.Observes? || step.Reserves? || step.Submits? || step.Finishes?
    requires Holds(v) && Next(v, step, v')
    ensures Holds(v')
  {
  }

  lemma DispatchHolds(v: World, now: int, chosen: set<Key>, v': World)
    requires Holds(v) && DispatchRoundStep(v, now, chosen, v')
    ensures Holds(v')
  {
  }

  lemma HoldsNext(v: World, step: Step, v': World)
    requires Holds(v) && Next(v, step, v')
    ensures Holds(v')
  {
    match step
    case RunEnds(_) =>
    case DispatchRound(now, chosen) => DispatchHolds(v, now, chosen, v');
    case TakesSnapshot(_) => WorkerHolds(v, step, v');
    case Observes(_) => WorkerHolds(v, step, v');
    case Reserves(_) => WorkerHolds(v, step, v');
    case Submits(_, _) => WorkerHolds(v, step, v');
    case Finishes(_, _, _, _, _) => WorkerHolds(v, step, v');
    case _ => assert v'.live == v.live && v'.sessions == v.sessions && v'.workers == v.workers;
  }

  lemma EnqueueConfigured(jobs: map<Key, Job>, sequence: nat, cfg: Config, k: Key, w: Workflow)
    requires Configured(jobs, cfg) && (k in jobs || w in cfg.workflows)
    ensures Configured(EnqueuedJobs(jobs, sequence, k, w), cfg)
  {
  }

  lemma LaunchConfigured(jobs: map<Key, Job>, cfg: Config, channels: map<nat, nat>, chosen: set<Key>)
    requires Configured(jobs, cfg) && ValidConfig(cfg)
    ensures Configured(LaunchedJobs(jobs, cfg, channels, chosen), cfg)
  {
    forall k | k in jobs ensures LaunchedJobs(jobs, cfg, channels, chosen)[k].workflow in cfg.workflows {
      assert Owner(cfg, channels, k).Some? ==> Owner(cfg, channels, k).value == cfg.routes[k.channel];
    }
  }

  lemma ShapeConfigured(a: map<Key, Job>, b: map<Key, Job>, cfg: Config)
    requires Configured(a, cfg) && b.Keys <= a.Keys && forall k :: k in b ==> b[k].workflow == a[k].workflow
    ensures Configured(b, cfg)
  {
  }

  lemma OneConfigNext(v: World, step: Step, v': World)
    requires OneConfig(v) && Next(v, step, v') && !step.Reloads?
    ensures OneConfig(v')
  {
    match step
    case Hinted(k, w) => EnqueueConfigured(v.rt.jobs, v.rt.sequence, v.rt.cfg, k, w);
    case Discovers(k) => EnqueueConfigured(v.rt.jobs, v.rt.sequence, v.rt.cfg, k, v.scan.stage.workflow);
    case Replays(k, w) => EnqueueConfigured(v.rt.jobs, v.rt.sequence, v.rt.cfg, k, w);
    case DispatchRound(now, chosen) => LaunchConfigured(v.rt.jobs, v.rt.cfg, v.rt.channels, chosen);
    case _ => ShapeConfigured(v.rt.jobs, v'.rt.jobs, v.rt.cfg);
  }

  /** What one step may do to how a thread is counted. */
  lemma CountedNext(v: World, step: Step, v': World, k: Key)
    requires Crew(v.rt.jobs, v.workers) && Phases(v) && Holds(v) && Next(v, step, v')
    requires Counted(v, k) || (step.Observes? && step.k == k)
    ensures Counted(v', k)
  {
    if step.TakesSnapshot? || step.Observes? || step.Reserves? || step.Submits? || step.Finishes? {
      WorkerCounted(v, step, v', k);
    } else {
      match step
      case RunEnds(_) =>
      case DispatchRound(now, chosen) =>
      case _ => assert v'.live == v.live && v'.rt.active == v.rt.active && v'.workers == v.workers;
    }
  }

  lemma WorkerCounted(v: World, step: Step, v': World, k: Key)
    requires step.TakesSnapshot? || step.Observes? || step.Reserves? || step.Submits? || step.Finishes?
    requires Phases(v) && Holds(v) && Next(v, step, v')
    requires Counted(v, k) || (step.Observes? && step.k == k)
    ensures Counted(v', k)
  {
    if step.Reserves? && step.k == k {
      assert ActiveOf(v.live, k) == 0;
    }
  }

  lemma UnknownNext(v: World, step: Step, v': World, k: Key)
    requires Next(v, step, v') && k in v.rt.unknown && !(step.Observes? && step.k == k)
    ensures k in v'.rt.unknown
  {
  }

  /** Coverage survives every step, reloads included. */
  lemma ListedNext(v: World, step: Step, v': World)
    requires Crew(v.rt.jobs, v.workers) && Phases(v) && Holds(v) && Listed(v) && Next(v, step, v')
    ensures Listed(v')
  {
    forall k | k in v.rt.unknown || Counted(v, k) ensures k in v'.rt.unknown || Counted(v', k) {
      if Counted(v, k) || (step.Observes? && step.k == k) {
        CountedNext(v, step, v', k);
      } else {
        UnknownNext(v, step, v', k);
      }
    }
    forall k | k !in v.sessions ensures Counted(v, k) {
      assert ActiveOf(v.live, k) == 0;
    }
  }

  lemma OpenedNext(v: World, step: Step, v': World)
    requires OneConfig(v) && Listed(v) && Opened(v) && Next(v, step, v') && !step.Reloads?
    ensures Opened(v')
  {
  }

  /** A successful reservation proves the whole workflow counted and leaves it within its limit. */
  lemma ReservedIsBounded(v: World, k: Key, v': World)
    requires Capacity(v) && ReservesStep(v, k, v') && !Blocked(v.rt, v.workers[k].workflow)
    ensures var w := v.workers[k].workflow;
            && (forall a: Key :: a.workflow == w.id ==> Counted(v', a))
            && Total(v'.rt.active, w.id) <= w.maxRuns && w in v.rt.cfg.workflows
  {
    var w := v.workers[k].workflow;
    assert w in v.rt.cfg.workflows && w.id in v.covered;
    forall a: Key | a.workflow == w.id ensures Counted(v', a) {
      assert a in v.rt.unknown || Counted(v, a);
      CountedNext(v, Reserves(k), v', a);
    }
    assert PhaseFits(v.rt.active, k, v.workers[k].phase);
    TotalSet(v.rt.active, k, 1, w.id);
  }

  /** Outside reservation no step raises the count of a workflow whose threads are all counted. */
  lemma TotalsFall(v: World, step: Step, v': World, w: nat)
    requires Next(v, step, v') && !step.Reserves?
    requires forall a: Key :: a.workflow == w ==> Counted(v, a)
    ensures Total(v'.rt.active, w) <= Total(v.rt.active, w)
  {
    if step.Observes? {
      var k := step.k;
      var n := v.workers[k].phase.n;
      assert k.workflow == w ==> Counted(v, k);
      TotalSet(v.rt.active, k, n, w);
      if n == 0 {
        TotalRemove(v.rt.active[k := 0], k, w);
        assert v.rt.active[k := 0] - {k} == v'.rt.active;
      }
    } else {
      assert v'.rt.active == v.rt.active;
    }
  }

  lemma BoundedNext(v: World, step: Step, v': World)
    requires Capacity(v) && Next(v, step, v') && !step.Reloads?
    ensures Bounded(v')
  {
    hide Capacity, Next, Counted, Total, Blocked;
    forall w | w in v'.rt.cfg.workflows && w.id in v'.bounded
      ensures forall a: Key :: a.workflow == w.id ==> Counted(v', a)
      ensures Total(v'.rt.active, w.id) <= w.maxRuns
    {
      BoundedOne(v, step, v', w);
    }
  }

  lemma BoundedOne(v: World, step: Step, v': World, w: Workflow)
    requires Capacity(v) && Next(v, step, v') && !step.Reloads? && w in v'.rt.cfg.workflows && w.id in v'.bounded
    ensures forall a: Key :: a.workflow == w.id ==> Counted(v', a)
    ensures Total(v'.rt.active, w.id) <= w.maxRuns
  {
    BoundedFrom(v, step, v', w);
    OneConfigOf(v);
    hide Capacity, Next, Counted, Total, Blocked, ValidConfig;
    if step.Reserves? && !Blocked(v.rt, v.workers[step.k].workflow) && v.workers[step.k].workflow.id == w.id {
      ReservedIsBounded(v, step.k, v');
      SameWorkflow(v.rt.cfg, w, v.workers[step.k].workflow);
    } else {
      BoundedElsewhere(v, step, v', w);
    }
  }

  lemma OneConfigOf(v: World)
    requires Capacity(v)
    ensures ValidConfig(v.rt.cfg)
  {
  }

  lemma BoundedFrom(v: World, step: Step, v': World, w: Workflow)
    requires Next(v, step, v') && !step.Reloads?
    ensures v'.rt.cfg == v.rt.cfg
    ensures step.Reserves? ==> step.k in v.workers && ReservesStep(v, step.k, v')
    ensures w.id in v'.bounded ==>
              || w.id in v.bounded
              || (step.Reserves? && !Blocked(v.rt, v.workers[step.k].workflow) && v.workers[step.k].workflow.id == w.id)
  {
    hide Blocked;
  }

  lemma SameWorkflow(cfg: Config, a: Workflow, b: Workflow)
    requires ValidConfig(cfg) && a in cfg.workflows && b in cfg.workflows && a.id == b.id
    ensures a == b
  {
  }

  lemma BoundedElsewhere(v: World, step: Step, v': World, w: Workflow)
    requires Capacity(v) && Next(v, step, v') && !step.Reloads?
    requires w in v.rt.cfg.workflows && w.id in v.bounded
    requires step.Reserves? ==> Blocked(v.rt, v.workers[step.k].workflow) || v.workers[step.k].workflow.id != w.id
    ensures forall a: Key :: a.workflow == w.id ==> Counted(v', a)
    ensures Total(v'.rt.active, w.id) <= w.maxRuns
  {
    forall a: Key | a.workflow == w.id ensures Counted(v', a) {
      CountedNext(v, step, v', a);
    }
    if step.Reserves? {
      TotalSet(v.rt.active, step.k, 1, w.id);
    } else {
      TotalsFall(v, step, v', w.id);
    }
  }

  lemma {:induction false} CapacityRun(worlds: seq<World>, steps: seq<Step>, i: nat)
    requires EpochRun(worlds, steps) && i < |worlds|
    ensures Capacity(worlds[i])
  {
    hide Capacity, Next, Init;
    if i == 0 {
      CapacityInit(worlds[0]);
    } else {
      CapacityRun(worlds, steps, i - 1);
      assert Next(worlds[i - 1], steps[i - 1], worlds[i]);
      CapacityNext(worlds[i - 1], steps[i - 1], worlds[i]);
    }
  }

  lemma CapacityNext(v: World, step: Step, v': World)
    requires Capacity(v) && Next(v, step, v') && !step.Reloads?
    ensures Capacity(v')
  {
    assert Crew(v.rt.jobs, v.workers) && Phases(v);
    hide Sound, Holds, OneConfig, Listed, Opened, Bounded, Next, Crew, Phases;
    SoundNext(v, step, v');
    HoldsNext(v, step, v');
    OneConfigNext(v, step, v');
    ListedNext(v, step, v');
    OpenedNext(v, step, v');
    BoundedNext(v, step, v');
  }

  /**
    The limit holds: once any reservation for a workflow has succeeded, its live runs on
    the server never exceed the limit again, lost admission responses included.
   */
  lemma CapacitySafety(worlds: seq<World>, steps: seq<Step>, i: nat, w: Workflow)
    requires EpochRun(worlds, steps) && i < |worlds|
    requires w in worlds[i].rt.cfg.workflows && w.id in worlds[i].bounded
    ensures Total(worlds[i].live, w.id) <= w.maxRuns
  {
    CapacityRun(worlds, steps, i);
    var v := worlds[i];
    var live := OfWorkflow(v.live, w.id);
    var counted := OfWorkflow(v.rt.active, w.id);
    forall k | k in live && live[k] > 0 ensures k in counted && live[k] <= counted[k] {
      assert Counted(v, k);
    }
    SumPositive(live);
    SumMonotone(Positive(live), counted);
  }

  // ---------------------------------------------------------------------
  // Across reloads
  // ---------------------------------------------------------------------

  ghost predicate Tracked(v: World) {
    Sound(v) && Holds(v) && Listed(v)
  }

  lemma {:induction false} TrackedRun(worlds: seq<World>, steps: seq<Step>, i: nat)
    requires Run(worlds, steps) && i < |worlds|
    ensures Tracked(worlds[i])
  {
    hide Tracked, Next, Init;
    if i == 0 {
      TrackedInit(worlds[0]);
    } else {
      TrackedRun(worlds, steps, i - 1);
      TrackedNext(worlds[i - 1], steps[i - 1], worlds[i]);
    }
  }

  lemma TrackedInit(v: World)
    requires Init(v)
    ensures Tracked(v)
  {
    CapacityInit(v);
    hide Sound, Holds, Listed;
  }

  lemma TrackedNext(v: World, step: Step, v': World)
    requires Tracked(v) && Next(v, step, v')
    ensures Tracked(v')
  {
    assert Crew(v.rt.jobs, v.workers) && Phases(v);
    hide Sound, Holds, Listed, Next, Crew, Phases;
    SoundNext(v, step, v');
    HoldsNext(v, step, v');
    ListedNext(v, step, v');
  }

  /** A successful reservation leaves room for its run, whatever run has led to this state of the connector. */
  ghost predicate LeavesRoom(v: World, w: Workflow) {
    forall worlds: seq<World>, steps: seq<Step> :: Run(worlds, steps) && SameConnector(worlds[|steps|], v) ==>
      Total(worlds[|steps|].live, w.id) + 1 <= w.maxRuns
  }

  /** Only the server differs. */
  ghost predicate SameConnector(u: World, v: World) {
    u == v.(live := u.live, sessions := u.sessions)
  }

  /**
    Over every run, reloads included: the reservation is safe exactly when the workflow's
    sessions have been listed before.
   */
  lemma SafeReservation(worlds: seq<World>, steps: seq<Step>, i: nat, k: Key)
    requires Run(worlds, steps) && i < |steps| && steps[i] == Reserves(k)
    requires k in worlds[i].workers && !Blocked(worlds[i].rt, worlds[i].workers[k].workflow)
    ensures LeavesRoom(worlds[i], worlds[i].workers[k].workflow) <==>
              worlds[i].workers[k].workflow.id in worlds[i].covered
  {
    var v := worlds[i];
    var w := v.workers[k].workflow;
    if w.id in v.covered {
      forall others: seq<World>, taken: seq<Step> | Run(others, taken) && SameConnector(others[|taken|], v)
        ensures Total(others[|taken|].live, w.id) + 1 <= w.maxRuns {
        TrackedRun(others, taken, |taken|);
        CountedRoom(others[|taken|], w);
      }
    } else {
      UnlistedRuns(worlds[..i + 1], steps[..i], w);
    }
  }

  lemma CountedRoom(v: World, w: Workflow)
    requires Listed(v) && w.id in v.covered && !Blocked(v.rt, w)
    ensures Total(v.live, w.id) + 1 <= w.maxRuns
  {
    forall a | a in OfWorkflow(v.live, w.id) && v.live[a] > 0
      ensures a in OfWorkflow(v.rt.active, w.id) && v.live[a] <= v.rt.active[a]
    {
      assert Counted(v, a);
    }
    SumPositive(OfWorkflow(v.live, w.id));
    SumMonotone(Positive(OfWorkflow(v.live, w.id)), OfWorkflow(v.rt.active, w.id));
  }

  // The same run beside a server with one more thread, of which the connector never hears.

  ghost function Mentioned(v: World): set<Key> {
    v.workers.Keys + v.live.Keys + v.sessions + if v.scan.Scan? &&
        v.scan.stage.Listing? then v.scan.stage.remaining else {}
  }

  lemma UnheardThread(worlds: seq<World>, workflow: nat) returns (k: Key)
    ensures k.workflow == workflow && forall v :: v in worlds ==> k !in Mentioned(v)
  {
    var roots := set v, a | v in worlds && a in Mentioned(v) :: a.root;
    k := Key(workflow, 0, Above(roots));
    assert forall v, a :: v in worlds && a in Mentioned(v) ==> a.root in roots;
  }

  function With(v: World, k: Key, n: nat): World {
    v.(live := v.live[k := n], sessions := v.sessions + {k}, scan := Awaiting(v.scan, k))
  }

  /** A listing of its workflow would still have to find it. */
  function Awaiting(scan: Scan, k: Key): Scan {
    if scan.Scan? && scan.stage.Listing? && scan.stage.workflow.id == k.workflow
    then scan.(stage := scan.stage.(remaining := scan.stage.remaining + {k}))
    else scan
  }

  lemma WithNext(v: World, step: Step, v': World, k: Key, n: nat)
    requires Next(v, step, v') && k !in Mentioned(v) && k.workflow !in v'.covered
    ensures Next(With(v, k, n), step, With(v', k, n))
  {
    match step
    case TakesSnapshot(_) => WithWorker(v, step, v', k, n);
    case Submits(_, _) => WithWorker(v, step, v', k, n);
    case RunEnds(a) =>
      assert v.live[a := v.live[a] - 1][k := n] == v.live[k := n][a := v.live[a] - 1];
    case StartsListing(w) => WithListing(v, w, v', k, n);
    case Discovers(d) => WithDiscovery(v, d, v', k, n);
    case EndsListing(_) =>
    case DispatchRound(_, _) =>
    case _ =>
  }

  lemma WithWorker(v: World, step: Step, v': World, k: Key, n: nat)
    requires step.TakesSnapshot? || step.Submits?
    requires Next(v, step, v') && k !in Mentioned(v)
    ensures Next(With(v, k, n), step, With(v', k, n))
  {
    if step.Submits? && step.effect {
      assert v.live[step.k := 1][k := n] == v.live[k := n][step.k := 1];
      assert v.sessions + {step.k} + {k} == v.sessions + {k} + {step.k};
    }
  }

  lemma WithListing(v: World, w: Workflow, v': World, k: Key, n: nat)
    requires StartsListingStep(v, w, v')
    ensures StartsListingStep(With(v, k, n), w, With(v', k, n))
  {
    var u, u' := With(v, k, n), With(v', k, n);
    var remaining := set a | a in u.sessions && a.workflow == w.id;
    if k.workflow == w.id {
      assert u'.scan.stage.remaining == v'.scan.stage.remaining + {k} == remaining;
    } else {
      assert u'.scan.stage.remaining == v'.scan.stage.remaining == remaining;
    }
    assert u'.scan == u.scan.(stage := Listing(w, remaining));
  }

  lemma WithDiscovery(v: World, d: Key, v': World, k: Key, n: nat)
    requires DiscoversStep(v, d, v') && k !in Mentioned(v)
    ensures DiscoversStep(With(v, k, n), d, With(v', k, n))
  {
    hide Discover;
    assert v.scan.stage.remaining + {k} - {d} == v.scan.stage.remaining - {d} + {k};
  }

  lemma {:induction false} CoveredStays(worlds: seq<World>, steps: seq<Step>, i: nat, id: nat)
    requires Run(worlds, steps) && i <= |steps| && id in worlds[i].covered
    ensures id in worlds[|steps|].covered
    decreases |steps| - i
  {
    if i < |steps| {
      assert Next(worlds[i], steps[i], worlds[i + 1]);
      CoveredStays(worlds, steps, i + 1, id);
    }
  }

  lemma WithRun(worlds: seq<World>, steps: seq<Step>, k: Key, n: nat) returns (others: seq<World>)
    requires Run(worlds, steps) && k.workflow !in worlds[|steps|].covered
    requires forall v :: v in worlds ==> k !in Mentioned(v)
    ensures Run(others, steps) && others[|steps|] == With(worlds[|steps|], k, n)
  {
    others := seq(|worlds|, i requires 0 <= i < |worlds| => With(worlds[i], k, n));
    assert Init(others[0]);
    forall i | 0 <= i < |steps| ensures Next(others[i], steps[i], others[i + 1]) {
      assert worlds[i] in worlds && Next(worlds[i], steps[i], worlds[i + 1]);
      if k.workflow in worlds[i + 1].covered {
        CoveredStays(worlds, steps, i + 1, k.workflow);
      }
      WithNext(worlds[i], steps[i], worlds[i + 1], k, n);
    }
  }

  /** An unlisted workflow may own live runs of a thread that the connector has never heard of. */
  lemma UnlistedRuns(worlds: seq<World>, steps: seq<Step>, w: Workflow)
    requires Run(worlds, steps) && w.id !in worlds[|steps|].covered && !Blocked(worlds[|steps|].rt, w)
    ensures !LeavesRoom(worlds[|steps|], w)
  {
    var v := worlds[|steps|];
    TrackedRun(worlds, steps, |steps|);
    var k := UnheardThread(worlds, w.id);
    var others := WithRun(worlds, steps, k, w.maxRuns);
    assert v in worlds;
    TotalSet(v.live, k, w.maxRuns, w.id);
    assert SameConnector(others[|steps|], v);
  }

  ghost function Above(s: set<nat>): (n: nat)
    ensures forall x :: x in s ==> x < n
  {
    if s == {} then 0
    else
      var x :| x in s;
      var n := Above(s - {x});
      assert forall y :: y in s ==> y == x || y in s - {x};
      if x < n then n else x + 1
  }

  // A reload during the replay phase of an older scan: workflow 2 gets a second run.

  const W1 := Workflow(1, 1, 1)
  const W2 := Workflow(2, 1, 1)
  const BEFORE := Config([W1], map[10 := W1], 1, 0)
  const AFTER := Config([W1, W2], map[10 := W1, 20 := W2], 1, 0)
  const LISTED := Key(2, 20, 5)
  const NEWCOMER := Key(2, 20, 7)
  const KINDS: map<nat, nat> := map[10 := 1, 20 := 1]

  lemma ScanStarts() returns (worlds: seq<World>, steps: seq<Step>)
    ensures Run(worlds, steps)
    ensures var v := worlds[|steps|];
            && v.rt == State(BEFORE, map[], map[], {}, map[], KINDS, 0, 0, 0, true, true, false, 0, map[])
            && v.workers == map[] && v.live == map[LISTED := 1] && v.sessions == {LISTED}
            && v.scan == Scan(0, BEFORE, map[], {}, Choosing) && v.owed == {} && v.covered == {}
  {
    var rt := State(BEFORE, map[], map[], {}, map[], map[], 0, 0, 0, false, false, false, 0, map[]);
    var v0 := World(rt, map[], NoScan, map[LISTED := 1], {LISTED}, {}, {}, {});
    assert Init(v0);
    var v1 := v0.(rt := ScanBegin(rt), scan := Scan(0, BEFORE, map[], {}, Finding));
    assert Next(v0, ScanBegins(1), v1);
    var v2 := v1.(rt := ScanChannels(v1.rt, KINDS), scan := v1.scan.(stage := Choosing));
    assert Next(v1, FindsChannels(KINDS), v2);
    worlds := [v0, v1, v2];
    steps := [ScanBegins(1), FindsChannels(KINDS)];
  }

  lemma OldScanOpens() returns (worlds: seq<World>, steps: seq<Step>)
    ensures Run(worlds, steps)
    ensures var v := worlds[|steps|];
            && v.rt == State(BEFORE, map[], map[], {}, map[1 := 1], KINDS, 0, 0, 0, true, false, true, 0, map[])
            && v.workers == map[] && v.live == map[LISTED := 1] && v.scan == Scan(0, BEFORE, map[], {1}, Replaying)
  {
    worlds, steps := ScanStarts();
    assert |worlds| == |steps| + 1;
    hide Run;
    var v2 := worlds[|steps|];
    var v3 := v2.(scan := v2.scan.(stage := Listing(W1, set k | k in v2.sessions && k.workflow == 1)));
    AppendStep(worlds, steps, StartsListing(W1), v3);
    worlds, steps := worlds + [v3], steps + [StartsListing(W1)];
    assert v3.scan.stage.remaining == {};
    var v4 := v3.(rt := ScanListed(v3.rt, 0, 1, 1), scan := v3.scan.(listed := {1}, stage := Choosing),
        covered := v3.covered + {1});
    assert v3.scan.listed + {1} == {1};
    AppendStep(worlds, steps, EndsListing(1), v4);
    worlds, steps := worlds + [v4], steps + [EndsListing(1)];
    var v5 := v4.(rt := ScanOpen(v4.rt), scan := v4.scan.(stage := Replaying));
    AppendStep(worlds, steps, OpensAdmission, v5);
    worlds, steps := worlds + [v5], steps + [OpensAdmission];
  }

  lemma AppendStep(worlds: seq<World>, steps: seq<Step>, step: Step, v: World)
    requires Run(worlds, steps) && Next(worlds[|steps|], step, v)
    ensures Run(worlds + [v], steps + [step])
    ensures |worlds| == |steps| + 1
  {
  }

  lemma ReloadAdmits() returns (worlds: seq<World>, steps: seq<Step>)
    ensures Run(worlds, steps)
    ensures Total(worlds[|steps|].live, W2.id) > W2.maxRuns && W2 in worlds[|steps|].rt.cfg.workflows
  {
    worlds, steps := OldScanOpens();
    assert |worlds| == |steps| + 1;
    hide Run, Next, Total;
    var v := worlds[|steps|];
    var v1 := Reloading(v);
    AppendStep(worlds, steps, Reloads(AFTER), v1);
    worlds, steps := worlds + [v1], steps + [Reloads(AFTER)];
    var v2 := Hinting(v1);
    AppendStep(worlds, steps, Hinted(NEWCOMER, W2), v2);
    worlds, steps := worlds + [v2], steps + [Hinted(NEWCOMER, W2)];
    var v3 := Launching(v2);
    AppendStep(worlds, steps, DispatchRound(1, {NEWCOMER}), v3);
    worlds, steps := worlds + [v3], steps + [DispatchRound(1, {NEWCOMER})];
    worlds, steps := AttemptAdmits(worlds, steps);
  }

  /** An idle connector with admission open, beside a live thread that it has not listed. */
  predicate Open(v: World) {
    && v.live == map[LISTED := 1] && v.rt.active == map[] && v.rt.unknown == {} && v.rt.channels == KINDS
    && v.rt.running == 0 && v.rt.initialized && !v.rt.discovering
  }

  lemma Reloading(v: World) returns (v': World)
    requires Open(v) && v.rt.cfg == BEFORE && v.rt.jobs == map[] && v.workers == map[]
    ensures Next(v, Reloads(AFTER), v') && Open(v') && v'.rt.cfg == AFTER && v'.rt.jobs == map[] && v'.workers == map[]
  {
    v' := v.(rt := Reload(v.rt, AFTER));
    assert AllAfresh(map[]) == map[];
    hide Retired;
  }

  lemma Hinting(v: World) returns (v': World)
    requires Open(v) && v.rt.cfg == AFTER && v.rt.jobs == map[] && v.workers == map[]
    ensures Next(v, Hinted(NEWCOMER, W2), v') && Open(v') && v'.rt.cfg == AFTER && v'.workers == map[]
    ensures exists order :: v'.rt.jobs == map[NEWCOMER := NewJob(W2, order)]
  {
    v' := v.(rt := Enqueue(v.rt, NEWCOMER, W2), owed := v.owed + {NEWCOMER});
    assert v'.rt.jobs == map[NEWCOMER := NewJob(W2, v.rt.sequence + 1)];
  }

  lemma Launching(v: World) returns (v': World)
    requires Open(v) && v.rt.cfg == AFTER && v.workers == map[]
    requires exists order :: v.rt.jobs == map[NEWCOMER := NewJob(W2, order)]
    ensures Next(v, DispatchRound(1, {NEWCOMER}), v') && v'.workers == map[NEWCOMER := Worker(W2, Started)]
    ensures v'.live == map[LISTED := 1] && v'.rt.active == map[] && v'.rt.unknown == {}
    ensures v'.rt.cfg == AFTER && v'.rt.initialized && !v'.rt.discovering
  {
    v' := v.(rt := Dispatched(v.rt, {NEWCOMER}), workers := map[NEWCOMER := Worker(W2, Started)],
        owed := v.owed - {NEWCOMER});
    assert v.rt.jobs.Keys == {NEWCOMER};
    assert FairChoice(v.rt, 1, {NEWCOMER});
    hide FairChoice;
  }

  lemma AttemptAdmits(before: seq<World>, taken: seq<Step>) returns (worlds: seq<World>, steps: seq<Step>)
    requires Run(before, taken)
    requires var v := before[|taken|];
             && v.workers == map[NEWCOMER := Worker(W2, Started)] && v.live == map[LISTED := 1]
             && v.rt.cfg == AFTER && v.rt.active == map[] && v.rt.unknown == {} && v.rt.initialized && !v.rt.discovering
    ensures Run(worlds, steps)
    ensures Total(worlds[|steps|].live, W2.id) > W2.maxRuns && W2 in worlds[|steps|].rt.cfg.workflows
  {
    assert |before| == |taken| + 1;
    hide Run, Next, Total;
    var v := before[|taken|];
    var v1 := v.(workers := Advance(v.workers, NEWCOMER, Snapped(0)));
    assert Next(v, TakesSnapshot(NEWCOMER), v1) by { Snapshotting(v); }
    AppendStep(before, taken, TakesSnapshot(NEWCOMER), v1);
    worlds, steps := before + [v1], taken + [TakesSnapshot(NEWCOMER)];
    var v2 := Observing(v1);
    AppendStep(worlds, steps, Observes(NEWCOMER), v2);
    worlds, steps := worlds + [v2], steps + [Observes(NEWCOMER)];
    var v3 := Reserving(v2);
    AppendStep(worlds, steps, Reserves(NEWCOMER), v3);
    worlds, steps := worlds + [v3], steps + [Reserves(NEWCOMER)];
    var v4 := Submitting(v3);
    AppendStep(worlds, steps, Submits(NEWCOMER, true), v4);
    worlds, steps := worlds + [v4], steps + [Submits(NEWCOMER, true)];
    TotalSet(map[LISTED := 1], NEWCOMER, 1, 2);
    TotalSet(map[], LISTED, 1, 2);
    assert map[][LISTED := 1] == map[LISTED := 1];
  }

  lemma Snapshotting(v: World)
    requires v.workers == map[NEWCOMER := Worker(W2, Started)] && v.live == map[LISTED := 1]
    ensures Next(v, TakesSnapshot(NEWCOMER), v.(workers := Advance(v.workers, NEWCOMER, Snapped(0))))
  {
  }

  /** The newcomer's worker, in a schedule that counts nothing. */
  predicate AtWork(v: World, phase: Phase) {
    && v.workers == map[NEWCOMER := Worker(W2, phase)] && v.live == map[LISTED := 1] && v.rt.cfg == AFTER
    && v.rt.unknown == {} && v.rt.initialized && !v.rt.discovering
  }

  lemma Observing(v: World) returns (v': World)
    requires AtWork(v, Snapped(0)) && v.rt.active == map[]
    ensures Next(v, Observes(NEWCOMER), v') && AtWork(v', Observed(0)) && v'.rt.active == map[]
  {
    v' := v.(rt := Observe(v.rt, NEWCOMER, 0), workers := Advance(v.workers, NEWCOMER, Observed(0)));
    hide Woken;
  }

  lemma Reserving(v: World) returns (v': World)
    requires AtWork(v, Observed(0)) && v.rt.active == map[]
    ensures Next(v, Reserves(NEWCOMER), v') && AtWork(v', Reserved)
  {
    assert OfWorkflow(v.rt.active, 2) == map[];
    assert !Blocked(v.rt, W2);
    v' := v.(rt := Reserve(v.rt, NEWCOMER, W2), workers := Advance(v.workers, NEWCOMER, Reserved),
        bounded := v.bounded + {2});
    hide Blocked;
  }

  lemma Submitting(v: World) returns (v': World)
    requires AtWork(v, Reserved)
    ensures Next(v, Submits(NEWCOMER, true), v') && v'.live == map[LISTED := 1][NEWCOMER := 1] && v'.rt.cfg == AFTER
  {
    v' := v.(workers := Advance(v.workers, NEWCOMER, Submitted), live := v.live[NEWCOMER := 1],
        sessions := v.sessions + {NEWCOMER});
  }

  // ---------------------------------------------------------------------
  // Live runs are watched
  // ---------------------------------------------------------------------

  /** Only a thread's own attempt can start a run of it, an attempt begins with a dispatch, and listed workflows stay
      listed. */
  lemma LiveFalls(v: World, step: Step, v': World, k: Key)
    requires Next(v, step, v') && (k !in v.workers || (step.Finishes? && step.k == k)) && !Dispatches(step, k)
    ensures ActiveOf(v'.live, k) <= ActiveOf(v.live, k) && v.covered <= v'.covered && k !in v'.workers
  {
    hide FairChoice, Blocked, Owner, Rescheduled, Retired, Enqueue, Discover, ScanChannels, ScanEnd, ScanOpen, Reload,
      Observe;
  }

  lemma {:induction false} LiveLasts(worlds: seq<World>, steps: seq<Step>, i: nat, j: nat, k: Key)
    requires Run(worlds, steps) && i <= j < |worlds| && k !in worlds[i].workers
    requires forall m :: i <= m < j ==> !Dispatches(steps[m], k)
    ensures k !in worlds[j].workers
    ensures ActiveOf(worlds[j].live, k) <= ActiveOf(worlds[i].live, k) && worlds[i].covered <= worlds[j].covered
  {
    hide Next;
    if i < j {
      LiveLasts(worlds, steps, i, j - 1, k);
      LiveFalls(worlds[j - 1], steps[j - 1], worlds[j], k);
    }
  }

  lemma IdleHasNoWorker(v: World, k: Key)
    requires Sound(v) && k in v.rt.jobs && !v.rt.jobs[k].working
    ensures k !in v.workers && (k in v.rt.unknown ==> v.rt.jobs[k].dirty)
  {
  }

  /** A thread of a listed workflow with a live run keeps its job at the end of an attempt. */
  lemma LiveIsKept(v: World, step: Step, v': World)
    requires Capacity(v) && Next(v, step, v') && step.Finishes? && step.k.workflow in v.covered
    requires ActiveOf(v.live, step.k) > 0
    ensures step.k in v'.rt.jobs
  {
    var k := step.k;
    hide Holds, OneConfig, Opened, Bounded, Phases, Wakeups, Scans, Crew;
    assert k in v.rt.unknown || Counted(v, k);
    assert k in v.rt.unknown && !v.rt.jobs[k].dirty ==> k in v.workers && BeforeObservation(v.workers[k].phase);
  }

  /** With one configuration and the workflow's sessions listed, a thread that still has a live run on the server is
      polled: after an attempt, the first round at or after its polling interval that may retry it and has a worker to
      spare takes it. */
  lemma LiveIsPolled(worlds: seq<World>, steps: seq<Step>, i: nat, j: nat, k: Key)
    requires EpochRun(worlds, steps) && i < j < |steps| && steps[i].Finishes? && steps[i].k == k
    requires k.workflow in worlds[i].covered && k in worlds[i].workers
    requires forall m :: i < m < j ==> !Dispatches(steps[m], k)
    requires ActiveOf(worlds[j].live, k) > 0
    requires steps[j].DispatchRound? && steps[j].now >= steps[i].now + worlds[i].workers[k].workflow.poll
    requires k in worlds[j].rt.jobs ==> worlds[j].rt.jobs[k].retryAt <= steps[j].now
    requires worlds[j].rt.running + |steps[j].chosen| < worlds[j].rt.cfg.maxParallel
    ensures k in steps[j].chosen
  {
    hide Next, FairChoice, Capacity;
    FinishedJob(worlds[i], steps[i], worlds[i + 1]);
    CapacityRun(worlds, steps, i);
    CapacityRun(worlds, steps, j);
    LiveStarts(worlds, steps, i, j, k);
    PollingLasts(worlds, steps, i + 1, j, k);
    RoundIsFair(worlds[j], steps[j], worlds[j + 1]);
    LiveIsCounted(worlds[j], k);
    DueExactly(worlds[j].rt, steps[j].now, steps[j].chosen, k);
  }

  /** The run was live when the attempt ended, so the job was kept. */
  lemma LiveStarts(worlds: seq<World>, steps: seq<Step>, i: nat, j: nat, k: Key)
    requires EpochRun(worlds, steps) && i < j < |steps| && steps[i].Finishes? && steps[i].k == k
    requires k.workflow in worlds[i].covered && Capacity(worlds[i])
    requires forall m :: i < m < j ==> !Dispatches(steps[m], k)
    requires ActiveOf(worlds[j].live, k) > 0
    ensures k in worlds[i + 1].rt.jobs && k.workflow in worlds[j].covered
  {
    hide Next, Capacity;
    LiveFalls(worlds[i], steps[i], worlds[i + 1], k);
    LiveLasts(worlds, steps, i + 1, j, k);
    LiveIsKept(worlds[i], steps[i], worlds[i + 1]);
  }

  lemma LiveIsCounted(v: World, k: Key)
    requires Capacity(v) && k.workflow in v.covered && ActiveOf(v.live, k) > 0
    requires k in v.rt.jobs && !v.rt.jobs[k].working
    ensures v.rt.jobs[k].dirty || ActiveOf(v.rt.active, k) > 0
  {
    IdleHasNoWorker(v, k);
    hide Sound, Holds, OneConfig, Opened, Bounded;
    assert k in v.rt.unknown || Counted(v, k);
  }
}
