/**
  The thread scheduler and run-capacity allocator of `internal/service/runtime.go`.

  `State` is the value of the fields guarded by the runtime mutex. Every critical
  section is a function (or, for dispatch, a relation) on `State`; the class
  `Runtime` performs the same critical sections on its fields, step by step, and
  each of its methods is proved against the function.
 */
module Scheduler {
  import opened Collections

  // Identifiers are numbers; 0 is the empty string of the source.
  datatype Key = Key(workflow: nat, channel: nat, root: nat)
  datatype Workflow = Workflow(id: nat, maxRuns: nat, poll: nat)
  // `routes` is `Config.Route` as a table from a channel to its only owner.
  // `process` stands for the settings that only a restart can change.
  datatype Config = Config(workflows: seq<Workflow>, routes: map<nat, Workflow>, maxParallel: nat, process: nat)

  datatype Job = Job(
    workflow: Workflow,
    working: bool,
    dirty: bool,
    capacityWait: bool,
    cancelled: bool, // the running attempt's context has been cancelled
    order: nat,
    next: int,
    retryAt: int,
    failures: nat,
    permanent: bool)

  const MAX_QUEUED_THREADS := 4096
  const SCAN_INTERVAL: nat := 30000 // milliseconds
  const SCAN_RETRY: nat := 3000

  datatype State = State(
    cfg: Config,
    jobs: map<Key, Job>,
    active: map<Key, nat>,
    unknown: set<Key>,
    discovered: map<nat, int>,
    channels: map<nat, nat>, // the kind of each
    running: nat,
    sequence: nat,
    epoch: nat,
    scanning: bool,
    discovering: bool,
    initialized: bool,
    scanAt: int,
    retired: map<nat, Workflow>) // workflows of earlier configurations, by identity

  datatype Outcome = Succeeded | Failed(permanent: bool)

  function ActiveOf(active: map<Key, nat>, k: Key): nat {
    if k in active then active[k] else 0
  }

  /** The runs counted for a workflow, over all its threads. */
  ghost function Total(active: map<Key, nat>, workflow: nat): nat {
    Sum(OfWorkflow(active, workflow))
  }

  ghost function OfWorkflow(active: map<Key, nat>, workflow: nat): map<Key, nat> {
    map k | k in active && k.workflow == workflow :: active[k]
  }

  lemma TotalRemove(active: map<Key, nat>, k: Key, workflow: nat)
    requires k in active
    ensures Total(active, workflow) == Total(active - {k}, workflow) + if k.workflow == workflow then active[k] else 0
  {
    var part := OfWorkflow(active, workflow);
    if k.workflow == workflow {
      SumRemove(part, k);
      assert part - {k} == OfWorkflow(active - {k}, workflow);
    } else {
      assert part == OfWorkflow(active - {k}, workflow);
    }
  }

  function Owner(cfg: Config, channels: map<nat, nat>, k: Key): Option<Workflow> {
    if k.channel in channels && k.channel in cfg.routes && cfg.routes[k.channel].id == k.workflow
    then Some(cfg.routes[k.channel]) else None
  }

  // ---------------------------------------------------------------------
  // Critical sections
  // ---------------------------------------------------------------------

  function NewJob(w: Workflow, order: nat): Job {
    Job(w, false, true, false, false, order, 0, 0, 0, false)
  }

  /** A present thread is marked; a new one is queued while the queue has room. */
  function EnqueuedJobs(jobs: map<Key, Job>, sequence: nat, k: Key, w: Workflow): map<Key, Job> {
    if k in jobs then jobs[k := jobs[k].(dirty := true)]
    else if |jobs| < MAX_QUEUED_THREADS then jobs[k := NewJob(w, sequence + 1)]
    else jobs
  }

  function Enqueue(s: State, k: Key, w: Workflow): State {
    s.(jobs := EnqueuedJobs(s.jobs, s.sequence, k, w),
       sequence := if k !in s.jobs && |s.jobs| < MAX_QUEUED_THREADS then s.sequence + 1 else s.sequence,
       scanAt := if k !in s.jobs && |s.jobs| >= MAX_QUEUED_THREADS then 0 else s.scanAt)
  }

  /** Capacity may have been freed: every job that waits for it must run again. */
  function Woken(jobs: map<Key, Job>): map<Key, Job> {
    map k | k in jobs :: if jobs[k].capacityWait then jobs[k].(dirty := true) else jobs[k]
  }

  predicate Eligible(s: State, k: Key, now: int) {
    k in s.jobs
    && !s.jobs[k].working
    && now >= s.jobs[k].retryAt
    && (s.jobs[k].dirty || ((!s.jobs[k].permanent || ActiveOf(s.active, k) > 0) && now >= s.jobs[k].next))
  }

  function Launched(j: Job, owner: Option<Workflow>): Job {
    var j' := j.(working := true, dirty := false, capacityWait := false, cancelled := false);
    match owner
    case Some(w) => j'.(workflow := w)
    case None => j'
  }

  function LaunchedJobs(jobs: map<Key, Job>, cfg: Config, channels: map<nat, nat>, chosen: set<Key>): map<Key, Job> {
    map k | k in jobs :: if k in chosen then Launched(jobs[k], Owner(cfg, channels, k)) else jobs[k]
  }

  /** The state once exactly the threads in `chosen` have been handed to workers. */
  function Dispatched(s: State, chosen: set<Key>): State {
    s.(jobs := LaunchedJobs(s.jobs, s.cfg, s.channels, chosen), running := s.running + |chosen|)
  }

  /**
    Which threads one dispatch round may take: eligible ones only, oldest order
    first, and as many as there are free workers.
   */
  ghost predicate FairChoice(s: State, now: int, chosen: set<Key>) {
    && (forall k :: k in chosen ==> Eligible(s, k, now))
    && (forall k, other :: k in chosen && other !in chosen && Eligible(s, other, now) ==>
          s.jobs[k].order < s.jobs[other].order)
    && ((forall k :: Eligible(s, k, now) ==> k in chosen) || s.running + |chosen| >= s.cfg.maxParallel)
    && (chosen != {} ==> s.running + |chosen| <= s.cfg.maxParallel)
  }

  ghost predicate Blocked(s: State, w: Workflow) {
    || !s.initialized
    || s.discovering
    || (exists k :: k in s.unknown && k.workflow == w.id)
    || Total(s.active, w.id) >= w.maxRuns
  }

  ghost function Reserve(s: State, k: Key, w: Workflow): State {
    s.(active := if Blocked(s, w) then s.active else s.active[k := 1],
       jobs := if Blocked(s, w) && k in s.jobs then s.jobs[k := s.jobs[k].(capacityWait := true)] else s.jobs)
  }

  /** A complete snapshot of thread `k` shows `n` non-terminal runs. */
  function Observe(s: State, k: Key, n: nat): State {
    var unknown := s.unknown - {k};
    var wake := ActiveOf(s.active, k) > n || (k in s.unknown && unknown == {});
    s.(unknown := unknown,
       active := if n == 0 then s.active - {k} else s.active[k := n],
       jobs := if wake then Woken(s.jobs) else s.jobs)
  }

  /** The job after a worker's attempt. */
  function Rescheduled(j: Job, order: nat, poll: nat, outcome: Outcome, now: int, delay: nat): Job {
    var failed := outcome.Failed? && !j.cancelled;
    j.(working := false, cancelled := false, order := order, next := now + poll,
       dirty := j.dirty || failed,
       permanent := j.permanent || (failed && outcome.permanent),
       failures := if failed then j.failures + 1 else if outcome.Succeeded? then 0 else j.failures,
       retryAt := if failed then now + delay else if outcome.Succeeded? then 0 else j.retryAt)
  }

  /** A thread is forgotten once an attempt succeeded and left nothing to do or to watch. */
  predicate Settled(s: State, k: Key, outcome: Outcome, held: bool)
    requires k in s.jobs
  {
    outcome.Succeeded? && !s.jobs[k].permanent && !s.jobs[k].dirty && !held && ActiveOf(s.active, k) == 0
  }

  /** The end of a worker's attempt; `held` says that the engine still queues or freezes input. */
  function Finish(s: State, k: Key, poll: nat, outcome: Outcome, now: int, delay: nat, held: bool): State
    requires k in s.jobs && s.running > 0
  {
    s.(running := s.running - 1,
       sequence := s.sequence + 1,
       jobs := if Settled(s, k, outcome, held) then s.jobs - {k}
               else s.jobs[k := Rescheduled(s.jobs[k], s.sequence + 1, poll, outcome, now, delay)])
  }

  /** One attempt of the discovery goroutine to register a thread. */
  function Discover(s: State, epoch: nat, k: Key, w: Workflow, unknown: bool): State {
    if epoch != s.epoch then s
    else
      var s' := Enqueue(s, k, w);
      s'.(unknown := if k in s'.jobs && unknown then s.unknown + {k} else s.unknown)
  }

  function ScanBegin(s: State): State {
    s.(scanning := true, discovering := true)
  }

  /** The channel came, went or changed its kind. */
  predicate ChannelChanged(before: map<nat, nat>, after: map<nat, nat>, channel: nat) {
    (channel in before) != (channel in after) ||
        (channel in before && channel in after && before[channel] != after[channel])
  }

  /** A new channel list: threads whose channel changed must be reconsidered. */
  function ScanChannels(s: State, channels: map<nat, nat>): State {
    s.(channels := channels,
       jobs := map k | k in s.jobs ::
         if ChannelChanged(s.channels, channels, k.channel)
         then s.jobs[k].(dirty := true, cancelled := s.jobs[k].cancelled || s.jobs[k].working)
         else s.jobs[k])
  }

  function ScanListed(s: State, epoch: nat, workflow: nat, now: int): State {
    if epoch == s.epoch then s.(discovered := s.discovered[workflow := now]) else s
  }

  function ScanOpen(s: State): State {
    s.(discovering := false, initialized := true, jobs := Woken(s.jobs))
  }

  function ScanEnd(s: State, epoch: nat, success: bool, at: int): State {
    s.(scanning := false, discovering := false,
       initialized := if epoch == s.epoch then success else s.initialized,
       scanAt := if epoch == s.epoch then at else s.scanAt,
       jobs := if epoch == s.epoch then Woken(s.jobs) else s.jobs)
  }

  /** The workflows of the old configuration retire, those of the new one are in service. */
  function Retired(retired: map<nat, Workflow>, before: seq<Workflow>, after: seq<Workflow>): map<nat, Workflow> {
    Without(With(retired, before), after)
  }

  function With(retired: map<nat, Workflow>, workflows: seq<Workflow>): map<nat, Workflow> {
    if workflows == [] then retired
    else With(retired, workflows[..|workflows| - 1])[workflows[|workflows| - 1].id := workflows[|workflows| - 1]]
  }

  function Without(retired: map<nat, Workflow>, workflows: seq<Workflow>): map<nat, Workflow> {
    if workflows == [] then retired
    else Without(retired, workflows[..|workflows| - 1]) - {workflows[|workflows| - 1].id}
  }

  /** A retired workflow is one of an earlier configuration, and none of the current one. */
  lemma {:induction false} WithoutCurrent(retired: map<nat, Workflow>, workflows: seq<Workflow>)
    ensures var left := Without(retired, workflows);
            && (forall id :: id in left <==> id in retired && forall w :: w in workflows ==> w.id != id)
            && forall id :: id in left ==> left[id] == retired[id]
  {
    if workflows != [] {
      WithoutCurrent(retired, workflows[..|workflows| - 1]);
      assert workflows == workflows[..|workflows| - 1] + [workflows[|workflows| - 1]];
    }
  }

  lemma {:induction false} WithAll(retired: map<nat, Workflow>, workflows: seq<Workflow>)
    ensures var left := With(retired, workflows);
            && (forall id :: id in left <==> id in retired || exists w :: w in workflows && w.id == id)
            && forall id :: id in left ==> left[id] in workflows || (id in retired && left[id] == retired[id])
  {
    if workflows != [] {
      var front, last := workflows[..|workflows| - 1], workflows[|workflows| - 1];
      assert workflows == front + [last];
      WithAll(retired, front);
    }
  }

  /** The retired workflows after a reload are those of before and those that were in service, but for the ones that are
      in service now. */
  lemma RetiredExactly(retired: map<nat, Workflow>, before: seq<Workflow>, after: seq<Workflow>)
    ensures var left := Retired(retired, before, after);
            forall id :: id in left <==>
              && (id in retired || exists w :: w in before && w.id == id)
              && forall w :: w in after ==> w.id != id
  {
    WithAll(retired, before);
    WithoutCurrent(With(retired, before), after);
  }

  function Reload(s: State, cfg: Config): State {
    s.(cfg := cfg, retired := Retired(s.retired, s.cfg.workflows, cfg.workflows), epoch := s.epoch + 1, scanAt := 0,
        discovered := map[],
       jobs := AllAfresh(s.jobs))
  }

  lemma Reloaded(s: State, cfg: Config)
    ensures Reload(s, cfg) ==
            s.(cfg := cfg, retired := Retired(s.retired, s.cfg.workflows, cfg.workflows), epoch := s.epoch + 1,
               scanAt := 0, discovered := map[], jobs := AllAfresh(s.jobs))
  {
  }

  function AllAfresh(jobs: map<Key, Job>): map<Key, Job> {
    map k | k in jobs :: Afresh(jobs[k])
  }

  function Afresh(j: Job): Job {
    j.(retryAt := 0, failures := 0, permanent := false, dirty := true, cancelled := j.cancelled || j.working)
  }

  // ---------------------------------------------------------------------
  // The runtime object
  // ---------------------------------------------------------------------

  class Runtime {
    var cfg: Config
    var jobs: map<Key, Job>
    var active: map<Key, nat>
    var unknown: set<Key>
    var discovered: map<nat, int>
    var channels: map<nat, nat>
    var running: nat
    var sequence: nat
    var epoch: nat
    var scanning: bool
    var discovering: bool
    var initialized: bool
    var scanAt: int
    var retired: map<nat, Workflow>

    ghost function Abs(): State
      reads this
    {
      State(cfg, jobs, active, unknown, discovered, channels, running, sequence, epoch,
            scanning, discovering, initialized, scanAt, retired)
    }

    constructor (cfg: Config)
      ensures Abs() == State(cfg, map[], map[], {}, map[], map[], 0, 0, 0, false, false, false, 0, map[])
    {
      this.cfg := cfg;
      jobs, active, unknown, discovered, channels := map[], map[], {}, map[], map[];
      running, sequence, epoch := 0, 0, 0;
      scanning, discovering, initialized := false, false, false;
      scanAt, retired := 0, map[];
    }

    method EnqueueThread(k: Key, w: Workflow) returns (ok: bool)
      modifies this
      ensures Abs() == Enqueue(old(Abs()), k, w)
      ensures ok <==> k in old(jobs) || |old(jobs)| < 4096
      ensures k in old(jobs) ==> jobs == old(jobs)[k := old(jobs)[k].(dirty := true)]
      ensures ok && k !in old(jobs) ==>
                && sequence > old(sequence)
                && jobs == old(jobs)[k := Job(w, false, true, false, false, sequence, 0, 0, 0, false)]
      ensures if ok then scanAt == old(scanAt) else jobs == old(jobs) && scanAt == 0
      ensures ok == (k in jobs)
    {
      if k in jobs {
        jobs := jobs[k := jobs[k].(dirty := true)];
        return true;
      }
      if |jobs| >= MAX_QUEUED_THREADS {
        scanAt := 0;
        return false;
      }
      sequence := sequence + 1;
      jobs := jobs[k := NewJob(w, sequence)];
      return true;
    }

    /** A hint marks a present job, and otherwise queues the thread of a configured workflow. */
    method Hint(k: Key)
      modifies this
      ensures k in old(jobs) || (exists w :: w in cfg.workflows && w.id == k.workflow) ==>
                exists w :: Abs() == Enqueue(old(Abs()), k, w) &&
                    (k !in old(jobs) ==> w in cfg.workflows && w.id == k.workflow)
      ensures k !in old(jobs) && (forall w :: w in cfg.workflows ==> w.id != k.workflow) ==> Abs() == old(Abs())
    {
      if k in jobs {
        var old_ := jobs[k];
        jobs := jobs[k := old_.(dirty := true)];
        assert Abs() == Enqueue(old(Abs()), k, old_.workflow);
        return;
      }
      var i := 0;
      while i < |cfg.workflows|
        invariant 0 <= i <= |cfg.workflows|
        invariant forall j :: 0 <= j < i ==> cfg.workflows[j].id != k.workflow
        invariant Abs() == old(Abs())
      {
        if cfg.workflows[i].id == k.workflow {
          var w := cfg.workflows[i];
          var _ := EnqueueThread(k, w);
          return;
        }
        i := i + 1;
      }
    }

    method WakeCapacity()
      modifies this`jobs
      ensures jobs == Woken(old(jobs))
      ensures jobs.Keys == old(jobs).Keys && forall k :: k in jobs ==>
                jobs[k] == old(jobs)[k].(dirty := old(jobs)[k].dirty || old(jobs)[k].capacityWait)
    {
      var rest := jobs.Keys;
      while rest != {}
        invariant rest <= jobs.Keys == old(jobs).Keys
        invariant forall k :: k in jobs ==>
                    jobs[k] == if k !in rest &&
                        old(jobs)[k].capacityWait then old(jobs)[k].(dirty := true) else old(jobs)[k]
        decreases rest
      {
        var k :| k in rest;
        if jobs[k].capacityWait {
          jobs := jobs[k := jobs[k].(dirty := true)];
        }
        rest := rest - {k};
      }
    }

    /** The capacity in use by a workflow. */
    method CountRuns(workflow: nat) returns (count: nat)
      ensures count == Total(active, workflow)
    {
      count := 0;
      var rest := active;
      while rest != map[]
        invariant forall a :: a in rest ==> a in active && rest[a] == active[a]
        invariant count + Total(rest, workflow) == Total(active, workflow)
        decreases rest.Keys
      {
        var a :| a in rest;
        TotalRemove(rest, a, workflow);
        if a.workflow == workflow {
          count := count + active[a];
        }
        rest := rest - {a};
      }
      assert OfWorkflow(rest, workflow) == map[];
    }

    method AnyUnknown(workflow: nat) returns (found: bool)
      ensures found <==> exists u :: u in unknown && u.workflow == workflow
    {
      found := false;
      var rest := unknown;
      while rest != {}
        invariant rest <= unknown
        invariant found <==> exists u :: u in unknown && u !in rest && u.workflow == workflow
        decreases rest
      {
        var u :| u in rest;
        if u.workflow == workflow {
          found := true;
        }
        rest := rest - {u};
      }
    }

    method ReserveRun(k: Key, w: Workflow) returns (ok: bool)
      modifies this
      ensures ok == !Blocked(old(Abs()), w)
      ensures ok <==>
              && initialized && !discovering && Total(old(active), w.id) < w.maxRuns
              && forall u :: u in unknown ==> u.workflow != w.id
      ensures Abs() == Reserve(old(Abs()), k, w)
      ensures ok ==> active == old(active)[k := 1] && jobs == old(jobs)
      ensures !ok ==> active == old(active) && (k in old(jobs) ==> jobs[k] == old(jobs)[k].(capacityWait := true))
    {
      var blocked := !initialized || discovering;
      var count := CountRuns(w.id);
      var uncertain := AnyUnknown(w.id);
      if blocked || uncertain || count >= w.maxRuns {
        if k in jobs {
          jobs := jobs[k := jobs[k].(capacityWait := true)];
        }
        return false;
      }
      active := active[k := 1]; // held even when the admission response is lost
      return true;
    }

    /** `terminal` tells of each run of the thread's sessions whether it is terminal. */
    method ObserveSnapshot(k: Key, terminal: seq<bool>)
      modifies this
      ensures Abs() == Observe(old(Abs()), k, multiset(terminal)[false])
      ensures unknown == old(unknown) - {k} && active - {k} == old(active) - {k}
      ensures (k in active <==> false in terminal) && (k in active ==> active[k] == multiset(terminal)[false])
      ensures var fewer := k in old(active) && old(active)[k] > multiset(terminal)[false];
              && ((fewer || (k in old(unknown) && unknown == {})) ==>
                    forall a :: a in old(jobs) && old(jobs)[a].capacityWait ==> a in jobs && jobs[a].dirty)
              && (!fewer && (k !in old(unknown) || unknown != {}) ==> jobs == old(jobs))
    {
      var wasUnknown := k in unknown;
      unknown := unknown - {k};
      var previous := ActiveOf(active, k);
      active := active - {k};
      CountLive(k, terminal);
      if previous > ActiveOf(active, k) || (wasUnknown && unknown == {}) {
        WakeCapacity();
      }
    }

    /** Its loop over the runs of the snapshot. */
    method CountLive(k: Key, terminal: seq<bool>)
      requires k !in active
      modifies this`active
      ensures active == if multiset(terminal)[false] == 0 then old(active)
                else old(active)[k := multiset(terminal)[false]]
    {
      var i := 0;
      while i < |terminal|
        invariant 0 <= i <= |terminal|
        invariant active == if multiset(terminal[..i])[false] == 0 then old(active)
                            else old(active)[k := multiset(terminal[..i])[false]]
      {
        assert terminal[..i + 1] == terminal[..i] + [terminal[i]];
        if !terminal[i] {
          active := active[k := ActiveOf(active, k) + 1];
        }
        i := i + 1;
      }
      assert terminal[..i] == terminal;
    }

    method FinishWork(k: Key, poll: nat, outcome: Outcome, now: int, delay: nat, held: bool)
      requires k in jobs && running > 0
      modifies this
      ensures Abs() == Finish(old(Abs()), k, poll, outcome, now, delay, held)
    {
      var j := jobs[k];
      var cancelled := j.cancelled;
      j := j.(working := false, cancelled := false);
      running := running - 1;
      sequence := sequence + 1;
      j := j.(order := sequence, next := now + poll);
      if outcome.Failed? && !cancelled {
        j := j.(failures := j.failures + 1, permanent := j.permanent || outcome.permanent, retryAt := now + delay,
            dirty := true);
      } else if outcome.Succeeded? {
        j := j.(failures := 0, retryAt := 0);
        if !j.permanent && !j.dirty && !held && ActiveOf(active, k) == 0 {
          jobs := jobs - {k};
          return;
        }
      }
      jobs := jobs[k := j];
    }

    method DiscoverThread(scanEpoch: nat, k: Key, w: Workflow, mark: bool) returns (ok: bool)
      modifies this
      ensures Abs() == Discover(old(Abs()), scanEpoch, k, w, mark)
      ensures ok == (scanEpoch == old(epoch) && k in jobs)
      ensures ok && mark ==> k in unknown
      ensures unknown == old(unknown) || (ok && mark && unknown == old(unknown) + {k})
      ensures scanEpoch != old(epoch) ==> Abs() == old(Abs())
      ensures scanEpoch == old(epoch) && !ok ==> scanAt == 0
    {
      if scanEpoch != epoch {
        return false;
      }
      ok := EnqueueThread(k, w);
      if ok && mark {
        unknown := unknown + {k};
      }
    }

    method BeginScan(now: int) returns (started: bool)
      modifies this
      ensures started == (!old(scanning) && now >= old(scanAt))
      ensures Abs() == if started then ScanBegin(old(Abs())) else old(Abs())
    {
      if !scanning && now >= scanAt {
        scanning := true;
        discovering := true;
        return true;
      }
      return false;
    }

    method SwapChannels(scanEpoch: nat, current: map<nat, nat>) returns (ok: bool)
      modifies this
      ensures ok == (scanEpoch == epoch)
      ensures Abs() == if ok then ScanChannels(old(Abs()), current) else old(Abs())
      ensures ok ==> jobs.Keys == old(jobs).Keys && forall k :: k in jobs ==>
                var changed := if k.channel in old(channels) then
                                 k.channel !in current || current[k.channel] != old(channels)[k.channel]
                               else k.channel in current;
                && jobs[k] == old(jobs)[k].(dirty := jobs[k].dirty, cancelled := jobs[k].cancelled)
                && jobs[k].dirty == (old(jobs)[k].dirty || changed)
                && jobs[k].cancelled == (old(jobs)[k].cancelled || (changed && old(jobs)[k].working))
    {
      if scanEpoch != epoch {
        return false;
      }
      ghost var target := ScanChannels(old(Abs()), current).jobs;
      var rest := jobs.Keys;
      while rest != {}
        modifies this`jobs
        invariant rest <= jobs.Keys == old(jobs).Keys
        invariant forall k :: k in jobs ==>
                    jobs[k] == if k in rest then old(jobs)[k] else target[k]
        decreases rest
      {
        var k :| k in rest;
        if ChannelChanged(channels, current, k.channel) {
          jobs := jobs[k := jobs[k].(dirty := true, cancelled := jobs[k].cancelled || jobs[k].working)];
        }
        rest := rest - {k};
      }
      channels := current;
      assert jobs == target;
      return true;
    }

    method OpenAdmission(scanEpoch: nat) returns (ok: bool)
      modifies this
      ensures ok == (scanEpoch == epoch)
      ensures Abs() == if ok then ScanOpen(old(Abs())) else old(Abs())
      ensures ok ==> initialized && !discovering && forall k :: k in old(jobs) && old(jobs)[k].capacityWait ==>
                k in jobs && jobs[k].dirty
    {
      if scanEpoch != epoch {
        return false;
      }
      discovering := false;
      initialized := true;
      WakeCapacity();
      return true;
    }

    /** The deferred end of scan; the next one is due after the shortest polling interval, or soon after a failure. */
    method EndScan(scanEpoch: nat, scanned: Config, success: bool, now: int) returns (interval: nat)
      modifies this
      ensures Abs() == ScanEnd(old(Abs()), scanEpoch, success, now + interval)
      ensures !scanning && !discovering
      ensures scanEpoch == epoch ==>
                && initialized == success && scanAt == now + interval
                && forall k :: k in old(jobs) && old(jobs)[k].capacityWait ==> k in jobs && jobs[k].dirty
      ensures scanEpoch != epoch ==> initialized == old(initialized) && scanAt == old(scanAt) && jobs == old(jobs)
      ensures interval <= 30000 && (!success ==> interval == 3000)
      ensures success ==> forall w :: w in scanned.workflows ==> interval <= w.poll
      ensures success && interval < 30000 ==> exists w :: w in scanned.workflows && w.poll == interval
    {
      interval := SCAN_INTERVAL;
      for i := 0 to |scanned.workflows|
        invariant interval <= SCAN_INTERVAL && forall j :: 0 <= j < i ==> interval <= scanned.workflows[j].poll
        invariant interval < SCAN_INTERVAL ==> exists w :: w in scanned.workflows && w.poll == interval
      {
        if scanned.workflows[i].poll < interval {
          interval := scanned.workflows[i].poll;
          assert scanned.workflows[i] in scanned.workflows;
        }
      }
      if !success {
        interval := SCAN_RETRY;
      }
      scanning := false;
      discovering := false;
      if scanEpoch == epoch {
        initialized := success;
        scanAt := now + interval;
        WakeCapacity();
      }
    }

    method Retire(workflows: seq<Workflow>)
      modifies this`retired
      ensures retired == With(old(retired), workflows)
    {
      for i := 0 to |workflows|
        invariant retired == With(old(retired), workflows[..i])
      {
        assert workflows[..i + 1][..i] == workflows[..i];
        retired := retired[workflows[i].id := workflows[i]];
      }
      assert workflows[..|workflows|] == workflows;
    }

    method Restore(workflows: seq<Workflow>)
      modifies this`retired
      ensures retired == Without(old(retired), workflows)
    {
      for i := 0 to |workflows|
        invariant retired == Without(old(retired), workflows[..i])
      {
        assert workflows[..i + 1][..i] == workflows[..i];
        retired := retired - {workflows[i].id};
      }
      assert workflows[..|workflows|] == workflows;
    }

    method Replace(before: seq<Workflow>, after: seq<Workflow>)
      modifies this`retired
      ensures retired == Retired(old(retired), before, after)
    {
      Retire(before);
      Restore(after);
    }

    /** A configuration that only a restart could apply is refused. */
    method ReloadConfig(next: Config) returns (ok: bool)
      modifies this
      ensures ok <==> next.process == old(cfg).process
      ensures Abs() == if ok then Reload(old(Abs()), next) else old(Abs())
      ensures ok ==> cfg == next && epoch > old(epoch) && scanAt == 0 && discovered == map[]
    {
      if next.process != cfg.process {
        return false;
      }
      ghost var s := Abs();
      Reloaded(s, next);
      hide Retired, AllAfresh, Reload, StartedOver;
      Replace(cfg.workflows, next.workflows);
      Reset();
      Renew(next);
      ok := true;
    }

    /** The new configuration, with discovery to be done again. */
    method Renew(next: Config)
      modifies this`cfg, this`epoch, this`scanAt, this`discovered
      ensures Abs() == old(Abs()).(cfg := next, epoch := old(epoch) + 1, scanAt := 0, discovered := map[])
    {
      cfg, epoch, scanAt, discovered := next, epoch + 1, 0, map[];
    }

    /** Every job starts over, and attempts at work are cancelled. */
    method Reset()
      modifies this`jobs
      ensures jobs == AllAfresh(old(jobs))
      ensures StartedOver(old(jobs), jobs)
    {
      var rest := jobs.Keys;
      while rest != {}
        invariant rest <= jobs.Keys == old(jobs).Keys
        invariant forall k :: k in jobs ==> jobs[k] == if k in rest then old(jobs)[k] else Afresh(old(jobs)[k])
        decreases rest
      {
        var k :| k in rest;
        jobs := jobs[k := Afresh(jobs[k])];
        rest := rest - {k};
      }
    }

    /** Insertion into a sequence of threads that is sorted by job order. */
    method InsertByOrder(keys: seq<Key>, k: Key) returns (sorted: seq<Key>)
      requires k in jobs && k !in keys
      requires forall a :: a in keys ==> a in jobs
      requires forall i, j :: 0 <= i < j < |keys| ==> jobs[keys[i]].order <= jobs[keys[j]].order
      requires forall i, j :: 0 <= i < j < |keys| ==> keys[i] != keys[j]
      ensures forall a :: a in sorted <==> a == k || a in keys
      ensures forall i, j :: 0 <= i < j < |sorted| ==> jobs[sorted[i]].order <= jobs[sorted[j]].order
      ensures forall i, j :: 0 <= i < j < |sorted| ==> sorted[i] != sorted[j]
    {
      var i := 0;
      while i < |keys| && jobs[keys[i]].order < jobs[k].order
        invariant 0 <= i <= |keys|
        invariant forall j :: 0 <= j < i ==> jobs[keys[j]].order < jobs[k].order
      {
        i := i + 1;
      }
      sorted := keys[..i] + [k] + keys[i..];
      assert forall a :: a in keys <==> a in keys[..i] || a in keys[i..];
    }

    /** The eligible threads, oldest order first. */
    method EligibleKeys(now: int) returns (keys: seq<Key>)
      ensures Queue(jobs, keys)
      ensures AllEligible(Abs(), now, keys)
    {
      keys := [];
      var rest := jobs.Keys;
      while rest != {}
        invariant rest <= jobs.Keys
        invariant forall k :: k in keys ==> k in jobs
        invariant forall k :: k in keys <==> k !in rest && Eligible(Abs(), k, now)
        invariant forall i, j :: 0 <= i < j < |keys| ==> jobs[keys[i]].order <= jobs[keys[j]].order
        invariant forall i, j :: 0 <= i < j < |keys| ==> keys[i] != keys[j]
        decreases rest
      {
        var k :| k in rest;
        rest := rest - {k};
        var j := jobs[k];
        var poll := !j.permanent || ActiveOf(active, k) > 0;
        if !j.working && now >= j.retryAt && (j.dirty || (poll && now >= j.next)) {
          keys := InsertByOrder(keys, k);
        }
      }
    }

    /** Hands one thread to a worker. */
    method Launch(k: Key)
      requires k in jobs
      modifies this`jobs, this`running
      ensures jobs == old(jobs)[k := Launched(old(jobs)[k], Owner(cfg, channels, k))]
      ensures running == old(running) + 1
    {
      var j := jobs[k].(working := true, dirty := false, capacityWait := false, cancelled := false);
      running := running + 1;
      if k.channel in channels && k.channel in cfg.routes && cfg.routes[k.channel].id == k.workflow {
        j := j.(workflow := cfg.routes[k.channel]);
      }
      jobs := jobs[k := j];
    }

    /** Hands threads to workers, in the given order, while workers are free. */
    method LaunchPrefix(keys: seq<Key>) returns (n: nat)
      requires |Elements(keys)| == |keys|
      requires forall k :: k in keys ==> k in jobs
      modifies this`jobs, this`running
      ensures n <= |keys|
      ensures jobs == LaunchedJobs(old(jobs), cfg, channels, Elements(keys[..n]))
      ensures running == old(running) + n
      ensures n == |keys| || running >= cfg.maxParallel
      ensures n > 0 ==> running <= cfg.maxParallel
    {
      n := 0;
      LaunchedNone(jobs, cfg, channels, keys);
      while n < |keys| && running < cfg.maxParallel
        modifies this`jobs, this`running
        invariant n <= |keys|
        invariant running == old(running) + n
        invariant jobs == LaunchedJobs(old(jobs), cfg, channels, Elements(keys[..n]))
        invariant n > 0 ==> running <= cfg.maxParallel
      {
        LaunchedAnother(old(jobs), cfg, channels, keys, n);
        Launch(keys[n]);
        n := n + 1;
      }
    }

    /** One dispatch round of the main loop. It takes idle threads whose retry time has come and that are marked, or
        past their polling time and still watched, and while workers are free it takes all of them. */
    method Dispatch(now: int) returns (chosen: seq<Key>)
      requires DistinctOrders(jobs)
      modifies this
      ensures FairChoice(old(Abs()), now, Elements(chosen))
      ensures Abs() == Dispatched(old(Abs()), Elements(chosen))
      ensures Ascending(old(jobs), chosen)
      ensures OnlyDue(old(Abs()), now, chosen) && AllDue(old(Abs()), now, chosen)
      ensures Handed(old(Abs()), Abs(), chosen)
    {
      ghost var s := Abs();
      hide FairChoice, LaunchedJobs, DistinctOrders, Queue, Ascending, AllEligible, OnlyDue, AllDue, Handed, Dispatched;
      var keys := EligibleKeys(now);
      QueueMeans(jobs, keys);
      var n := LaunchPrefix(keys);
      RoundMeans(s, now, keys, n);
      chosen := keys[..n];
      assert Abs() == s.(jobs := LaunchedJobs(s.jobs, s.cfg, s.channels, Elements(chosen)), running := s.running + n);
    }
  }

  /** Every job may be attempted at once, with its failures forgotten, and the attempts at work are cancelled. */
  ghost predicate StartedOver(before: map<Key, Job>, after: map<Key, Job>) {
    && after.Keys == before.Keys
    && forall k :: k in before ==>
         && after[k].retryAt == 0 && after[k].failures == 0 && !after[k].permanent && after[k].dirty
         && after[k].cancelled == (before[k].cancelled || before[k].working)
         && after[k].working == before[k].working && after[k].order == before[k].order
         && after[k].workflow == before[k].workflow && after[k].capacityWait == before[k].capacityWait
  }

  /** Every chosen thread is idle, its retry time has come, and it is marked, or past its polling time and still
      watched. */
  ghost predicate OnlyDue(s: State, now: int, chosen: seq<Key>) {
    forall k :: k in chosen ==>
      && k in s.jobs && !s.jobs[k].working && s.jobs[k].retryAt <= now
      && (s.jobs[k].dirty || (s.jobs[k].next <= now && (!s.jobs[k].permanent || (k in s.active && s.active[k] > 0))))
  }

  /** With a worker left free, every such thread is chosen. */
  ghost predicate AllDue(s: State, now: int, chosen: seq<Key>) {
    s.running + |chosen| < s.cfg.maxParallel ==>
      forall k :: k in s.jobs && !s.jobs[k].working && s.jobs[k].retryAt <= now ==>
        && (s.jobs[k].dirty ==> k in chosen)
        && (s.jobs[k].next <= now && !s.jobs[k].permanent ==> k in chosen)
        && (s.jobs[k].next <= now && k in s.active && s.active[k] > 0 ==> k in chosen)
  }

  /** A chosen thread's marks are taken over by its attempt, which works for the workflow that owns the channel now. */
  ghost predicate Handed(before: State, after: State, chosen: seq<Key>) {
    && after.jobs.Keys == before.jobs.Keys
    && (forall k :: k in before.jobs && k !in chosen ==> after.jobs[k] == before.jobs[k])
    && forall k :: k in chosen ==>
         && k in before.jobs
         && var j, cfg := after.jobs[k], before.cfg;
            && j == before.jobs[k].(working := true, dirty := false, capacityWait := false, cancelled := false,
                                    workflow := j.workflow)
            && (k.channel in before.channels && k.channel in cfg.routes && cfg.routes[k.channel].id == k.workflow ==>
                  j.workflow == cfg.routes[k.channel])
            && (k.channel !in before.channels || k.channel !in cfg.routes || cfg.routes[k.channel].id != k.workflow ==>
                  j.workflow == before.jobs[k].workflow)
  }

  lemma ChosenAreDue(s: State, now: int, chosen: seq<Key>)
    requires FairChoice(s, now, Elements(chosen)) && |Elements(chosen)| == |chosen|
    ensures OnlyDue(s, now, chosen) && AllDue(s, now, chosen)
  {
    assert forall k :: k in chosen <==> k in Elements(chosen);
    assert s.running + |chosen| < s.cfg.maxParallel ==> forall k :: Eligible(s, k, now) ==> k in chosen;
  }

  lemma ChosenAreHanded(s: State, chosen: seq<Key>)
    requires forall k :: k in chosen ==> k in s.jobs
    ensures Handed(s, Dispatched(s, Elements(chosen)), chosen)
  {
    assert forall k :: k in chosen <==> k in Elements(chosen);
  }

  /** All that a round means. */
  lemma RoundMeans(s: State, now: int, keys: seq<Key>, n: nat)
    requires n <= |keys|
    requires DistinctOrders(s.jobs) && Queue(s.jobs, keys) && AllEligible(s, now, keys)
    requires |Elements(keys)| == |keys|
    requires n == |keys| || s.running + n >= s.cfg.maxParallel
    requires n > 0 ==> s.running + n <= s.cfg.maxParallel
    ensures FairChoice(s, now, Elements(keys[..n])) && Ascending(s.jobs, keys[..n])
    ensures OnlyDue(s, now, keys[..n]) && AllDue(s, now, keys[..n])
    ensures Handed(s, Dispatched(s, Elements(keys[..n])), keys[..n])
    ensures Dispatched(s, Elements(keys[..n])) ==
            s.(jobs := LaunchedJobs(s.jobs, s.cfg, s.channels, Elements(keys[..n])), running := s.running + n)
  {
    PrefixElements(keys, n);
    OldestFirst(s, now, keys, n);
    ChosenAreDue(s, now, keys[..n]);
    hide FairChoice, DistinctOrders, Queue, AllEligible, Elements, OnlyDue, AllDue, Handed;
    AscendingMeans(s.jobs, keys[..n]);
    ChosenAreHanded(s, keys[..n]);
  }

  lemma AscendingMeans(jobs: map<Key, Job>, keys: seq<Key>)
    requires Ascending(jobs, keys)
    ensures forall k :: k in keys ==> k in jobs
  {
  }

  lemma LaunchedNone(jobs: map<Key, Job>, cfg: Config, channels: map<nat, nat>, keys: seq<Key>)
    ensures LaunchedJobs(jobs, cfg, channels, Elements(keys[..0])) == jobs
  {
  }

  lemma {:induction false} DistinctElements<T>(keys: seq<T>)
    requires forall a, b :: 0 <= a < b < |keys| ==> keys[a] != keys[b]
    ensures |Elements(keys)| == |keys|
  {
    if keys != [] {
      var last := |keys| - 1;
      DistinctElements(keys[..last]);
      assert Elements(keys) == Elements(keys[..last]) + {keys[last]};
    }
  }

  lemma {:induction false} ElementsBound<T>(keys: seq<T>)
    ensures |Elements(keys)| <= |keys|
  {
    if keys != [] {
      var last := |keys| - 1;
      ElementsBound(keys[..last]);
      assert Elements(keys) == Elements(keys[..last]) + {keys[last]};
    }
  }

  lemma PrefixElements<T>(keys: seq<T>, n: nat)
    requires n <= |keys| && |Elements(keys)| == |keys|
    ensures |Elements(keys[..n])| == n
  {
    ElementsBound(keys[..n]);
    ElementsBound(keys[n..]);
    assert Elements(keys) == Elements(keys[..n]) + Elements(keys[n..]);
  }

  lemma LaunchedAnother(jobs: map<Key, Job>, cfg: Config, channels: map<nat, nat>, keys: seq<Key>, i: nat)
    requires i < |keys| && keys[i] in jobs && |Elements(keys)| == |keys|
    ensures var before := LaunchedJobs(jobs, cfg, channels, Elements(keys[..i]));
            && keys[i] in before
            && LaunchedJobs(jobs, cfg, channels, Elements(keys[..i + 1])) ==
               before[keys[i] := Launched(before[keys[i]], Owner(cfg, channels, keys[i]))]
  {
    assert keys[..i + 1] == keys[..i] + [keys[i]];
    PrefixElements(keys, i);
    PrefixElements(keys, i + 1);
    assert Elements(keys[..i + 1]) == Elements(keys[..i]) + {keys[i]};
  }

  /** A prefix of the eligible threads in job order is a fair choice. */
  lemma OldestFirst(s: State, now: int, keys: seq<Key>, n: nat)
    requires n <= |keys|
    requires DistinctOrders(s.jobs) && Queue(s.jobs, keys) && AllEligible(s, now, keys)
    requires |Elements(keys[..n])| == n
    requires n == |keys| || s.running + n >= s.cfg.maxParallel
    requires n > 0 ==> s.running + n <= s.cfg.maxParallel
    ensures FairChoice(s, now, Elements(keys[..n]))
    ensures Ascending(s.jobs, keys[..n])
  {
    var chosen := Elements(keys[..n]);
    ElementsOf(keys, n);
    hide Elements, Eligible, DistinctOrders;
    AscendingOrders(s.jobs, keys);
    forall k, other | k in chosen && other !in chosen && Eligible(s, other, now)
      ensures s.jobs[k].order < s.jobs[other].order
    {
      var a :| 0 <= a < n && keys[a] == k;
      var b :| 0 <= b < |keys| && keys[b] == other;
      assert b >= n;
    }
  }

  /** Distinct threads in the order of their jobs have strictly increasing orders. */
  lemma AscendingOrders(jobs: map<Key, Job>, keys: seq<Key>)
    requires DistinctOrders(jobs) && Queue(jobs, keys)
    ensures forall i, j :: 0 <= i < j < |keys| ==> jobs[keys[i]].order < jobs[keys[j]].order
  {
  }

  lemma QueueMeans(jobs: map<Key, Job>, keys: seq<Key>)
    requires Queue(jobs, keys)
    ensures forall k :: k in keys ==> k in jobs
    ensures |Elements(keys)| == |keys|
  {
    DistinctElements(keys);
  }

  /** Threads with a job, each once, in the order of their jobs. */
  ghost predicate Queue(jobs: map<Key, Job>, keys: seq<Key>) {
    && (forall k :: k in keys ==> k in jobs)
    && (forall i, j :: 0 <= i < j < |keys| ==> jobs[keys[i]].order <= jobs[keys[j]].order)
    && forall i, j :: 0 <= i < j < |keys| ==> keys[i] != keys[j]
  }

  /** Exactly the eligible threads. */
  ghost predicate AllEligible(s: State, now: int, keys: seq<Key>) {
    forall k :: k in keys <==> Eligible(s, k, now)
  }

  ghost predicate Ascending(jobs: map<Key, Job>, keys: seq<Key>) {
    && (forall k :: k in keys ==> k in jobs)
    && forall i, j :: 0 <= i < j < |keys| ==> jobs[keys[i]].order < jobs[keys[j]].order
  }

  lemma ElementsOf<T(!new)>(keys: seq<T>, n: nat)
    requires n <= |keys|
    ensures forall k :: k in Elements(keys[..n]) <==> exists i :: 0 <= i < n && keys[i] == k
    ensures n == |keys| ==> forall k :: k in Elements(keys[..n]) <==> k in keys
  {
    assert forall i :: 0 <= i < n ==> keys[..n][i] == keys[i];
    if n == |keys| {
      assert keys[..n] == keys;
    }
  }

  function Elements<T>(s: seq<T>): set<T> {
    set x | x in s
  }

  ghost predicate DistinctOrders(jobs: map<Key, Job>) {
    forall a, b :: a in jobs && b in jobs && a != b ==> jobs[a].order != jobs[b].order
  }
}
