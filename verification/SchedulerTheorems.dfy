/** What every run of the scheduler guarantees: hints, fairness and wake-ups. */
module SchedulerTheorems {
  import opened Collections
  import opened Scheduler
  import opened SchedulerRuns

  predicate Dispatches(step: Step, k: Key) {
    step.DispatchRound? && k in step.chosen
  }

  /** A hint on a thread that holds a job stays owed, and the job marked, until an attempt begins. */
  lemma {:induction false} HintIsFollowed(worlds: seq<World>, steps: seq<Step>, i: nat, j: nat, k: Key)
    requires Run(worlds, steps) && i <= j < |worlds|
    requires k in worlds[i].owed
    requires forall m :: i <= m < j ==> !Dispatches(steps[m], k)
    ensures k in worlds[j].owed && k in worlds[j].rt.jobs && worlds[j].rt.jobs[k].dirty
  {
    hide Sound, Next;
    SoundRun(worlds, steps, j);
    if i < j {
      HintIsFollowed(worlds, steps, i, j - 1, k);
      assert Next(worlds[j - 1], steps[j - 1], worlds[j]);
      OwedKept(worlds[j - 1], steps[j - 1], worlds[j], k);
    }
    OwedIsMarked(worlds[j], k);
  }

  lemma OwedIsMarked(v: World, k: Key)
    requires Sound(v) && k in v.owed
    ensures k in v.rt.jobs && v.rt.jobs[k].dirty
  {
  }

  lemma OwedKept(v: World, step: Step, v': World, k: Key)
    requires Next(v, step, v') && k in v.owed && !Dispatches(step, k)
    ensures k in v'.owed
  {
  }

  /** Every thread of unknown capacity is marked for an attempt or is being observed. */
  lemma UnknownIsObserved(worlds: seq<World>, steps: seq<Step>, i: nat, k: Key)
    requires Run(worlds, steps) && i < |worlds| && k in worlds[i].rt.unknown
    ensures k in worlds[i].rt.jobs && (worlds[i].rt.jobs[k].dirty || worlds[i].rt.jobs[k].working)
    ensures |worlds[i].rt.jobs| <= 4096
    ensures worlds[i].rt.running == |set a | a in worlds[i].rt.jobs && worlds[i].rt.jobs[a].working|
  {
    SoundRun(worlds, steps, i);
    var v := worlds[i];
    assert v.workers.Keys == set a | a in v.rt.jobs && v.rt.jobs[a].working;
    assert |v.rt.jobs| == |v.rt.jobs.Keys|;
  }

  /**
    A thread that waits for capacity has a reason to, and keeps its job. Before any reload
    the reasons are: discovery incomplete, some thread unknown, or the workflow at its limit.
   */
  lemma CapacityWaiterIsWoken(worlds: seq<World>, steps: seq<Step>, i: nat, k: Key)
    requires Run(worlds, steps) && i < |steps|
    requires k in worlds[i].rt.jobs && worlds[i].rt.jobs[k].capacityWait
    ensures !worlds[i].rt.jobs[k].dirty ==> Waits(worlds[i].rt, worlds[i].rt.jobs[k].workflow)
    ensures k in worlds[i + 1].rt.jobs
  {
    SoundRun(worlds, steps, i);
    assert Next(worlds[i], steps[i], worlds[i + 1]);
    WaiterKept(worlds[i], steps[i], worlds[i + 1], k);
  }

  lemma WaiterKept(v: World, step: Step, v': World, k: Key)
    requires Sound(v) && Next(v, step, v') && k in v.rt.jobs && v.rt.jobs[k].capacityWait
    ensures k in v'.rt.jobs
  {
    if step.Finishes? {
      if step.k == k {
        assert v.workers[k].phase.Refused?;
      }
    } else {
      JobsKept(v, step, v', k);
    }
  }

  /** Only the end of an attempt removes a job. */
  lemma JobsKept(v: World, step: Step, v': World, k: Key)
    requires Next(v, step, v') && !step.Finishes? && k in v.rt.jobs
    ensures k in v'.rt.jobs
  {
    if Background(step) {
      BackgroundFrame(v, step, v');
    } else if Remark(step) {
      RemarkFrame(v, step, v');
    }
  }

  // ---------------------------------------------------------------------
  // Bounded bypass
  // ---------------------------------------------------------------------

  /** The idle jobs that the dispatcher would prefer to `k`. */
  ghost function Ahead(rt: State, k: Key): set<Key>
    requires k in rt.jobs
  {
    set a | a in rt.jobs && !rt.jobs[a].working && rt.jobs[a].order < rt.jobs[k].order
  }

  /** `k` keeps its job, is never dispatched, and is eligible at every dispatch round. */
  ghost predicate Bypassed(worlds: seq<World>, steps: seq<Step>, k: Key, i: nat, j: nat)
    requires i <= j < |worlds| == |steps| + 1
  {
    && (forall m :: i <= m <= j ==> k in worlds[m].rt.jobs && !worlds[m].rt.jobs[k].working)
    && (forall m :: i <= m < j ==> !Dispatches(steps[m], k))
    && (forall m :: i <= m < j && steps[m].DispatchRound? ==> Eligible(worlds[m].rt, k, steps[m].now))
  }

  /** How many attempts begin between worlds `i` and `j`. */
  ghost function Attempts(steps: seq<Step>, i: nat, j: nat): nat
    requires i <= j <= |steps|
  {
    if i == j then 0
    else Attempts(steps, i, j - 1) + if steps[j - 1].DispatchRound? then |steps[j - 1].chosen| else 0
  }

  lemma BypassStep(v: World, step: Step, v': World, k: Key)
    requires Sound(v) && Next(v, step, v')
    requires k in v.rt.jobs && !v.rt.jobs[k].working && k in v'.rt.jobs && !v'.rt.jobs[k].working
    requires !Dispatches(step, k)
    requires step.DispatchRound? ==> Eligible(v.rt, k, step.now)
    ensures |Ahead(v'.rt, k)| + (if step.DispatchRound? then |step.chosen| else 0) <= |Ahead(v.rt, k)|
  {
    if step.DispatchRound? {
      ChosenWereAhead(v, step.now, step.chosen, v', k);
      SubsetCard(Ahead(v'.rt, k), Ahead(v.rt, k) - step.chosen);
    } else {
      IdleOrders(v, step, v', k);
      forall a | a in Ahead(v'.rt, k) ensures a in Ahead(v.rt, k) {
        IdleOrders(v, step, v', a);
      }
      SubsetCard(Ahead(v'.rt, k), Ahead(v.rt, k));
    }
  }

  lemma ChosenWereAhead(v: World, now: int, chosen: set<Key>, v': World, k: Key)
    requires DispatchRoundStep(v, now, chosen, v')
    requires k in v.rt.jobs && k !in chosen && Eligible(v.rt, k, now)
    ensures k in v'.rt.jobs && chosen <= Ahead(v.rt, k)
    ensures Ahead(v'.rt, k) <= Ahead(v.rt, k) - chosen
  {
    assert forall a :: a in chosen ==> Eligible(v.rt, a, now);
  }

  /** Outside dispatch, a job that is idle afterwards was idle before at the same order, or is queued last. */
  lemma IdleOrders(v: World, step: Step, v': World, a: Key)
    requires Orders(v.rt.jobs, v.rt.sequence) && Next(v, step, v') && !step.DispatchRound?
    requires a in v'.rt.jobs && !v'.rt.jobs[a].working
    ensures || v'.rt.jobs[a].order > v.rt.sequence
            || (a in v.rt.jobs && !v.rt.jobs[a].working && v.rt.jobs[a].order == v'.rt.jobs[a].order)
    ensures a in v.rt.jobs && !v.rt.jobs[a].working ==> v.rt.jobs[a].order == v'.rt.jobs[a].order || step.Finishes?
  {
    if Background(step) {
      BackgroundFrame(v, step, v');
    } else if Remark(step) {
      RemarkFrame(v, step, v');
    } else if step.Finishes? {
    }
  }

  /** However the steps interleave, fewer than 4096 attempts overtake an eligible thread. */
  lemma {:induction false} BoundedBypass(worlds: seq<World>, steps: seq<Step>, k: Key, i: nat, j: nat)
    requires Run(worlds, steps) && i <= j < |worlds|
    requires Bypassed(worlds, steps, k, i, j)
    ensures Attempts(steps, i, j) + |Ahead(worlds[j].rt, k)| <= |Ahead(worlds[i].rt, k)| < 4096
  {
    hide Sound, Next, Eligible;
    SoundRun(worlds, steps, i);
    AheadBound(worlds[i], k);
    if i < j {
      BoundedBypass(worlds, steps, k, i, j - 1);
      SoundRun(worlds, steps, j - 1);
      assert Next(worlds[j - 1], steps[j - 1], worlds[j]);
      BypassStep(worlds[j - 1], steps[j - 1], worlds[j], k);
    }
  }

  lemma AheadBound(v: World, k: Key)
    requires Sound(v) && k in v.rt.jobs
    ensures |Ahead(v.rt, k)| < MAX_QUEUED_THREADS
  {
    assert |v.rt.jobs| == |v.rt.jobs.Keys|;
    SubsetCard(Ahead(v.rt, k), v.rt.jobs.Keys - {k});
  }

  // ---------------------------------------------------------------------
  // When a thread is attempted again, and when it is forgotten
  // ---------------------------------------------------------------------

  /** Until its next attempt, a thread stays idle with the polling time that the last one left. */
  lemma PollingKept(v: World, step: Step, v': World, k: Key)
    requires Crew(v.rt.jobs, v.workers) && Next(v, step, v') && !Dispatches(step, k)
    requires k in v.rt.jobs && !v.rt.jobs[k].working
    ensures k in v'.rt.jobs && !v'.rt.jobs[k].working && v'.rt.jobs[k].next == v.rt.jobs[k].next
    ensures !step.Reloads? ==> v'.rt.jobs[k].retryAt == v.rt.jobs[k].retryAt
  {
    assert k !in v.workers;
    if Background(step) {
      BackgroundFrame(v, step, v');
    } else {
      hide Crew, FairChoice, Blocked, Owner, Rescheduled, Retired;
    }
  }

  /** Between the end of one attempt and the next, over any run. */
  lemma {:induction false} PollingLasts(worlds: seq<World>, steps: seq<Step>, i: nat, j: nat, k: Key)
    requires Run(worlds, steps) && i <= j < |worlds|
    requires k in worlds[i].rt.jobs && !worlds[i].rt.jobs[k].working
    requires forall m :: i <= m < j ==> !Dispatches(steps[m], k)
    ensures k in worlds[j].rt.jobs && !worlds[j].rt.jobs[k].working
    ensures worlds[j].rt.jobs[k].next == worlds[i].rt.jobs[k].next
    ensures (forall m :: i <= m < j ==> !steps[m].Reloads?) ==>
              worlds[j].rt.jobs[k].retryAt == worlds[i].rt.jobs[k].retryAt
  {
    hide Next, Sound;
    if i < j {
      PollingLasts(worlds, steps, i, j - 1, k);
      SoundRun(worlds, steps, j - 1);
      assert Next(worlds[j - 1], steps[j - 1], worlds[j]);
      SoundHasCrew(worlds[j - 1]);
      PollingKept(worlds[j - 1], steps[j - 1], worlds[j], k);
    }
  }

  lemma SoundHasCrew(v: World)
    requires Sound(v)
    ensures Crew(v.rt.jobs, v.workers)
  {
  }

  /** An attempt that leaves the job sets its next polling time, and a failed one when it may be retried. */
  lemma FinishedJob(v: World, step: Step, v': World)
    requires Next(v, step, v') && step.Finishes?
    ensures step.k in v.workers && step.k in v.rt.jobs
    ensures step.k in v'.rt.jobs ==>
              var j, j', t := v.rt.jobs[step.k], v'.rt.jobs[step.k], step.now;
              && !j'.working && j'.next == t + v.workers[step.k].workflow.poll
              && (j.permanent ==> j'.permanent) && (j.dirty ==> j'.dirty) && !j'.cancelled
              && (step.outcome.Failed? && j.cancelled ==>
                    j'.retryAt == j.retryAt && j'.failures == j.failures && j'.permanent == j.permanent)
              && (step.outcome.Succeeded? ==> j'.retryAt == 0 && j'.failures == 0)
    ensures step.outcome.Failed? && !v.rt.jobs[step.k].cancelled ==>
              && step.k in v'.rt.jobs
              && var j, j', t := v.rt.jobs[step.k], v'.rt.jobs[step.k], step.now;
                 && j'.retryAt == t + step.delay && j'.dirty && j'.failures == j.failures + 1
                 && (j'.permanent <==> j.permanent || step.outcome.permanent)
  {
  }

  lemma RoundIsFair(v: World, step: Step, v': World)
    requires Next(v, step, v') && step.DispatchRound?
    ensures FairChoice(v.rt, step.now, step.chosen)
  {
  }

  /** A thread that is still watched is polled: after its attempt at time t, the first round at or after its polling
      interval that is allowed to retry it and has a worker to spare takes it. */
  lemma PolledAgain(worlds: seq<World>, steps: seq<Step>, i: nat, j: nat, k: Key)
    requires Run(worlds, steps) && i < j < |steps| && steps[i].Finishes? && steps[i].k == k
    requires k in worlds[i + 1].rt.jobs && k in worlds[i].workers
    requires forall m :: i < m < j ==> !Dispatches(steps[m], k)
    requires steps[j].DispatchRound? && steps[j].now >= steps[i].now + worlds[i].workers[k].workflow.poll
    requires k in worlds[j].rt.jobs ==> worlds[j].rt.jobs[k].retryAt <= steps[j].now
    requires ActiveOf(worlds[j].rt.active, k) > 0
    requires worlds[j].rt.running + |steps[j].chosen| < worlds[j].rt.cfg.maxParallel
    ensures k in steps[j].chosen
  {
    hide Next, FairChoice;
    FinishedJob(worlds[i], steps[i], worlds[i + 1]);
    RoundIsFair(worlds[j], steps[j], worlds[j + 1]);
    PollingLasts(worlds, steps, i + 1, j, k);
    DueExactly(worlds[j].rt, steps[j].now, steps[j].chosen, k);
  }

  /** One thread in one round: taken only when due, and when due with a worker to spare. */
  lemma DueExactly(s: State, now: int, chosen: set<Key>, k: Key)
    requires FairChoice(s, now, chosen)
    ensures k in chosen ==>
              && k in s.jobs && !s.jobs[k].working && s.jobs[k].retryAt <= now
              && (s.jobs[k].dirty || (s.jobs[k].next <= now && (!s.jobs[k].permanent || ActiveOf(s.active, k) > 0)))
    ensures s.running + |chosen| < s.cfg.maxParallel
            && k in s.jobs && !s.jobs[k].working && s.jobs[k].retryAt <= now ==>
              (s.jobs[k].dirty || (s.jobs[k].next <= now && (!s.jobs[k].permanent || ActiveOf(s.active, k) > 0)) ==>
                 k in chosen)
  {
    assert k in chosen ==> Eligible(s, k, now);
  }

  /** After a failure at time t the thread rests for the delay, unless a reload intervenes, and the first round after
      that with a worker to spare takes it. */
  lemma BacksOff(worlds: seq<World>, steps: seq<Step>, i: nat, j: nat, k: Key)
    requires Run(worlds, steps) && i < j < |steps| && steps[i].Finishes? && steps[i].k == k
    requires steps[i].outcome.Failed? && k in worlds[i].rt.jobs && !worlds[i].rt.jobs[k].cancelled
    requires forall m :: i < m < j ==> !Dispatches(steps[m], k) && !steps[m].Reloads?
    requires steps[j].DispatchRound?
    ensures k in steps[j].chosen ==> steps[j].now >= steps[i].now + steps[i].delay
    ensures steps[j].now >= steps[i].now + steps[i].delay
            && worlds[j].rt.running + |steps[j].chosen| < worlds[j].rt.cfg.maxParallel
            ==> k in steps[j].chosen
  {
    hide Next, FairChoice;
    FinishedJob(worlds[i], steps[i], worlds[i + 1]);
    RoundIsFair(worlds[j], steps[j], worlds[j + 1]);
    PollingLasts(worlds, steps, i + 1, j, k);
    DirtyLasts(worlds, steps, i + 1, j, k);
    DueExactly(worlds[j].rt, steps[j].now, steps[j].chosen, k);
  }

  /** Only an attempt takes a thread's mark away. */
  lemma DirtyKept(v: World, step: Step, v': World, k: Key)
    requires Crew(v.rt.jobs, v.workers) && Next(v, step, v') && !Dispatches(step, k)
    requires k in v.rt.jobs && !v.rt.jobs[k].working && v.rt.jobs[k].dirty
    ensures k in v'.rt.jobs && v'.rt.jobs[k].dirty
  {
    assert k !in v.workers;
    if Background(step) {
      BackgroundFrame(v, step, v');
    } else {
      hide Crew, FairChoice, Blocked, Owner, Rescheduled, Retired;
    }
  }

  lemma {:induction false} DirtyLasts(worlds: seq<World>, steps: seq<Step>, i: nat, j: nat, k: Key)
    requires Run(worlds, steps) && i <= j < |worlds|
    requires k in worlds[i].rt.jobs && !worlds[i].rt.jobs[k].working && worlds[i].rt.jobs[k].dirty
    requires forall m :: i <= m < j ==> !Dispatches(steps[m], k)
    ensures k in worlds[j].rt.jobs && worlds[j].rt.jobs[k].dirty
  {
    hide Next, Sound;
    if i < j {
      DirtyLasts(worlds, steps, i, j - 1, k);
      PollingLasts(worlds, steps, i, j - 1, k);
      SoundRun(worlds, steps, j - 1);
      assert Next(worlds[j - 1], steps[j - 1], worlds[j]);
      SoundHasCrew(worlds[j - 1]);
      DirtyKept(worlds[j - 1], steps[j - 1], worlds[j], k);
    }
  }

  /** A thread is forgotten exactly when an attempt succeeded, nothing new came in, the engine holds no input of it, no
      run of it is counted, and it is not a permanent failure. */
  lemma ForgottenExactly(v: World, step: Step, v': World, k: Key)
    requires Next(v, step, v') && k in v.rt.jobs
    ensures k !in v'.rt.jobs <==>
            && step.Finishes? && step.k == k && step.outcome.Succeeded? && !step.held
            && !v.rt.jobs[k].dirty && !v.rt.jobs[k].permanent && ActiveOf(v.rt.active, k) == 0
  {
    if !step.Finishes? {
      JobsKept(v, step, v', k);
    }
  }

  /** A hint on a thread without a job is followed at once: it is queued, and the next round with a worker to spare, at
      any time, takes it. */
  lemma NewThreadIsTaken(v: World, k: Key, w: Workflow, v': World, now: int, chosen: set<Key>, v'': World)
    requires HintedStep(v, k, w, v') && k !in v.rt.jobs && |v.rt.jobs| < 4096
    requires DispatchRoundStep(v', now, chosen, v'') && now >= 0
    requires v'.rt.running + |chosen| < v'.rt.cfg.maxParallel
    ensures k in chosen
  {
    DueExactly(v'.rt, now, chosen, k);
  }

  /** After a reload every idle thread is attempted again, whatever its failures. */
  lemma ReloadRetriesAll(v: World, cfg: Config, v': World, now: int, chosen: set<Key>, v'': World, k: Key)
    requires ReloadsStep(v, cfg, v') && DispatchRoundStep(v', now, chosen, v'') && now >= 0
    requires k in v.rt.jobs && !v.rt.jobs[k].working
    requires v'.rt.running + |chosen| < v'.rt.cfg.maxParallel
    ensures k in chosen
  {
    DueExactly(v'.rt, now, chosen, k);
  }
}
