/** What every run of the admission protocol guarantees. */
module AdmissionTheorems {
  import opened Collections
  import opened Admission
  import opened AdmissionRuns

  /** At most one accepted input that is not rejected owns a post, over all crashes, losses and retargetings. */
  lemma AtMostOnceInput(worlds: seq<World>, steps: seq<Step>, i: nat, a: Input, b: Input, post: Id)
    requires Run(worlds, steps) && i < |worlds|
    requires a in AcceptedInputs(worlds[i].server) && b in AcceptedInputs(worlds[i].server)
    requires post in a.envelope.triggers && post in b.envelope.triggers
    ensures a == b || a.id in RejectedIds(worlds[i].server) || b.id in RejectedIds(worlds[i].server)
    ensures a == b || a.envelope.triggers == b.envelope.triggers
    ensures a.envelope.predecessor == 0 && b.envelope.predecessor == 0 ==> a == b
    ensures a.envelope.predecessor != 0 && a.envelope.predecessor == b.envelope.predecessor ==> a == b
  {
    InvRun(worlds, steps, i);
    if a != b {
      var inputs, rejected := AcceptedInputs(worlds[i].server), RejectedIds(worlds[i].server);
      SharedTriggerRejected(inputs, rejected, a, b);
      assert Origin(inputs, rejected, a) == Origin(inputs, rejected, b);
    }
  }

  /** A thread never has two live runs: the error branch of `active` is unreachable. */
  lemma SingleLiveRun(worlds: seq<World>, steps: seq<Step>, i: nat)
    requires Run(worlds, steps) && i < |worlds|
    ensures !ActivityOf(worlds[i].server).Several?
    ensures worlds[i].reading.Some? ==> !ActivityOf(worlds[i].reading.value).Several?
    decreases i
  {
    hide Next;
    NeverSeveral(worlds, steps, i);
    if worlds[i].reading.Some? && i > 0 {
      ReadingFrom(worlds[i - 1], steps[i - 1], worlds[i]);
      NeverSeveral(worlds, steps, i - 1);
      SingleLiveRun(worlds, steps, i - 1);
    }
  }

  lemma NeverSeveral(worlds: seq<World>, steps: seq<Step>, i: nat)
    requires Run(worlds, steps) && i < |worlds|
    ensures !ActivityOf(worlds[i].server).Several?
  {
    InvRun(worlds, steps, i);
    hide Run, Next, Lineage, SlotFits, Evolves;
  }

  /** A snapshot in use was taken by this step, or has been in use before it. */
  lemma ReadingFrom(v: World, step: Step, v': World)
    requires Next(v, step, v') && v'.reading.Some?
    ensures v'.reading == v.reading || v'.reading == Some(v.server)
  {
    hide Decide, Apply, CanApply, Evolves, Sensible, Rebuilds;
  }

  /** `accepted` resolves a frozen submission exactly, and an open one without a run means an idle thread. */
  lemma ExactResolution(worlds: seq<World>, steps: seq<Step>, i: nat)
    requires Run(worlds, steps) && i < |worlds|
    requires worlds[i].slot.frozen.Some? && worlds[i].reading.Some?
    ensures var v := worlds[i];
            var p := v.slot.frozen.value;
            && (Accepted(p, v.reading.value) <==> TookEffect(AcceptedInputs(v.server), v.serial))
            && (!Accepted(p, v.reading.value) && p.run == 0 ==> IdleServer(v.server) && IdleServer(v.reading.value))
            && (forall a :: a in AcceptedInputs(v.server) && a.serial == v.serial ==> a.envelope == p.envelope)
  {
    InvRun(worlds, steps, i);
    var v := worlds[i];
    EvolvedInputs(v.reading.value, v.server);
    AcceptedIsExact(v.slot.frozen.value, v.reading.value, RejectedIds(v.server), Quiet(v), v.serial);
  }

  /** One frozen submission enters history at most once, however often it is submitted. */
  lemma SubmittedOnce(worlds: seq<World>, steps: seq<Step>, i: nat)
    requires Run(worlds, steps) && i < |steps| && steps[i].Reconciles? && steps[i].effect
    ensures !TookEffect(AcceptedInputs(worlds[i].server), worlds[i + 1].serial)
    ensures exists a :: AcceptedInputs(worlds[i + 1].server) == AcceptedInputs(worlds[i].server) + {a}
              && a.serial == worlds[i + 1].serial
              && (forall b :: b in AcceptedInputs(worlds[i + 1].server) && b.serial == a.serial ==> b == a)
  {
    InvRun(worlds, steps, i);
    InvRun(worlds, steps, i + 1);
    assert Next(worlds[i], steps[i], worlds[i + 1]);
    var v, v' := worlds[i], worlds[i + 1];
    var inp, names := steps[i].inp, steps[i].names;
    SubmittedFits(v, inp);
    var p := Decide(v.reading.value, v.slot, inp).action.p;
    AppliedInputs(v.server, p, names, v'.serial);
    var a := Input(names.messages[|names.messages| - 1], RunName(p, names), v'.serial, p.envelope);
    assert a in AcceptedInputs(v'.server);
  }

  /**
    What the scheduler relies on: capacity is asked for only on behalf of a thread that the
    snapshot shows idle, and a refusal leaves frozen or queued input behind.
   */
  lemma RefusedReservationHoldsInput(worlds: seq<World>, steps: seq<Step>, i: nat, inp: Inputs)
    requires Run(worlds, steps) && i < |worlds| && worlds[i].reading.Some? && Sensible(worlds[i].reading.value, inp)
    requires Decide(worlds[i].reading.value, worlds[i].slot, inp).asked
    ensures IdleServer(worlds[i].reading.value)
    ensures var d := Decide(worlds[i].reading.value, worlds[i].slot, inp);
            && (inp.room <==> d.action.Submit?)
            && (d.slot.frozen.Some? || d.slot.queued > 0)
  {
    hide Run;
    var v := worlds[i];
    InvRun(worlds, steps, i);
    SingleLiveRun(worlds, steps, i);
    hide Sensible, Lineage, SlotFits, Evolves;
    var snap := v.reading.value;
    EvolvedInputs(snap, v.server);
    if !Rebuilds(snap, v.slot) {
      ExactResolution(worlds, steps, i);
    } else if ActivityOf(snap).Idle? && Transfer(snap).Some? {
      TransferFacts(snap, RejectedIds(v.server));
    }
  }

  // --- the session that a submission names ---

  ghost predicate Holds(snap: Snapshot, session: Id) {
    exists s :: s in snap && s.id == session
  }

  /** The session of a frozen input is in the history and in the snapshot that is being reconciled. */
  ghost predicate Targeted(v: World) {
    v.slot.frozen.Some? && v.slot.frozen.value.session != 0 ==>
      && Holds(v.server, v.slot.frozen.value.session)
      && (v.reading.Some? ==> Holds(v.reading.value, v.slot.frozen.value.session))
  }

  lemma HoldsEvolves(a: Snapshot, b: Snapshot, session: Id)
    requires Evolves(a, b) && Holds(a, session)
    ensures Holds(b, session)
  {
    var i :| 0 <= i < |a| && a[i].id == session;
    assert SessionEvolves(a[i], b[i]);
    assert b[i] in b;
  }

  lemma HoldsApply(server: Snapshot, p: Pending, names: Names, serial: nat, session: Id)
    requires |names.messages| == |p.texts| && Holds(server, session)
    ensures Holds(Apply(server, p, names, serial), session)
  {
    var i :| 0 <= i < |server| && server[i].id == session;
    assert Apply(server, p, names, serial)[i] in Apply(server, p, names, serial);
  }

  /** What is decided for a session names one of the snapshot, unless it was frozen before. */
  lemma DecidedTarget(snap: Snapshot, slot: Slot, inp: Inputs)
    requires Decide(snap, slot, inp).slot.frozen.Some? && Decide(snap, slot, inp).slot.frozen.value.session != 0
    ensures Decide(snap, slot, inp).slot.frozen == slot.frozen ||
              Holds(snap, Decide(snap, slot, inp).slot.frozen.value.session)
  {
  }

  lemma TargetedNext(v: World, step: Step, v': World)
    requires Inv(v) && Targeted(v) && Next(v, step, v')
    ensures Targeted(v')
  {
    hide Decide, Lineage, SlotFits, Sensible, CanApply, Holds, Evolves, Apply, Rebuilds;
    if v'.slot.frozen.Some? && v'.slot.frozen.value.session != 0 {
      var session := v'.slot.frozen.value.session;
      match step
      case Reads =>
      case Progresses(server) => HoldsEvolves(v.server, server, session);
      case Crashes =>
      case Reconciles(inp, answer, effect, names) =>
        var d := Decide(v.reading.value, v.slot, inp);
        DecidedTarget(v.reading.value, v.slot, inp);
        if Holds(v.reading.value, session) {
          HoldsEvolves(v.reading.value, v.server, session);
        }
        if effect {
          Sizes(v, inp, answer, effect, names, v');
          HoldsApply(v.server, d.action.p, names, v'.serial, session);
        }
    }
  }

  lemma Sizes(v: World, inp: Inputs, answer: Answer, effect: bool, names: Names, v': World)
    requires ReconcilesStep(v, inp, answer, effect, names, v') && effect
    ensures Decide(v.reading.value, v.slot, inp).action.Submit?
    ensures |names.messages| == |Decide(v.reading.value, v.slot, inp).action.p.texts|
    ensures v'.server == Apply(v.server, Decide(v.reading.value, v.slot, inp).action.p, names, v'.serial)
  {
    hide Decide, Apply, Sensible, Rebuilds;
  }

  lemma {:induction false} TargetedRun(worlds: seq<World>, steps: seq<Step>, i: nat)
    requires Run(worlds, steps) && i < |worlds|
    ensures Targeted(worlds[i])
  {
    if i > 0 {
      InvRun(worlds, steps, i - 1);
      TargetedRun(worlds, steps, i - 1);
      assert Next(worlds[i - 1], steps[i - 1], worlds[i]);
      TargetedNext(worlds[i - 1], steps[i - 1], worlds[i]);
    }
  }

  /** Over all runs, an input that continues a session names exactly one session of the snapshot, and starts a run in it
      only while that is fit for one. */
  lemma ContinuesFitSession(worlds: seq<World>, steps: seq<Step>, i: nat, inp: Inputs)
    requires Run(worlds, steps) && i < |worlds| && worlds[i].reading.Some?
    requires Decide(worlds[i].reading.value, worlds[i].slot, inp).action.Submit?
    requires Decide(worlds[i].reading.value, worlds[i].slot, inp).action.p.session != 0
    ensures var snap, p := worlds[i].reading.value, Decide(worlds[i].reading.value, worlds[i].slot, inp).action.p;
            exists n :: 0 <= n < |snap| && snap[n].id == p.session
              && (forall k :: 0 <= k < |snap| && snap[k].id == p.session ==> k == n)
              && (p.run == 0 ==>
                    var s := snap[n];
                    && !s.sandboxGone && s.allowMultiple && s.revision == p.revision && s.tokens < s.maxTokens
                    && (s.runs != [] ==>
                          var last := s.runs[|s.runs| - 1];
                          last.error != SandboxLost && last.error != ContextLost && last.stop != TokenLimit))
  {
    InvRun(worlds, steps, i);
    TargetedRun(worlds, steps, i);
    var v := worlds[i];
    var snap, p := v.reading.value, Decide(v.reading.value, v.slot, inp).action.p;
    EvolvedLive(snap, v.server);
    SubmitDecision(snap, v.slot, inp);
    DecidedTarget(snap, v.slot, inp);
    hide Run, Inv, Evolves, Decide;
    var n :| 0 <= n < |snap| && snap[n].id == p.session;
    NamedSessions(snap);
    if p.run == 0 {
      StartsWhereFit(snap, v.slot, inp);
    }
  }

  lemma NamedSessions(snap: Snapshot)
    requires WellNamed(snap)
    ensures Named(snap)
    ensures forall i, j :: 0 <= i < |snap| && 0 <= j < |snap| && snap[i].id == snap[j].id ==> i == j
  {
  }
}
