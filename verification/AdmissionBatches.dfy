/**
  The layout of accepted batches: what a transfer recovers from history, how many file
  batches a run can be sent, and when a rejected input is submitted again.
 */
module AdmissionBatches {
  import opened Collections
  import opened Admission
  import opened AdmissionRuns

  // ---------------------------------------------------------------------
  // Saved text
  // ---------------------------------------------------------------------

  /** The batch that ends at message `j` carries exactly `texts`, its metadata on the last item only. */
  ghost predicate BatchAt(messages: seq<Message>, j: int, texts: seq<string>)
    requires 0 <= j < |messages|
  {
    && 0 < |texts| <= j + 1
    && (forall k :: j - |texts| < k <= j ==>
          && messages[k].user && messages[k].runId == messages[j].runId && messages[k].serial == messages[j].serial
          && messages[k].text == texts[k - j + |texts| - 1]
          && (k < j ==> messages[k].contract.None?))
    && (|texts| <= j ==> !LooseItem(messages[j - |texts|]))
  }

  predicate LooseItem(m: Message) {
    m.user && m.contract.None?
  }

  ghost predicate Layout(messages: seq<Message>, log: map<nat, seq<string>>) {
    && (forall j :: 0 <= j < |messages| && IsContract(messages[j]) ==>
          messages[j].serial in log && BatchAt(messages, j, log[messages[j].serial]))
    && (messages != [] ==> !LooseItem(messages[|messages| - 1]))
  }

  lemma LayoutAppend(messages: seq<Message>, log: map<nat, seq<string>>, p: Pending, run: Id, ids: seq<Id>, serial: nat)
    requires Layout(messages, log) && |ids| == |p.texts| > 0
    requires serial in log && log[serial] == p.texts
    ensures Layout(messages + BatchOf(p, run, ids, serial), log)
  {
    var batch := BatchOf(p, run, ids, serial);
    var all := messages + batch;
    forall j | 0 <= j < |all| && IsContract(all[j])
      ensures all[j].serial in log && BatchAt(all, j, log[all[j].serial])
    {
      if j < |messages| {
        assert BatchAt(messages, j, log[messages[j].serial]);
      } else {
        assert j == |all| - 1;
      }
    }
  }

  lemma LayoutEvolves(a: Session, b: Session, log: map<nat, seq<string>>)
    requires SessionEvolves(a, b) && Layout(a.messages, log)
    ensures Layout(b.messages, log)
  {
    forall j | 0 <= j < |b.messages| && IsContract(b.messages[j])
      ensures b.messages[j].serial in log && BatchAt(b.messages, j, log[b.messages[j].serial])
    {
      assert j < |a.messages|;
      assert forall k :: 0 <= k <= j ==> MessageEvolves(a.messages[k], b.messages[k]);
      assert BatchAt(a.messages, j, log[a.messages[j].serial]);
    }
    if b.messages != [] && |b.messages| == |a.messages| {
      assert MessageEvolves(a.messages[|a.messages| - 1], b.messages[|b.messages| - 1]);
    }
  }

  ghost predicate Recorded(v: World) {
    && (forall i :: 0 <= i < |v.server| ==> Layout(v.server[i].messages, v.log))
    && (forall n :: n in v.log ==> n <= v.count)
    && (v.slot.frozen.Some? ==> v.serial in v.log && v.log[v.serial] == v.slot.frozen.value.texts)
  }

  lemma LogGrows(messages: seq<Message>, log: map<nat, seq<string>>, serial: nat, texts: seq<string>)
    requires Layout(messages, log) && serial !in log
    ensures Layout(messages, log[serial := texts])
  {
  }

  lemma RecordedApply(server: Snapshot, log: map<nat, seq<string>>, p: Pending, names: Names, serial: nat)
    requires forall i :: 0 <= i < |server| ==> Layout(server[i].messages, log)
    requires CanApply(server, p, names) && serial in log && log[serial] == p.texts
    ensures var server' := Apply(server, p, names, serial);
            forall i :: 0 <= i < |server'| ==> Layout(server'[i].messages, log)
  {
    var server' := Apply(server, p, names, serial);
    var run := RunName(p, names);
    forall i | 0 <= i < |server'| ensures Layout(server'[i].messages, log) {
      if i < |server| {
        LayoutAppend(server[i].messages, log, p, run, names.messages, serial);
      } else {
        LayoutAppend([], log, p, run, names.messages, serial);
        assert [] + BatchOf(p, run, names.messages, serial) == server'[i].messages;
      }
    }
  }

  lemma RecordedNext(v: World, step: Step, v': World)
    requires Recorded(v) && Next(v, step, v')
    ensures Recorded(v')
  {
    match step
    case Progresses(server) =>
      forall i | 0 <= i < |server| ensures Layout(server[i].messages, v.log) {
        LayoutEvolves(v.server[i], server[i], v.log);
      }
    case Reconciles(inp, answer, effect, names) =>
      var d := Decide(v.reading.value, v.slot, inp);
      if d.action.Submit? {
        if Rebuilds(v.reading.value, v.slot) {
          forall i | 0 <= i < |v.server| ensures Layout(v.server[i].messages, v'.log) {
            LogGrows(v.server[i].messages, v.log, v.count + 1, d.action.p.texts);
          }
        }
        if effect {
          RecordedApply(v.server, v'.log, d.action.p, names, v'.serial);
        }
      }
    case _ =>
  }

  lemma {:induction false} RecordedRun(worlds: seq<World>, steps: seq<Step>, i: nat)
    requires Run(worlds, steps) && i < |worlds|
    ensures Recorded(worlds[i])
  {
    if i > 0 {
      RecordedRun(worlds, steps, i - 1);
      assert Next(worlds[i - 1], steps[i - 1], worlds[i]);
      RecordedNext(worlds[i - 1], steps[i - 1], worlds[i]);
    }
  }

  /** The transfer of the input at `j` submits the last texts of that very submission, none of another's: all of them
      exactly when the server has rejected every item of the batch. */
  ghost predicate SavedExactly(s: Session, j: nat, texts: seq<string>, saved: seq<string>)
    requires j < |s.messages|
  {
    && |saved| <= |texts| <= j + 1 && saved == texts[|texts| - |saved|..]
    && (saved == texts <==> forall k :: j - |texts| < k < j ==> s.messages[k].delivery.Rejected?)
  }

  lemma TransferKeepsText(worlds: seq<World>, steps: seq<Step>, i: nat) returns (s: Session, j: nat)
    requires Run(worlds, steps) && i < |worlds| && Transfer(worlds[i].server).Some?
    ensures s in worlds[i].server && j < |s.messages| && IsContract(s.messages[j])
    ensures s.messages[j].id == Transfer(worlds[i].server).value.id && s.messages[j].serial in worlds[i].log
    ensures SavedExactly(s, j, worlds[i].log[s.messages[j].serial], Transfer(worlds[i].server).value.texts)
  {
    var v := worlds[i];
    RecordedRun(worlds, steps, i);
    TransferFromFacts(v.server, 0, Predecessors(v.server));
    s, j :| s in v.server && 0 <= j < |s.messages| && Missed(s, j, Predecessors(v.server))
      && Transfer(v.server).value == TransferOf(s, j, Predecessors(v.server));
    hide Run, Transfer;
    MissedText(s, j, v.log);
  }

  lemma MissedText(s: Session, j: nat, log: map<nat, seq<string>>)
    requires Layout(s.messages, log) && j < |s.messages| && IsContract(s.messages[j])
    ensures s.messages[j].serial in log
    ensures SavedExactly(s, j, log[s.messages[j].serial],
              Texts(s.messages[BatchStart(s.messages, j, s.messages[j].runId)..j + 1]))
  {
    var texts := log[s.messages[j].serial];
    assert BatchAt(s.messages, j, texts);
    var start := BatchStart(s.messages, j, s.messages[j].runId);
    BatchBounds(s.messages, j, texts);
    hide Layout, BatchStart;
    TextsOfBatch(s.messages, j, texts, start);
  }

  lemma TextsOfBatch(messages: seq<Message>, j: nat, texts: seq<string>, start: nat)
    requires j < |messages| && BatchAt(messages, j, texts) && j - |texts| < start <= j
    ensures Texts(messages[start..j + 1]) == texts[|texts| - (j + 1 - start)..]
  {
    var saved := Texts(messages[start..j + 1]);
    forall k | 0 <= k < |saved| ensures saved[k] == texts[|texts| - (j + 1 - start) + k] {
      assert messages[start..j + 1][k] == messages[start + k];
    }
  }

  /** The search stops within the batch, at its first item exactly when all before the last are rejected. */
  lemma BatchBounds(messages: seq<Message>, j: nat, texts: seq<string>)
    requires j < |messages| && BatchAt(messages, j, texts)
    ensures var start := BatchStart(messages, j, messages[j].runId);
            && start > j - |texts|
            && (start == j - |texts| + 1 <==> forall k :: j - |texts| < k < j ==> messages[k].delivery.Rejected?)
  {
    var start := BatchStart(messages, j, messages[j].runId);
    assert |texts| <= j ==> !SameBatch(messages[j - |texts|], messages[j].runId);
    if start > j - |texts| + 1 {
      assert !SameBatch(messages[start - 1], messages[j].runId);
    }
  }

  // ---------------------------------------------------------------------
  // The file-clarification quota
  // ---------------------------------------------------------------------

  lemma {:induction false} FileClarificationsAppend(a: seq<Message>, b: seq<Message>, run: Id)
    ensures FileClarifications(a + b, run) == FileClarifications(a, run) + FileClarifications(b, run)
  {
    if b == [] {
      assert a + b == a;
    } else {
      var last := |b| - 1;
      assert (a + b)[..|a + b| - 1] == a + b[..last];
      FileClarificationsAppend(a, b[..last], run);
    }
  }

  lemma {:induction false} FileClarificationsNone(b: seq<Message>, run: Id)
    requires forall m :: m in b ==> !IsFileClarification(m, run)
    ensures FileClarifications(b, run) == 0
  {
    if b != [] {
      FileClarificationsNone(b[..|b| - 1], run);
    }
  }

  lemma FileClarificationsBatch(p: Pending, run: Id, ids: seq<Id>, serial: nat, r: Id)
    requires |ids| == |p.texts| > 0
    ensures FileClarifications(BatchOf(p, run, ids, serial), r) ==
            if run == r && p.envelope.kind.Clarification? && p.envelope.files != [] then 1 else 0
  {
    var batch := BatchOf(p, run, ids, serial);
    FileClarificationsNone(batch[..|batch| - 1], r);
  }

  lemma {:induction false} FileClarificationsEvolve(a: seq<Message>, b: seq<Message>, run: Id)
    requires |a| == |b| && forall i :: 0 <= i < |a| ==> MessageEvolves(a[i], b[i])
    ensures FileClarifications(a, run) == FileClarifications(b, run)
  {
    if a != [] {
      var last := |a| - 1;
      FileClarificationsEvolve(a[..last], b[..last], run);
      assert MessageEvolves(a[last], b[last]);
    }
  }

  lemma SessionCounts(a: Session, b: Session, run: Id)
    requires SessionEvolves(a, b)
    ensures FileClarifications(a.messages, run) == FileClarifications(b.messages, run)
  {
    FileClarificationsEvolve(a.messages, b.messages[..|a.messages|], run);
    FileClarificationsAppend(b.messages[..|a.messages|], b.messages[|a.messages|..], run);
    FileClarificationsNone(b.messages[|a.messages|..], run);
    assert b.messages == b.messages[..|a.messages|] + b.messages[|a.messages|..];
  }

  ghost predicate WithinQuota(server: Snapshot) {
    forall i, run: Id :: 0 <= i < |server| ==>
        FileClarifications(server[i].messages, run) <= MAX_ATTACHMENT_CLARIFICATIONS
  }

  /** An open clarification with files was frozen while its run still had room for it. */
  ghost predicate HasRoom(server: Snapshot, p: Pending) {
    p.run != 0 && p.envelope.files != [] ==>
      forall i :: 0 <= i < |server| && server[i].id == p.session ==>
        FileClarifications(server[i].messages, p.run) < MAX_ATTACHMENT_CLARIFICATIONS
  }

  ghost predicate Quota(v: World) {
    && WithinQuota(v.server)
    && (v.slot.frozen.Some? ==>
          && (v.slot.frozen.value.run == 0 ==> v.slot.frozen.value.envelope.kind.Initial?)
          && (!TookEffect(AcceptedInputs(v.server), v.serial) ==> HasRoom(v.server, v.slot.frozen.value)))
  }

  lemma QuotaApply(server: Snapshot, p: Pending, names: Names, serial: nat)
    requires WithinQuota(server) && HasRoom(server, p) && CanApply(server, p, names)
    requires p.run == 0 ==> p.envelope.kind.Initial?
    ensures WithinQuota(Apply(server, p, names, serial))
  {
    var server' := Apply(server, p, names, serial);
    forall i, run: Id | 0 <= i < |server'|
      ensures FileClarifications(server'[i].messages, run) <= MAX_ATTACHMENT_CLARIFICATIONS
    {
      FileClarificationsBatch(p, RunName(p, names), names.messages, serial, run);
      if i < |server| {
        assert FileClarifications(server[i].messages, run) <= MAX_ATTACHMENT_CLARIFICATIONS;
        FileClarificationsAppend(server[i].messages, BatchOf(p, RunName(p, names), names.messages, serial), run);
      }
    }
  }

  /** A fresh submission respects the quota that its snapshot shows. */
  lemma FreshRoom(snap: Snapshot, rejected: set<Id>, slot: Slot, inp: Inputs)
    requires Lineage(AcceptedInputs(snap), rejected) && RejectedIds(snap) <= rejected && WellNamed(snap)
    requires Sensible(snap, inp) && !ActivityOf(snap).Several?
    requires Admit(snap, ActivityOf(snap), slot, inp).action.Submit?
    ensures var p := Admit(snap, ActivityOf(snap), slot, inp).action.p;
            HasRoom(snap, p) && (p.run == 0 ==> p.envelope.kind.Initial?)
  {
    if ActivityOf(snap).Idle? && Transfer(snap).Some? {
      TransferFacts(snap, rejected);
    }
  }

  /** Progress on the server changes no count of file clarifications. */
  lemma QuotaEvolves(a: Snapshot, b: Snapshot)
    requires Evolves(a, b)
    ensures WithinQuota(a) <==> WithinQuota(b)
    ensures forall p :: HasRoom(a, p) <==> HasRoom(b, p)
  {
    forall i, run: Id | 0 <= i < |a|
      ensures FileClarifications(a[i].messages, run) == FileClarifications(b[i].messages, run) && a[i].id == b[i].id
    {
      SessionCounts(a[i], b[i], run);
    }
  }

  lemma QuotaNext(v: World, step: Step, v': World)
    requires Inv(v) && Quota(v) && Next(v, step, v')
    ensures Quota(v')
  {
    match step
    case Progresses(server) =>
      EvolvedInputs(v.server, server);
      QuotaEvolves(v.server, server);
    case Reconciles(inp, answer, effect, names) => QuotaReconciles(v, inp, answer, effect, names, v');
    case _ =>
  }

  lemma QuotaReconciles(v: World, inp: Inputs, answer: Answer, effect: bool, names: Names, v': World)
    requires Inv(v) && Quota(v) && ReconcilesStep(v, inp, answer, effect, names, v')
    ensures Quota(v')
  {
    var snap := v.reading.value;
    var d := Decide(snap, v.slot, inp);
    if !d.action.Submit? {
      QuietDecision(snap, v.slot, inp);
    } else {
      SubmitDecision(snap, v.slot, inp);
      EvolvedInputs(snap, v.server);
      EvolvedLive(snap, v.server);
      SubmittedFits(v, inp);
      hide Sensible;
      if Rebuilds(snap, v.slot) {
        FreshRoom(snap, RejectedIds(v.server), if v.slot.frozen.None? then v.slot else EMPTY, inp);
        QuotaEvolves(snap, v.server);
      }
      if effect {
        QuotaApply(v.server, d.action.p, names, v'.serial);
        AppliedInputs(v.server, d.action.p, names, v'.serial);
        assert TookEffect(AcceptedInputs(v'.server), v'.serial);
      }
    }
  }

  lemma {:induction false} QuotaRun(worlds: seq<World>, steps: seq<Step>, i: nat)
    requires Run(worlds, steps) && i < |worlds|
    ensures Quota(worlds[i])
  {
    if i > 0 {
      QuotaRun(worlds, steps, i - 1);
      InvRun(worlds, steps, i - 1);
      assert Next(worlds[i - 1], steps[i - 1], worlds[i]);
      QuotaNext(worlds[i - 1], steps[i - 1], worlds[i]);
    }
  }

  /** No run is ever sent more than 32 batches with files, so no index grows by more than 32 per run. */
  lemma FileBatchesBounded(worlds: seq<World>, steps: seq<Step>, i: nat, s: Session, env: Envelope)
    requires Run(worlds, steps) && i < |worlds| && s in worlds[i].server
    requires env.delivered == []
    ensures forall run: Id :: FileClarifications(s.messages, run) <= MAX_ATTACHMENT_CLARIFICATIONS
    ensures |WithIndex(s, env).delivered| <= MAX_ATTACHMENT_CLARIFICATIONS
  {
    QuotaRun(worlds, steps, i);
    var k :| 0 <= k < |worlds[i].server| && worlds[i].server[k] == s;
    forall run: Id ensures FileClarifications(s.messages, run) <= MAX_ATTACHMENT_CLARIFICATIONS {
      assert FileClarifications(worlds[i].server[k].messages, run) <= MAX_ATTACHMENT_CLARIFICATIONS;
    }
  }
}
