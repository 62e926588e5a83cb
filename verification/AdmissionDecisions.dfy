/** What one reconciliation decides (Engine.reconcile and its helpers, internal/service/engine.go:280-560), read off the
    fields of the snapshot. */
module AdmissionDecisions {
  import opened Collections
  import opened Admission

  /** A run that is neither completed nor failed nor cancelled. */
  ghost predicate UnfinishedAt(snap: Snapshot, i: int, j: int) {
    && 0 <= i < |snap| && 0 <= j < |snap[i].runs|
    && (snap[i].runs[j].status == Queued || snap[i].runs[j].status == Running || snap[i].runs[j].status == Finalizing)
  }

  ghost predicate OnlyUnfinished(snap: Snapshot, i: int, j: int) {
    UnfinishedAt(snap, i, j) && forall k, l :: UnfinishedAt(snap, k, l) ==> k == i && l == j
  }

  lemma UnfinishedIsLive(snap: Snapshot)
    ensures forall i, j :: UnfinishedAt(snap, i, j) <==> LiveAt(snap, i, j)
  {
  }

  lemma OnlyIsOne(snap: Snapshot, i: nat, j: nat)
    requires OnlyUnfinished(snap, i, j)
    ensures ActivityOf(snap) == Activity.One(i, j)
  {
    UnfinishedIsLive(snap);
    hide LiveAt;
    SameActivity(Activity.One(i, j), ActivityOf(snap), snap);
  }

  lemma NoneIsIdle(snap: Snapshot)
    requires forall i, j :: !UnfinishedAt(snap, i, j)
    ensures ActivityOf(snap) == Idle
  {
    UnfinishedIsLive(snap);
    hide LiveAt;
    SameActivity(Idle, ActivityOf(snap), snap);
  }

  /** A run is cancelled exactly when the channel is out of scope and it is the only unfinished one. */
  lemma CancelsExactly(snap: Snapshot, slot: Slot, inp: Inputs, session: Id, run: Id)
    ensures Decide(snap, slot, inp).action == CancelRun(session, run) <==>
            !inp.inScope && exists i, j ::
              OnlyUnfinished(snap, i, j) && snap[i].id == session && snap[i].runs[j].id == run
  {
    UnfinishedIsLive(snap);
    var a := ActivityOf(snap);
    hide Accepted, Superseded, LiveAt, Batch, FreshPending;
    forall i, j | OnlyUnfinished(snap, i, j) ensures a == Activity.One(i, j) {
      OnlyIsOne(snap, i, j);
    }
    if a.One? {
      assert forall k, l :: UnfinishedAt(snap, k, l) ==> LiveAt(snap, k, l);
      assert OnlyUnfinished(snap, a.s, a.r);
    }
  }

  /** The inputs with files that a run has been sent while it was running. */
  ghost function FileInputs(messages: seq<Message>, run: Id): set<nat> {
    set j: nat | j < |messages| && messages[j].user && messages[j].runId == run && messages[j].contract.Some?
                 && messages[j].contract.value.kind == Clarification && messages[j].contract.value.files != []
  }

  lemma {:induction false} FileInputsCounted(messages: seq<Message>, run: Id)
    ensures FileClarifications(messages, run) == |FileInputs(messages, run)|
  {
    if messages == [] {
      assert FileInputs(messages, run) == {};
    } else {
      var last := |messages| - 1;
      FileInputsCounted(messages[..last], run);
      assert forall j: nat :: j < last ==> messages[..last][j] == messages[j];
      if IsFileClarification(messages[last], run) {
        assert FileInputs(messages, run) == FileInputs(messages[..last], run) + {last};
      } else {
        assert FileInputs(messages, run) == FileInputs(messages[..last], run);
      }
    }
  }

  /** The thread's last run, 0 for none. */
  ghost function LastRun(snap: Snapshot): Id {
    if snap == [] || snap[|snap| - 1].runs == [] then 0
    else var runs := snap[|snap| - 1].runs; runs[|runs| - 1].id
  }

  /** With a run going on, ordinary triggers are sent to it exactly when it is running under the workflow's own revision
      and files can still be taken into it; else nothing is. */
  lemma ClarifiesExactly(snap: Snapshot, slot: Slot, inp: Inputs, i: nat, j: nat, p: Pending)
    requires inp.inScope && inp.published && !inp.draining && slot.frozen.None? && OnlyUnfinished(snap, i, j)
    ensures Decide(snap, slot, inp).action == Submit(p) <==>
            var s, r, b := snap[i], snap[i].runs[j], inp.ordinary;
            && r.status == Running && s.revision == inp.revision
            && b.envelope.anchor != 0 && !b.failed
            && (b.envelope.files != [] ==> inp.sandbox && |FileInputs(s.messages, r.id)| < 32)
            && p == Pending(inp.revision, b.envelope.(kind := Clarification), s.id, r.id, LastRun(snap), b.texts)
  {
    OnlyIsOne(snap, i, j);
    FileInputsCounted(snap[i].messages, snap[i].runs[j].id);
    hide FileClarifications, FileInputs, Reusable, OnlyUnfinished, UnfinishedAt;
  }

  /** With none going on, the first clarification that missed its run is sent before any ordinary trigger, and a run is
      started exactly when there is something to send and room for it. */
  lemma StartsExactly(snap: Snapshot, slot: Slot, inp: Inputs)
    requires inp.inScope && inp.published && !inp.draining && slot.frozen.None?
    requires forall i, j :: !UnfinishedAt(snap, i, j)
    ensures var d, t := Decide(snap, slot, inp), Transfer(snap);
            var anew := snap == [] || !Reusable(snap[|snap| - 1], inp.revision);
            var b := if t.None? then inp.ordinary else if anew then inp.restored
                     else Built(t.value.envelope.(revision := inp.revision), t.value.texts, false);
            && (d.action.Submit? <==> inp.room && b.envelope.anchor != 0 && !b.failed)
            && (d.action == Reject(b.envelope) <==> b.envelope.anchor != 0 && b.failed)
            && (d.asked <==> b.envelope.anchor != 0 && !b.failed)
            && d.slot.queued == |b.envelope.triggers|
            && (d.action.Submit? ==>
                  var p := d.action.p;
                  && p.run == 0 && p.revision == inp.revision && p.texts == b.texts && d.slot.frozen == Some(p)
                  && p.predecessor == (if t.None? then LastRun(snap) else t.value.id)
                  && p.session == (if anew then 0 else snap[|snap| - 1].id)
                  && p.envelope == b.envelope.(previousIndex := p.envelope.previousIndex,
                                               delivered := p.envelope.delivered)
                  && (anew ==> p.envelope == b.envelope))
  {
    NoneIsIdle(snap);
    hide UnfinishedAt, Reusable, Transfer, DeliveredBatches;
  }

  /** A clarification that its run completed without taking, unless some input already follows it. */
  ghost predicate MissedAt(snap: Snapshot, i: int, j: int) {
    && 0 <= i < |snap| && 0 <= j < |snap[i].messages|
    && var s, m := snap[i], snap[i].messages[j];
       && m.user && m.delivery == Rejected && m.fault == RunFinishedFirst
       && m.contract.Some? && m.contract.value.kind == Clarification
       && (exists r :: r in s.runs && r.id == m.runId && r.status == Completed && r.stop != TokenLimit)
       && forall k, l :: 0 <= k < |snap| && 0 <= l < |snap[k].messages| && snap[k].messages[l].contract.Some? ==>
            snap[k].messages[l].contract.value.predecessor != m.id
  }

  lemma MissedIsMissed(snap: Snapshot, i: nat, j: nat)
    requires i < |snap| && j < |snap[i].messages|
    ensures MissedAt(snap, i, j) <==> Missed(snap[i], j, Predecessors(snap))
  {
    var m := snap[i].messages[j];
    assert m.id in Predecessors(snap) <==>
      exists k, l :: 0 <= k < |snap| && 0 <= l < |snap[k].messages| && snap[k].messages[l].contract.Some?
        && snap[k].messages[l].contract.value.predecessor == m.id
    by {
      if m.id in Predecessors(snap) {
        var s, n :| s in snap && n in s.messages && n.contract.Some? && n.contract.value.predecessor == m.id;
        var k :| 0 <= k < |snap| && snap[k] == s;
        var l :| 0 <= l < |s.messages| && s.messages[l] == n;
      }
    }
  }

  /** The first of them in the order of the sessions and their messages. */
  ghost predicate FirstMissedAt(snap: Snapshot, i: int, j: int) {
    FirstFrom(snap, 0, i, j)
  }

  ghost predicate FirstFrom(snap: Snapshot, n: nat, i: int, j: int) {
    && MissedAt(snap, i, j) && n <= i
    && forall k, l :: MissedAt(snap, k, l) && n <= k ==> k > i || (k == i && l >= j)
  }

  /** A transfer is due exactly when there is such a clarification. It repeats the first one's envelope under that
      input's name, with its own text and the rejected items right before it that belong to the same run. */
  lemma TransferExactly(snap: Snapshot)
    ensures Transfer(snap).None? <==> forall i, j :: !MissedAt(snap, i, j)
    ensures forall i, j :: FirstMissedAt(snap, i, j) ==>
              var m, t := snap[i].messages[j], Transfer(snap);
              && m.contract.Some? && t.Some? && t.value.id == m.id
              && t.value.envelope == m.contract.value.(kind := Initial, predecessor := m.id)
              && SavedText(snap[i].messages, j, m.runId, t.value.texts)
  {
    hide MissedAt, Missed, Predecessors, TransferOf;
    FirstTransfer(snap, 0);
    forall i, j | MissedAt(snap, i, j) ensures i >= 0 {
      InRange(snap, i, j);
    }
    forall i, j | FirstMissedAt(snap, i, j)
      ensures 0 <= i < |snap| && 0 <= j < |snap[i].messages|
      ensures var m, t := snap[i].messages[j], Transfer(snap);
              && m.contract.Some? && t.Some? && t.value.id == m.id
              && t.value.envelope == m.contract.value.(kind := Initial, predecessor := m.id)
              && SavedText(snap[i].messages, j, m.runId, t.value.texts)
    {
      InRange(snap, i, j);
      MissedIsMissed(snap, i, j);
      TransferOfMeans(snap[i], j, Predecessors(snap));
    }
  }

  lemma InRange(snap: Snapshot, i: int, j: int)
    requires MissedAt(snap, i, j)
    ensures 0 <= i < |snap| && 0 <= j < |snap[i].messages|
  {
  }

  lemma {:induction false} FirstTransfer(snap: Snapshot, n: nat)
    requires n <= |snap|
    ensures var t := TransferFrom(snap, n, Predecessors(snap));
            && (t.None? <==> forall i, j :: MissedAt(snap, i, j) ==> i < n)
            && forall i, j :: FirstFrom(snap, n, i, j) ==>
                 Missed(snap[i], j, Predecessors(snap)) && t == Some(TransferOf(snap[i], j, Predecessors(snap)))
    decreases |snap| - n
  {
    hide MissedAt, Missed, Predecessors, TransferOf;
    var followed := Predecessors(snap);
    forall i, j | MissedAt(snap, i, j)
      ensures 0 <= i < |snap| && 0 <= j < |snap[i].messages| && Missed(snap[i], j, followed)
    {
      InRange(snap, i, j);
      MissedIsMissed(snap, i, j);
    }
    if n < |snap| {
      FirstTransfer(snap, n + 1);
      forall j: nat | j < |snap[n].messages| ensures MissedAt(snap, n, j) <==> Missed(snap[n], j, followed) {
        MissedIsMissed(snap, n, j);
      }
      match FirstMissed(snap[n], 0, followed)
      case None =>
      case Some(j) => FirstMissedIsFirst(snap[n], 0, followed);
    }
  }

  lemma {:induction false} FirstMissedIsFirst(s: Session, n: nat, followed: set<Id>)
    requires n <= |s.messages| && FirstMissed(s, n, followed).Some?
    ensures forall k: nat :: n <= k < FirstMissed(s, n, followed).value ==> !Missed(s, k, followed)
    decreases |s.messages| - n
  {
    hide Missed;
    if !Missed(s, n, followed) {
      FirstMissedIsFirst(s, n + 1, followed);
    }
  }

  /** The texts from the earliest item on that the server rejected together with the one at `j`. */
  ghost predicate SavedText(messages: seq<Message>, j: int, run: Id, texts: seq<string>)
    requires 0 <= j < |messages|
  {
    && 0 < |texts| <= j + 1
    && (forall k :: 0 <= k < |texts| ==> texts[k] == messages[j + 1 - |texts| + k].text)
    && (forall k :: j + 1 - |texts| <= k < j ==>
          && messages[k].runId == run && messages[k].user && messages[k].delivery == Rejected
          && messages[k].contract.None?)
    && (|texts| <= j ==>
          var m := messages[j - |texts|];
          m.runId != run || !m.user || m.delivery != Rejected || m.contract.Some?)
  }

  lemma TransferOfMeans(s: Session, j: nat, followed: set<Id>)
    requires j < |s.messages| && Missed(s, j, followed)
    ensures var m, t := s.messages[j], TransferOf(s, j, followed);
            && m.contract.Some? && t.id == m.id
            && t.envelope == m.contract.value.(kind := Initial, predecessor := m.id)
            && SavedText(s.messages, j, m.runId, t.texts)
  {
    var m := s.messages[j];
    var start := BatchStart(s.messages, j, m.runId);
    assert forall k :: start <= k < j ==> SameBatch(s.messages[k], m.runId);
    assert start > 0 ==> !SameBatch(s.messages[start - 1], m.runId);
  }

  ghost predicate IsLastPrepared(runs: seq<AgentRun>, i: int) {
    0 <= i < |runs| && runs[i].prepared && forall k :: i < k < |runs| ==> !runs[k].prepared
  }

  /** A continued session links its next run to the index of the last run whose preparation completed, with the file
      batches delivered to that run after it had begun. */
  lemma LinksExactly(s: Session, env: Envelope)
    ensures (forall r :: r in s.runs ==> !r.prepared) ==> WithIndex(s, env) == env
    ensures forall i :: IsLastPrepared(s.runs, i) ==>
              var e := WithIndex(s, env);
              && e == env.(previousIndex := s.runs[i].id, delivered := e.delivered) && env.delivered <= e.delivered
              && forall a :: a in e.delivered[|env.delivered|..] <==>
                   exists m :: m in s.messages && m.user && m.runId == s.runs[i].id && m.delivery == Delivered
                     && m.contract.Some? && m.contract.value.kind == Clarification && m.contract.value.files != []
                     && m.contract.value.anchor == a
  {
    forall i | IsLastPrepared(s.runs, i) ensures LastPrepared(s.runs) == Some(s.runs[i]) {
      LastPreparedIsLast(s.runs, i);
    }
    hide LastPrepared;
    if LastPrepared(s.runs).Some? {
      var anchors := DeliveredBatches(s.messages, LastPrepared(s.runs).value.id);
      assert WithIndex(s, env).delivered[|env.delivered|..] == anchors;
    }
  }

  lemma {:induction false} LastPreparedIsLast(runs: seq<AgentRun>, i: nat)
    requires IsLastPrepared(runs, i)
    ensures LastPrepared(runs) == Some(runs[i])
  {
    if i < |runs| - 1 {
      LastPreparedIsLast(runs[..|runs| - 1], i);
    }
  }
}
