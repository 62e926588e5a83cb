/**
  Runs of the admission protocol of one thread: reconciliations with every outcome of a
  submit call, connector crashes, and the agent server working on its own.

  Assumptions about the environment: the connector is the only initiator of runs, one
  worker at a time reconciles the thread, a snapshot is complete, a submit call takes
  effect before it returns or never, and settled deliveries and finished runs are final.
 */
module AdmissionRuns {
  import opened Collections
  import opened Admission

  // ---------------------------------------------------------------------
  // The agent server
  // ---------------------------------------------------------------------

  /** The names and limits that the server chooses when it accepts a submission. */
  datatype Names = Names(session: Id, run: Id, messages: seq<Id>, maxTokens: nat)

  /** The items of an accepted batch: the metadata travels on the last one. */
  function BatchOf(p: Pending, run: Id, ids: seq<Id>, serial: nat): seq<Message>
    requires |ids| == |p.texts|
  {
    seq(|ids|, k requires 0 <= k < |ids| =>
      Message(ids[k], run, true, p.texts[k], if k == |ids| - 1 then Some(p.envelope) else None, Undecided, NoFault,
          serial))
  }

  function NewRun(id: Id): AgentRun {
    AgentRun(id, Queued, NoStop, NoError, false)
  }

  function Grown(s: Session, p: Pending, names: Names, serial: nat): Session
    requires |names.messages| == |p.texts|
  {
    if s.id != p.session then s
    else if p.run != 0 then s.(messages := s.messages + BatchOf(p, p.run, names.messages, serial))
    else s.(runs := s.runs + [NewRun(names.run)],
        messages := s.messages + BatchOf(p, names.run, names.messages, serial))
  }

  function Apply(server: Snapshot, p: Pending, names: Names, serial: nat): Snapshot
    requires |names.messages| == |p.texts|
  {
    if p.session != 0 then seq(|server|, i requires 0 <= i < |server| => Grown(server[i], p, names, serial))
    else server + [Session(names.session, p.envelope.revision, false, true, 0, names.maxTokens,
                           [NewRun(names.run)], BatchOf(p, names.run, names.messages, serial))]
  }

  predicate RunsIn(s: Session, run: Id) {
    exists r :: r in s.runs && r.id == run && r.status.Running?
  }

  /** When the server may accept a submission, and that it names things freshly. */
  ghost predicate CanApply(server: Snapshot, p: Pending, names: Names) {
    && |names.messages| == |p.texts| > 0
    && 0 !in names.messages
    && (forall s, m :: s in server && m in s.messages ==> m.id !in names.messages)
    && names.run != 0 && names.session != 0
    && (forall s :: s in server ==> s.id != names.session)
    && (p.session != 0 ==> exists s :: s in server && s.id == p.session && (p.run != 0 ==> RunsIn(s, p.run)))
    && (p.session == 0 ==> p.run == 0)
  }

  predicate MessageEvolves(a: Message, b: Message) {
    && b == a.(delivery := b.delivery, fault := b.fault)
    && (!a.delivery.Undecided? ==> b == a)
  }

  predicate RunEvolves(a: AgentRun, b: AgentRun) {
    a.id == b.id && (Terminal(a.status) ==> b.status == a.status && b.stop == a.stop)
  }

  /** What may happen to a session while no submission arrives: runs progress, inputs settle, agents speak. */
  ghost predicate SessionEvolves(a: Session, b: Session) {
    && a.id == b.id && a.revision == b.revision
    && |a.runs| == |b.runs| && (forall i :: 0 <= i < |a.runs| ==> RunEvolves(a.runs[i], b.runs[i]))
    && |a.messages| <= |b.messages|
    && (forall i :: 0 <= i < |a.messages| ==> MessageEvolves(a.messages[i], b.messages[i]))
    && (forall i :: |a.messages| <= i < |b.messages| ==> !b.messages[i].user && b.messages[i].contract.None?)
  }

  ghost predicate Evolves(a: Snapshot, b: Snapshot) {
    |a| == |b| && forall i :: 0 <= i < |a| ==> SessionEvolves(a[i], b[i])
  }

  lemma EvolvesReflexive(a: Snapshot)
    ensures Evolves(a, a)
  {
  }

  lemma EvolvesTransitive(a: Snapshot, b: Snapshot, c: Snapshot)
    requires Evolves(a, b) && Evolves(b, c)
    ensures Evolves(a, c)
  {
    forall i | 0 <= i < |a| ensures SessionEvolves(a[i], c[i]) {
      SessionEvolvesTransitive(a[i], b[i], c[i]);
    }
  }

  lemma SessionEvolvesTransitive(a: Session, b: Session, c: Session)
    requires SessionEvolves(a, b) && SessionEvolves(b, c)
    ensures SessionEvolves(a, c)
  {
    forall i | 0 <= i < |a.runs| ensures RunEvolves(a.runs[i], c.runs[i]) {
      assert RunEvolves(a.runs[i], b.runs[i]) && RunEvolves(b.runs[i], c.runs[i]);
    }
    forall i | 0 <= i < |a.messages| ensures MessageEvolves(a.messages[i], c.messages[i]) {
      assert MessageEvolves(a.messages[i], b.messages[i]) && MessageEvolves(b.messages[i], c.messages[i]);
    }
    forall i | |a.messages| <= i < |c.messages| ensures !c.messages[i].user && c.messages[i].contract.None? {
      if i < |b.messages| {
        assert MessageEvolves(b.messages[i], c.messages[i]);
      }
    }
  }

  // ---------------------------------------------------------------------
  // Runs
  // ---------------------------------------------------------------------

  datatype World = World(
    server: Snapshot,
    slot: Slot,
    serial: nat,                  // the submission that the slot holds frozen
    count: nat,                   // submissions frozen so far
    log: map<nat, seq<string>>,   // the texts of each frozen submission
    reading: Option<Snapshot>)    // the snapshot of the reconciliation in progress

  datatype Step =
    | Reads
    | Progresses(server: Snapshot)
    | Crashes
    | Reconciles(inp: Inputs, answer: Answer, effect: bool, names: Names)

  /** What the message builder guarantees about its two answers (module `Selection`). */
  ghost predicate Sensible(snap: Snapshot, inp: Inputs) {
    && (inp.ordinary.envelope.anchor != 0 ==>
          var e := inp.ordinary.envelope;
          && e.kind.Initial? && e.predecessor == 0 && e.triggers != [] && e.triggers[0] == e.anchor
          && e.previousIndex == 0 && e.delivered == []
          && (forall id :: id in e.triggers ==> id !in KnownTriggers(snap)))
    && (inp.restored.envelope.anchor != 0 && Transfer(snap).Some? ==>
          var e, t := inp.restored.envelope, Transfer(snap).value.envelope;
          && e.kind == t.kind && e.predecessor == t.predecessor && e.triggers == t.triggers && e.anchor == t.anchor
          && e.previousIndex == 0 && e.delivered == [])
  }

  /** The slot holds no submission that is still open, so that this reconciliation builds one afresh. */
  ghost predicate Rebuilds(snap: Snapshot, slot: Slot) {
    var a := ActivityOf(snap);
    slot.frozen.None? || Accepted(slot.frozen.value, snap) || (!a.Several? && Superseded(slot.frozen.value, snap, a))
  }

  ghost predicate ReadsStep(v: World, v': World) {
    v.reading.None? && v' == v.(reading := Some(v.server))
  }

  ghost predicate ProgressesStep(v: World, server: Snapshot, v': World) {
    Evolves(v.server, server) && v' == v.(server := server)
  }

  ghost predicate CrashesStep(v: World, v': World) {
    v' == v.(slot := EMPTY, reading := None)
  }

  ghost predicate ReconcilesStep(v: World, inp: Inputs, answer: Answer, effect: bool, names: Names, v': World) {
    && v.reading.Some?
    && Sensible(v.reading.value, inp)
    && var snap := v.reading.value;
       var d := Decide(snap, v.slot, inp);
       if !d.action.Submit? then
         !effect && v' == v.(slot := d.slot, reading := None)
       else
         var p := d.action.p;
         var anew := Rebuilds(snap, v.slot);
         var serial := if anew then v.count + 1 else v.serial;
         && (effect ==> CanApply(v.server, p, names) && (answer.Taken? || answer.Unanswered?))
         && (answer.Taken? ==> effect)
         && v' == v.(server := if effect then Apply(v.server, p, names, serial) else v.server,
                     slot := AfterSubmit(d.slot, answer),
                     serial := serial,
                     count := if anew then v.count + 1 else v.count,
                     log := if anew then v.log[serial := p.texts] else v.log,
                     reading := None)
  }

  ghost predicate Next(v: World, step: Step, v': World) {
    match step
    case Reads => ReadsStep(v, v')
    case Progresses(server) => ProgressesStep(v, server, v')
    case Crashes => CrashesStep(v, v')
    case Reconciles(inp, answer, effect, names) => ReconcilesStep(v, inp, answer, effect, names, v')
  }

  ghost predicate Init(v: World) {
    v.server == [] && v.slot == EMPTY && v.serial == v.count == 0 && v.log == map[] && v.reading.None?
  }

  ghost predicate Run(worlds: seq<World>, steps: seq<Step>) {
    && |worlds| == |steps| + 1
    && Init(worlds[0])
    && forall i :: 0 <= i < |steps| ==> Next(worlds[i], steps[i], worlds[i + 1])
  }

  // ---------------------------------------------------------------------
  // What history records
  // ---------------------------------------------------------------------

  /** An accepted input, without what the server decides about it later. */
  datatype Input = Input(id: Id, run: Id, serial: nat, envelope: Envelope)

  function InputOf(m: Message): Input
    requires m.contract.Some?
  {
    Input(m.id, m.runId, m.serial, m.contract.value)
  }

  ghost function AcceptedInputs(snap: Snapshot): set<Input> {
    set s, m | s in snap && m in s.messages && IsContract(m) :: InputOf(m)
  }

  ghost function RejectedIds(snap: Snapshot): set<Id> {
    set s, m | s in snap && m in s.messages && IsContract(m) && m.delivery.Rejected? :: m.id
  }

  predicate Share(a: seq<Id>, b: seq<Id>) {
    exists id :: id in a && id in b
  }

  /** Whether an envelope may still enter a history. */
  ghost predicate Admissible(inputs: set<Input>, rejected: set<Id>, e: Envelope) {
    && e.anchor != 0 && e.anchor in e.triggers
    && (e.kind.Clarification? ==> e.predecessor == 0)
    && (e.predecessor == 0 ==> forall a :: a in inputs ==> !Share(a.envelope.triggers, e.triggers))
    && (e.predecessor != 0 ==>
         Follows(inputs, rejected, e) && forall a :: a in inputs ==> a.envelope.predecessor != e.predecessor)
  }

  /** A descendant repeats exactly the triggers of the rejected clarification it names. */
  ghost predicate Follows(inputs: set<Input>, rejected: set<Id>, e: Envelope) {
    exists a :: a in inputs && a.id == e.predecessor && a.id in rejected
      && a.envelope.kind.Clarification? && a.envelope.predecessor == 0
      && a.envelope.triggers == e.triggers && a.envelope.anchor == e.anchor
  }

  ghost predicate Lineage(inputs: set<Input>, rejected: set<Id>) {
    && (forall a, b :: a in inputs && b in inputs && a.id == b.id ==> a == b)
    && (forall a, b :: a in inputs && b in inputs && a.serial == b.serial ==> a == b)
    && (forall a :: a in inputs ==> a.id != 0 && a.envelope.anchor != 0 && a.envelope.anchor in a.envelope.triggers)
    && (forall a :: a in inputs && a.envelope.kind.Clarification? ==> a.envelope.predecessor == 0)
    && (forall a, b :: a in inputs && b in inputs && a.envelope.predecessor == 0 && b.envelope.predecessor == 0 ==>
          Share(a.envelope.triggers, b.envelope.triggers) ==> a == b)
    && (forall a :: a in inputs && a.envelope.predecessor != 0 ==> Follows(inputs, rejected, a.envelope))
    && (forall a, b :: a in inputs && b in inputs && a.envelope.predecessor != 0 ==>
          a.envelope.predecessor == b.envelope.predecessor ==> a == b)
  }

  lemma LineageExtends(inputs: set<Input>, rejected: set<Id>, x: Input)
    requires Lineage(inputs, rejected) && Admissible(inputs, rejected, x.envelope)
    requires x.id != 0 && forall a :: a in inputs ==> a.id != x.id && a.serial != x.serial
    ensures Lineage(inputs + {x}, rejected)
  {
    LineageGrows(inputs, rejected, inputs + {x}, rejected);
    hide Follows, Share;
    OneShares(inputs, rejected, x);
  }

  /** The new input shares no trigger with another first one, and follows no input that is already followed. */
  lemma OneShares(inputs: set<Input>, rejected: set<Id>, x: Input)
    requires Admissible(inputs, rejected, x.envelope)
    ensures x.envelope.predecessor == 0 ==>
              forall a :: a in inputs ==>
                  !Share(a.envelope.triggers, x.envelope.triggers) && !Share(x.envelope.triggers, a.envelope.triggers)
    ensures x.envelope.predecessor != 0 ==>
              Follows(inputs, rejected, x.envelope) &&
                  forall a :: a in inputs ==> a.envelope.predecessor != x.envelope.predecessor
  {
    hide Follows;
  }

  lemma LineageGrows(inputs: set<Input>, rejected: set<Id>, more: set<Input>, rejected': set<Id>)
    requires inputs <= more && rejected <= rejected'
    ensures forall e :: Follows(inputs, rejected, e) ==> Follows(more, rejected', e)
  {
  }

  /** The heart of at-most-once: any two inputs that share a trigger, bar the same one, include a rejected one. */
  lemma SharedTriggerRejected(inputs: set<Input>, rejected: set<Id>, a: Input, b: Input)
    requires Lineage(inputs, rejected) && a in inputs && b in inputs && a != b
    requires Share(a.envelope.triggers, b.envelope.triggers)
    ensures a.id in rejected || b.id in rejected
    ensures a.envelope.predecessor == b.id || b.envelope.predecessor == a.id
  {
    var a' := Origin(inputs, rejected, a);
    var b' := Origin(inputs, rejected, b);
    assert a' == b';
  }

  /** The input that first took over a trigger batch. */
  ghost function Origin(inputs: set<Input>, rejected: set<Id>, a: Input): (o: Input)
    requires Lineage(inputs, rejected) && a in inputs
    ensures o in inputs && o.envelope.predecessor == 0 && o.envelope.triggers == a.envelope.triggers
    ensures o == a || (o.id == a.envelope.predecessor && o.id in rejected)
    ensures a.envelope.predecessor != 0 ==> o.id == a.envelope.predecessor
  {
    if a.envelope.predecessor == 0 then a
    else
      assert Follows(inputs, rejected, a.envelope);
      var o :| o in inputs && o.id == a.envelope.predecessor && o.id in rejected
        && o.envelope.kind.Clarification? && o.envelope.predecessor == 0
        && o.envelope.triggers == a.envelope.triggers && o.envelope.anchor == a.envelope.anchor;
      o
  }

  // ---------------------------------------------------------------------
  // What steps do to history
  // ---------------------------------------------------------------------

  ghost predicate Contains(snap: Snapshot, m: Message) {
    exists s :: s in snap && m in s.messages
  }

  lemma EvolvedMessage(a: Snapshot, b: Snapshot, m: Message) returns (m': Message)
    requires Evolves(a, b) && Contains(a, m)
    ensures Contains(b, m') && MessageEvolves(m, m')
  {
    var s :| s in a && m in s.messages;
    var i :| 0 <= i < |a| && a[i] == s;
    var j :| 0 <= j < |s.messages| && s.messages[j] == m;
    assert SessionEvolves(a[i], b[i]);
    m' := b[i].messages[j];
  }

  lemma EarlierMessage(a: Snapshot, b: Snapshot, m': Message) returns (m: Message)
    requires Evolves(a, b) && Contains(b, m') && m'.contract.Some?
    ensures Contains(a, m) && MessageEvolves(m, m')
  {
    var s :| s in b && m' in s.messages;
    var i :| 0 <= i < |b| && b[i] == s;
    var j :| 0 <= j < |s.messages| && s.messages[j] == m';
    assert SessionEvolves(a[i], b[i]);
    assert j < |a[i].messages|;
    m := a[i].messages[j];
  }

  lemma EvolvedInputs(a: Snapshot, b: Snapshot)
    requires Evolves(a, b)
    ensures AcceptedInputs(a) == AcceptedInputs(b)
    ensures RejectedIds(a) <= RejectedIds(b)
  {
    forall x | x in AcceptedInputs(a) ensures x in AcceptedInputs(b) {
      var s, m :| s in a && m in s.messages && IsContract(m) && InputOf(m) == x;
      var m' := EvolvedMessage(a, b, m);
      assert IsContract(m') && InputOf(m') == x;
    }
    forall x | x in AcceptedInputs(b) ensures x in AcceptedInputs(a) {
      var s, m' :| s in b && m' in s.messages && IsContract(m') && InputOf(m') == x;
      var m := EarlierMessage(a, b, m');
      assert IsContract(m) && InputOf(m) == x;
    }
    forall id | id in RejectedIds(a) ensures id in RejectedIds(b) {
      var s, m :| s in a && m in s.messages && IsContract(m) && m.delivery.Rejected? && m.id == id;
      var m' := EvolvedMessage(a, b, m);
    }
  }

  lemma BatchContract(p: Pending, run: Id, ids: seq<Id>, serial: nat)
    requires |ids| == |p.texts| > 0
    ensures var batch := BatchOf(p, run, ids, serial);
            && batch[|ids| - 1] in batch && IsContract(batch[|ids| - 1])
            && InputOf(batch[|ids| - 1]) == Input(ids[|ids| - 1], run, serial, p.envelope)
            && (forall m :: m in batch && IsContract(m) ==> m == batch[|ids| - 1])
            && (forall m :: m in batch ==> m.id in ids && !m.delivery.Rejected?)
  {
  }

  function RunName(p: Pending, names: Names): Id {
    if p.run != 0 then p.run else names.run
  }

  lemma AppliedInputs(server: Snapshot, p: Pending, names: Names, serial: nat)
    requires CanApply(server, p, names)
    ensures var x := Input(names.messages[|names.messages| - 1], RunName(p, names), serial, p.envelope);
            && AcceptedInputs(Apply(server, p, names, serial)) == AcceptedInputs(server) + {x}
            && (forall a :: a in AcceptedInputs(server) ==> a.id != x.id)
    ensures RejectedIds(Apply(server, p, names, serial)) == RejectedIds(server)
  {
    var server' := Apply(server, p, names, serial);
    var run := RunName(p, names);
    var batch := BatchOf(p, run, names.messages, serial);
    var x := Input(names.messages[|names.messages| - 1], run, serial, p.envelope);
    BatchContract(p, run, names.messages, serial);
    AppliedMessages(server, p, names, serial);
    forall a | a in AcceptedInputs(server) ensures a in AcceptedInputs(server') && a.id != x.id {
      var s, m :| s in server && m in s.messages && IsContract(m) && InputOf(m) == a;
      var s' :| s' in server' && m in s'.messages;
    }
    forall a | a in AcceptedInputs(server') ensures a in AcceptedInputs(server) || a == x {
      var s', m :| s' in server' && m in s'.messages && IsContract(m) && InputOf(m) == a;
      if m !in batch {
        var s :| s in server && m in s.messages;
      }
    }
    assert x in AcceptedInputs(server') by {
      var s' :| s' in server' && batch[|batch| - 1] in s'.messages;
    }
    forall id | id in RejectedIds(server) ensures id in RejectedIds(server') {
      var s, m :| s in server && m in s.messages && IsContract(m) && m.delivery.Rejected? && m.id == id;
      var s' :| s' in server' && m in s'.messages;
    }
    forall id | id in RejectedIds(server') ensures id in RejectedIds(server) {
      var s', m :| s' in server' && m in s'.messages && IsContract(m) && m.delivery.Rejected? && m.id == id;
      assert m !in batch;
      var s :| s in server && m in s.messages;
    }
  }

  /** A submission adds exactly its batch to what the server holds. */
  lemma AppliedMessages(server: Snapshot, p: Pending, names: Names, serial: nat)
    requires CanApply(server, p, names)
    ensures var batch := BatchOf(p, RunName(p, names), names.messages, serial);
            var server' := Apply(server, p, names, serial);
            && (forall s, m :: s in server && m in s.messages ==> exists s' :: s' in server' && m in s'.messages)
            && (forall m :: m in batch ==> exists s' :: s' in server' && m in s'.messages)
            && (forall s', m :: s' in server' && m in s'.messages && m !in batch ==>
                 exists s :: s in server && m in s.messages)
  {
    var server' := Apply(server, p, names, serial);
    var batch := BatchOf(p, RunName(p, names), names.messages, serial);
    forall s, m | s in server && m in s.messages ensures exists s' :: s' in server' && m in s'.messages {
      var i :| 0 <= i < |server| && server[i] == s;
      assert server'[i] in server' && m in server'[i].messages;
    }
    forall m | m in batch ensures exists s' :: s' in server' && m in s'.messages {
      if p.session == 0 {
        assert server'[|server|] in server' && m in server'[|server|].messages;
      } else {
        var s :| s in server && s.id == p.session;
        var i :| 0 <= i < |server| && server[i] == s;
        assert server'[i] == Grown(s, p, names, serial);
        assert server'[i] in server' && m in server'[i].messages;
      }
    }
    forall s', m | s' in server' && m in s'.messages && m !in batch ensures exists s :: s in server && m in s.messages {
      var i :| 0 <= i < |server'| && server'[i] == s';
      if i < |server| {
        assert server[i] in server && m in server[i].messages;
      }
    }
  }

  // ---------------------------------------------------------------------
  // Live runs
  // ---------------------------------------------------------------------

  ghost predicate IdleServer(snap: Snapshot) {
    forall i, j :: !LiveAt(snap, i, j)
  }

  ghost predicate OneLive(snap: Snapshot) {
    forall i, j, i', j' :: LiveAt(snap, i, j) && LiveAt(snap, i', j') ==> i == i' && j == j'
  }

  ghost predicate WellNamed(snap: Snapshot) {
    && (forall i, j :: 0 <= i < j < |snap| ==> snap[i].id != snap[j].id)
    && (forall i :: 0 <= i < |snap| ==> snap[i].id != 0)
    && (forall i, j :: 0 <= i < |snap| && 0 <= j < |snap[i].runs| ==> snap[i].runs[j].id != 0)
  }

  lemma EvolvedLive(a: Snapshot, b: Snapshot)
    requires Evolves(a, b)
    ensures forall i, j :: LiveAt(b, i, j) ==> LiveAt(a, i, j)
    ensures WellNamed(a) <==> WellNamed(b)
  {
    forall i | 0 <= i < |b|
      ensures b[i].id == a[i].id && |b[i].runs| == |a[i].runs|
      ensures forall j :: 0 <= j < |b[i].runs| ==> RunEvolves(a[i].runs[j], b[i].runs[j])
    {
      assert SessionEvolves(a[i], b[i]);
    }
    forall i, j | LiveAt(b, i, j) ensures LiveAt(a, i, j) {
      assert RunEvolves(a[i].runs[j], b[i].runs[j]);
    }
  }

  /** A clarification starts no run; any other submission starts exactly one. */
  lemma AppliedLive(server: Snapshot, p: Pending, names: Names, serial: nat)
    requires CanApply(server, p, names) && WellNamed(server) && OneLive(server)
    requires p.run == 0 ==> IdleServer(server)
    ensures OneLive(Apply(server, p, names, serial)) && WellNamed(Apply(server, p, names, serial))
  {
    var server' := Apply(server, p, names, serial);
    assert forall i :: 0 <= i < |server| ==> server[i] in server;
    if p.run != 0 {
      assert forall i, j :: LiveAt(server', i, j) ==> LiveAt(server, i, j);
    } else if p.session != 0 {
      forall i, j | LiveAt(server', i, j) ensures server[i].id == p.session && j == |server[i].runs| {
        assert server'[i] == Grown(server[i], p, names, serial);
        assert !LiveAt(server, i, j);
      }
    } else {
      forall i, j | LiveAt(server', i, j) ensures i == |server| && j == 0 {
        assert !LiveAt(server, i, j);
      }
    }
  }

  // ---------------------------------------------------------------------
  // The invariant
  // ---------------------------------------------------------------------

  ghost predicate TookEffect(inputs: set<Input>, serial: nat) {
    exists a :: a in inputs && a.serial == serial
  }

  /** The frozen submission is either in history, unchanged, or may still enter it. */
  ghost predicate SlotFits(inputs: set<Input>, rejected: set<Id>, idle: bool, p: Pending, serial: nat) {
    && (forall a :: a in inputs && a.serial == serial ==> a.envelope == p.envelope)
    && p.envelope.anchor in p.envelope.triggers
    && (!TookEffect(inputs, serial) ==> Admissible(inputs, rejected, p.envelope) && (p.run == 0 ==> idle))
  }

  /** No run is live, on the server or in the snapshot being reconciled. */
  ghost predicate Quiet(v: World) {
    IdleServer(v.server) && (v.reading.Some? ==> IdleServer(v.reading.value))
  }

  ghost predicate Inv(v: World) {
    && Lineage(AcceptedInputs(v.server), RejectedIds(v.server))
    && OneLive(v.server) && WellNamed(v.server)
    && (forall a :: a in AcceptedInputs(v.server) ==> a.serial <= v.count)
    && v.serial <= v.count
    && (v.slot.frozen.Some? ==>
          SlotFits(AcceptedInputs(v.server), RejectedIds(v.server), Quiet(v), v.slot.frozen.value, v.serial))
    && (v.reading.Some? ==> Evolves(v.reading.value, v.server))
  }

  lemma AcceptedMeans(p: Pending, snap: Snapshot)
    ensures Accepted(p, snap) <==>
            exists a :: a in AcceptedInputs(snap) && a.envelope.anchor == p.envelope.anchor
              && a.envelope.predecessor == p.envelope.predecessor
  {
    if Accepted(p, snap) {
      var s, m :| s in snap && m in s.messages && IsContract(m)
        && m.contract.value.anchor == p.envelope.anchor && m.contract.value.predecessor == p.envelope.predecessor;
      assert InputOf(m) in AcceptedInputs(snap);
    }
    if a :|
      && a in AcceptedInputs(snap)
      && a.envelope.anchor == p.envelope.anchor && a.envelope.predecessor == p.envelope.predecessor
    {
      var s, m :| s in snap && m in s.messages && IsContract(m) && InputOf(m) == a;
    }
  }

  /** `accepted` recognises the frozen submission itself: not another one, and never too early or too late. */
  lemma AcceptedIsExact(p: Pending, snap: Snapshot, rejected: set<Id>, idle: bool, serial: nat)
    requires Lineage(AcceptedInputs(snap), rejected) && SlotFits(AcceptedInputs(snap), rejected, idle, p, serial)
    ensures Accepted(p, snap) <==> TookEffect(AcceptedInputs(snap), serial)
  {
    AcceptedMeans(p, snap);
    var inputs := AcceptedInputs(snap);
    if Accepted(p, snap) && !TookEffect(inputs, serial) {
      var a :| a in inputs && a.envelope.anchor == p.envelope.anchor &&
          a.envelope.predecessor == p.envelope.predecessor;
      assert p.envelope.anchor in a.envelope.triggers;
      assert p.envelope.predecessor == 0 ==> Share(a.envelope.triggers, p.envelope.triggers);
    }
  }

  lemma TransferFromFacts(snap: Snapshot, i: nat, followed: set<Id>)
    requires i <= |snap| && TransferFrom(snap, i, followed).Some?
    ensures exists s, j :: s in snap && 0 <= j < |s.messages| && Missed(s, j, followed)
              && TransferFrom(snap, i, followed).value == TransferOf(s, j, followed)
    decreases |snap| - i
  {
    if FirstMissed(snap[i], 0, followed).None? {
      TransferFromFacts(snap, i + 1, followed);
    } else {
      assert snap[i] in snap;
    }
  }

  /** A transfer continues a rejected clarification that nothing has followed, with its very triggers. */
  lemma TransferFacts(snap: Snapshot, rejected: set<Id>)
    requires Lineage(AcceptedInputs(snap), rejected) && RejectedIds(snap) <= rejected
    requires Transfer(snap).Some?
    ensures var t := Transfer(snap).value;
            && t.envelope.predecessor == t.id && t.envelope.kind.Initial?
            && Admissible(AcceptedInputs(snap), RejectedIds(snap), t.envelope)
  {
    var followed := Predecessors(snap);
    TransferFromFacts(snap, 0, followed);
    var s, j :| s in snap && 0 <= j < |s.messages| && Missed(s, j, followed) &&
        Transfer(snap).value == TransferOf(s, j, followed);
    MissedFacts(snap, rejected, s, j);
  }

  lemma MissedFacts(snap: Snapshot, rejected: set<Id>, s: Session, j: nat)
    requires Lineage(AcceptedInputs(snap), rejected) && RejectedIds(snap) <= rejected
    requires s in snap && j < |s.messages| && Missed(s, j, Predecessors(snap))
    ensures var e := s.messages[j].contract.value.(kind := Initial, predecessor := s.messages[j].id);
            Admissible(AcceptedInputs(snap), RejectedIds(snap), e)
  {
    var m := s.messages[j];
    var a := InputOf(m);
    assert a in AcceptedInputs(snap) && m.id in RejectedIds(snap);
    var e := m.contract.value.(kind := Initial, predecessor := m.id);
    assert Follows(AcceptedInputs(snap), RejectedIds(snap), e);
    forall b | b in AcceptedInputs(snap) ensures b.envelope.predecessor != m.id {
      var s', m' :| s' in snap && m' in s'.messages && IsContract(m') && InputOf(m') == b;
      assert b.envelope.predecessor in Predecessors(snap);
    }
  }

  lemma OrdinaryAdmissible(snap: Snapshot, inp: Inputs, e: Envelope)
    requires Sensible(snap, inp) && inp.ordinary.envelope.anchor != 0
    requires e.anchor == inp.ordinary.envelope.anchor && e.triggers == inp.ordinary.envelope.triggers &&
              e.predecessor == 0
    ensures Admissible(AcceptedInputs(snap), RejectedIds(snap), e)
  {
    forall a | a in AcceptedInputs(snap) ensures !Share(a.envelope.triggers, e.triggers) {
      var s, m :| s in snap && m in s.messages && IsContract(m) && InputOf(m) == a;
      assert forall id :: id in a.envelope.triggers ==> id in KnownTriggers(snap);
    }
  }

  /** Whatever is frozen afresh may enter the history that the snapshot shows. */
  lemma FreshAdmissible(snap: Snapshot, rejected: set<Id>, slot: Slot, inp: Inputs)
    requires Lineage(AcceptedInputs(snap), rejected) && RejectedIds(snap) <= rejected && WellNamed(snap)
    requires Sensible(snap, inp) && !ActivityOf(snap).Several?
    requires Admit(snap, ActivityOf(snap), slot, inp).action.Submit?
    ensures var p := Admit(snap, ActivityOf(snap), slot, inp).action.p;
            && Admissible(AcceptedInputs(snap), RejectedIds(snap), p.envelope)
            && (p.run == 0 ==> IdleServer(snap))
  {
    var a := ActivityOf(snap);
    if a.Idle? && Transfer(snap).Some? {
      TransferFacts(snap, rejected);
    } else {
      OrdinaryAdmissible(snap, inp, Admit(snap, a, slot, inp).action.p.envelope);
    }
  }

  // ---------------------------------------------------------------------
  // Every step keeps the invariant
  // ---------------------------------------------------------------------

  lemma ProgressKeeps(v: World, server: Snapshot, v': World)
    requires Inv(v) && ProgressesStep(v, server, v')
    ensures Inv(v')
  {
    EvolvedInputs(v.server, server);
    EvolvedLive(v.server, server);
    LineageGrows(AcceptedInputs(v.server), RejectedIds(v.server), AcceptedInputs(server), RejectedIds(server));
    if v.reading.Some? {
      EvolvesTransitive(v.reading.value, v.server, server);
    }
  }

  /** The submission that a reconciliation submits fits the history at that moment. */
  lemma SubmittedFits(v: World, inp: Inputs)
    requires Inv(v) && v.reading.Some? && Sensible(v.reading.value, inp)
    requires Decide(v.reading.value, v.slot, inp).action.Submit?
    ensures var p := Decide(v.reading.value, v.slot, inp).action.p;
            var serial := if Rebuilds(v.reading.value, v.slot) then v.count + 1 else v.serial;
            && SlotFits(AcceptedInputs(v.server), RejectedIds(v.server), Quiet(v), p, serial)
            && !TookEffect(AcceptedInputs(v.server), serial)
  {
    var snap := v.reading.value;
    EvolvedInputs(snap, v.server);
    EvolvedLive(snap, v.server);
    if Rebuilds(snap, v.slot) {
      var slot := if v.slot.frozen.None? then v.slot else EMPTY;
      FreshAdmissible(snap, RejectedIds(v.server), slot, inp);
      LineageGrows(AcceptedInputs(snap), RejectedIds(snap), AcceptedInputs(snap), RejectedIds(v.server));
    } else {
      AcceptedIsExact(v.slot.frozen.value, snap, RejectedIds(v.server), Quiet(v), v.serial);
    }
  }

  lemma EffectKeeps(server: Snapshot, p: Pending, names: Names, serial: nat, count: nat)
    requires Lineage(AcceptedInputs(server), RejectedIds(server)) && OneLive(server) && WellNamed(server)
    requires SlotFits(AcceptedInputs(server), RejectedIds(server), IdleServer(server), p, serial)
    requires !TookEffect(AcceptedInputs(server), serial) && CanApply(server, p, names)
    requires serial <= count && forall a :: a in AcceptedInputs(server) ==> a.serial <= count
    ensures var server' := Apply(server, p, names, serial);
            && Lineage(AcceptedInputs(server'), RejectedIds(server')) && OneLive(server') && WellNamed(server')
            && SlotFits(AcceptedInputs(server'), RejectedIds(server'), IdleServer(server'), p, serial)
            && forall a :: a in AcceptedInputs(server') ==> a.serial <= count
  {
    var x := Input(names.messages[|names.messages| - 1], RunName(p, names), serial, p.envelope);
    AppliedInputs(server, p, names, serial);
    AppliedLive(server, p, names, serial);
    LineageExtends(AcceptedInputs(server), RejectedIds(server), x);
    assert x in AcceptedInputs(Apply(server, p, names, serial));
  }

  /** A decision that submits nothing leaves the slot as it was or empty. */
  lemma QuietDecision(snap: Snapshot, slot: Slot, inp: Inputs)
    requires !Decide(snap, slot, inp).action.Submit?
    ensures Decide(snap, slot, inp).slot.frozen.Some? ==> Decide(snap, slot, inp).slot.frozen == slot.frozen
  {
  }

  /** A decision that submits freezes what it submits. */
  lemma SubmitDecision(snap: Snapshot, slot: Slot, inp: Inputs)
    requires Decide(snap, slot, inp).action.Submit?
    ensures Decide(snap, slot, inp).slot.frozen == Some(Decide(snap, slot, inp).action.p)
  {
  }

  lemma ReconcileKeeps(v: World, inp: Inputs, answer: Answer, effect: bool, names: Names, v': World)
    requires Inv(v) && ReconcilesStep(v, inp, answer, effect, names, v')
    ensures Inv(v')
  {
    var snap := v.reading.value;
    var d := Decide(snap, v.slot, inp);
    hide Decide, Lineage, Sensible, CanApply;
    if d.action.Submit? {
      SubmittedFits(v, inp);
      SubmitDecision(snap, v.slot, inp);
      if effect {
        EffectKeeps(v.server, d.action.p, names, v'.serial, v'.count);
      }
    } else {
      QuietDecision(snap, v.slot, inp);
    }
  }

  lemma InvNext(v: World, step: Step, v': World)
    requires Inv(v) && Next(v, step, v')
    ensures Inv(v')
  {
    match step
    case Reads => EvolvesReflexive(v.server);
    case Progresses(server) => ProgressKeeps(v, server, v');
    case Crashes =>
    case Reconciles(inp, answer, effect, names) => ReconcileKeeps(v, inp, answer, effect, names, v');
  }

  lemma {:induction false} InvRun(worlds: seq<World>, steps: seq<Step>, i: nat)
    requires Run(worlds, steps) && i < |worlds|
    ensures Inv(worlds[i])
  {
    if i > 0 {
      InvRun(worlds, steps, i - 1);
      assert Next(worlds[i - 1], steps[i - 1], worlds[i]);
      InvNext(worlds[i - 1], steps[i - 1], worlds[i]);
    }
  }
}
