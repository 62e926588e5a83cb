/** The message builder meets what the admission protocol assumes of it, and how far a rejected input stays out
    (internal/service/engine.go:438-459, 598-618). */
module AdmissionInputs {
  import opened Collections
  import opened Admission
  import opened AdmissionRuns
  import S = Selection
  import T = Thread
  import D = Delivery
  import R = Rejection

  /** The envelope of a built batch of ordinary triggers. */
  function OrdinaryEnvelope(batch: S.Batch, revision: nat): Envelope {
    Envelope(if batch.triggers == [] then 0 else batch.triggers[0], Initial, batch.triggers, 0, revision, batch.files,
        0, [])
  }

  /** The envelope rebuilt around a transferred one. */
  function RestoredEnvelope(t: Envelope, batch: S.Batch, revision: nat): Envelope {
    t.(triggers := batch.triggers, revision := revision, files := batch.files, previousIndex := 0, delivered := [])
  }

  /** What the builder was given and what it returned, or that it returned nothing. */
  datatype Composition = Silent | Composed(b: S.Inputs, t: S.Try)

  /** The builder reads this history. */
  ghost predicate ReadsHistory(b: S.Inputs, snap: Snapshot) {
    S.Fetched(b) && b.known == KnownTriggers(snap)
  }

  /** BuildMessages over the posts of the thread that are not rejected. */
  ghost predicate OrdinaryFrom(c: Composition, posts: seq<T.Post>, rejected: set<Id>, snap: Snapshot, inp: Inputs) {
    match c
    case Silent => inp.ordinary.envelope.anchor == 0 && inp.ordinary.envelope.triggers == []
    case Composed(b, t) =>
      && ReadsHistory(b, snap) && b.transfer.None? && b.posts == Without(posts, rejected)
      && S.IsTry(b, t) && inp.ordinary.envelope == OrdinaryEnvelope(t.batch, inp.revision)
  }

  /** The clarification as the builder takes it over. */
  function Taken(t: Transferred, context: seq<Id>, versions: map<Id, nat>): S.Transfer {
    S.Transfer(t.envelope.anchor, t.envelope.triggers, context, versions, t.envelope.files, t.texts)
  }

  /** RebuildTransfer around the clarification that is to be sent again. */
  ghost predicate RestoredFrom(c: Composition, posts: seq<T.Post>, rejected: set<Id>, snap: Snapshot, inp: Inputs) {
    match c
    case Silent => Transfer(snap).None? || inp.restored.envelope.anchor == 0
    case Composed(b, t) =>
      && ReadsHistory(b, snap) && b.posts == Without(posts, rejected) && Transfer(snap).Some?
      && (exists context, versions :: b.transfer == Some(Taken(Transfer(snap).value, context, versions)))
      && S.IsTry(b, t)
      && inp.restored.envelope == RestoredEnvelope(Transfer(snap).value.envelope, t.batch, inp.revision)
  }

  /** A batch of ordinary triggers starts with its anchor and takes no post that an accepted input already owns; a
      rebuilt transfer keeps the identity and the triggers of the clarification it repeats. */
  lemma BuilderIsSensible(
    ordinary: Composition, restored: Composition, posts: seq<T.Post>, rejected: set<Id>, snap: Snapshot, inp: Inputs)
    requires OrdinaryFrom(ordinary, posts, rejected, snap, inp) && RestoredFrom(restored, posts, rejected, snap, inp)
    ensures Sensible(snap, inp)
    ensures ordinary.Composed? ==>
              && inp.ordinary.envelope.anchor == S.Window(ordinary.b)[0].id
              && forall id :: id in inp.ordinary.envelope.triggers ==>
                   exists p :: p in posts && p.id == id && p.id !in rejected && S.IsCandidate(ordinary.b, p)
  {
    hide S.IsTry, S.Window, S.Fetched, S.IsCandidate, KnownTriggers, Transfer, Without;
    if ordinary.Composed? {
      TriggersAreCandidates(ordinary.b, ordinary.t);
      WithoutMembers(posts, rejected);
      CandidatesAreNew(ordinary.b, ordinary.t.batch.triggers);
    }
    if restored.Composed? {
      RestoredKeepsTriggers(restored, posts, rejected, snap, inp);
    }
  }

  lemma CandidatesAreNew(b: S.Inputs, triggers: seq<Id>)
    requires forall id :: id in triggers ==> exists p :: p in b.posts && p.id == id && S.IsCandidate(b, p)
    ensures forall id :: id in triggers ==> id !in b.known
  {
  }

  lemma RestoredKeepsTriggers(c: Composition, posts: seq<T.Post>, rejected: set<Id>, snap: Snapshot, inp: Inputs)
    requires c.Composed? && RestoredFrom(c, posts, rejected, snap, inp)
    ensures inp.restored.envelope.triggers == Transfer(snap).value.envelope.triggers
  {
    hide Transfer, Without;
    var context, versions :| c.b.transfer == Some(Taken(Transfer(snap).value, context, versions));
    S.TransferKept(c.b, Taken(Transfer(snap).value, context, versions), c.t.batch, c.t.front, c.t.chosen);
  }

  lemma TriggersAreCandidates(b: S.Inputs, t: S.Try)
    requires S.Fetched(b) && b.transfer.None? && S.IsTry(b, t)
    ensures t.batch.triggers != [] && t.batch.triggers[0] == S.Window(b)[0].id
    ensures forall id :: id in t.batch.triggers ==> exists p :: p in b.posts && p.id == id && S.IsCandidate(b, p)
  {
    S.TriggersAreTriggers(b);
    var window := S.Window(b);
    S.IdsAt(window[..t.count]);
    assert t.batch.triggers == S.IdsOf(window[..t.count]);
    forall id | id in t.batch.triggers ensures exists p :: p in b.posts && p.id == id && S.IsCandidate(b, p) {
      var k :| 0 <= k < |t.batch.triggers| && t.batch.triggers[k] == id;
      assert window[..t.count][k] == window[k] && window[k] in window;
    }
  }

  // --- rejected inputs ---

  /** The posts handed to the builder once the withdrawn ones are taken out. */
  function Without(posts: seq<T.Post>, rejected: set<Id>): seq<T.Post> {
    if posts == [] then []
    else
      Without(posts[..|posts| - 1], rejected) + if posts[|posts| - 1].id in rejected then [] else [posts[|posts| - 1]]
  }

  lemma {:induction false} WithoutMembers(posts: seq<T.Post>, rejected: set<Id>)
    ensures forall p :: p in Without(posts, rejected) <==> p in posts && p.id !in rejected
  {
    if posts != [] {
      WithoutMembers(posts[..|posts| - 1], rejected);
      assert posts == posts[..|posts| - 1] + [posts[|posts| - 1]];
    }
  }

  predicate Touches(triggers: seq<Id>, posts: set<Id>) {
    exists id :: id in triggers && id in posts
  }

  /** The posts of a thread that a visible rejection withdraws under this revision of the workflow. */
  ghost function WithdrawnIn(s: D.Scope, thread: seq<D.Post>, revision: nat): set<Id> {
    R.Withdrawn(D.Mine(s, thread), R.Current(thread), revision)
  }

  /** A reconciliation of this thread: the publisher and the builder saw the same posts. */
  ghost predicate OfThread(
    s: D.Scope, thread: seq<D.Post>, posts: seq<T.Post>, snap: Snapshot, inp: Inputs, ordinary: Composition,
        restored: Composition)
  {
    && |posts| == |thread| && (forall i :: 0 <= i < |posts| ==> posts[i].id == thread[i].id)
    && OrdinaryFrom(ordinary, posts, WithdrawnIn(s, thread, inp.revision), snap, inp)
    && RestoredFrom(restored, posts, WithdrawnIn(s, thread, inp.revision), snap, inp)
  }

  /** How far a withdrawn post stays out. Ordinary triggers never include one; a submission does exactly when it sends a
      frozen input that is still open and holds one, or repeats a rejected clarification that does: neither looks at the
      notices in the thread. */
  lemma WithdrawnIsSubmittedExactly(
    s: D.Scope, thread: seq<D.Post>, posts: seq<T.Post>, snap: Snapshot, slot: Slot, inp: Inputs,
    ordinary: Composition, restored: Composition)
    requires OfThread(s, thread, posts, snap, inp, ordinary, restored)
    ensures var withdrawn := WithdrawnIn(s, thread, inp.revision);
            var d := Decide(snap, slot, inp);
            d.action.Submit? ==>
              (Touches(d.action.p.envelope.triggers, withdrawn) <==>
               || (!Rebuilds(snap, slot) && Touches(slot.frozen.value.envelope.triggers, withdrawn))
               || (Rebuilds(snap, slot) && ActivityOf(snap).Idle? && Transfer(snap).Some?
                   && Touches(Transfer(snap).value.envelope.triggers, withdrawn)))
  {
    var withdrawn := WithdrawnIn(s, thread, inp.revision);
    var d := Decide(snap, slot, inp);
    BuilderIsSensible(ordinary, restored, posts, withdrawn, snap, inp);
    assert !Touches(inp.ordinary.envelope.triggers, withdrawn);
    hide Sensible, OrdinaryFrom, RestoredFrom, Accepted, Superseded, KnownTriggers, R.Withdrawn;
    if d.action.Submit? && Rebuilds(snap, slot) {
      SubmittedTriggers(snap, slot, inp);
    }
  }

  /** The triggers of a submission that is built afresh. */
  lemma SubmittedTriggers(snap: Snapshot, slot: Slot, inp: Inputs)
    requires Sensible(snap, inp) && Decide(snap, slot, inp).action.Submit? && Rebuilds(snap, slot)
    ensures Decide(snap, slot, inp).action.p.envelope.triggers ==
            if ActivityOf(snap).Idle? && Transfer(snap).Some? then Transfer(snap).value.envelope.triggers
            else inp.ordinary.envelope.triggers
  {
  }

  /** It happens to a frozen input: the server refuses it, the notice is posted but the answer to that call is lost, and
      the next reconciliation submits the very same input again, whatever the builder now returns. */
  lemma RefusedIsSubmittedAgain(
    s: D.Scope, first: D.Post, input: R.Input, reason: string, inp: Inputs, again: Inputs)
    requires s.root != 0 && first.id != 0 && first.user != s.bot
    requires input.triggers == [first.id] && input.versions == [R.VersionOf(first)] && input.revision == inp.revision
    requires inp.inScope && inp.published && !inp.draining && inp.room
    requires inp.ordinary ==
              Built(Envelope(first.id, Initial, [first.id], 0, inp.revision, [], 0, []), [input.text], false)
    requires again.inScope && again.published && !again.draining && again.room
    ensures var noticed := [first] + R.NoticePosts(s, R.RejectionParts(s, input, reason), first.id);
            first.id in WithdrawnIn(s, noticed, inp.revision)
    ensures var d := Decide([], EMPTY, inp);
            && d.action.Submit? && d.action.p.envelope.triggers == [first.id]
            && Decide([], AfterSubmit(d.slot, Refused(false)), again).action == d.action
  {
    R.FirstWithdraws(s, first, input, reason);
    assert forall i, j :: !LiveAt([], i, j);
    assert ActivityOf([]).Idle?;
    assert Predecessors([]) == {};
  }

  // A run of the protocol in which it happens to a transfer.

  /** A first input, accepted into a new session. */
  function Opening(id: Id): Envelope {
    Envelope(id, Initial, [id], 0, 1, [], 0, [])
  }

  /** What the second answer of the builder is when there is nothing to restore. */
  const NOTHING := Built(Envelope(0, Initial, [], 0, 0, [], 0, []), [], false)

  function Given(id: Id, text: string): Inputs {
    Inputs(true, true, false, 1, Built(Opening(id), [text], false), NOTHING, true, true)
  }

  function FirstInput(id: Id, text: string, status: Status, delivery: Delivery): Session {
    Session(1, 1, false, true, 0, 10, [AgentRun(2, status, NoStop, NoError, !status.Queued?)],
            [Message(3, 2, true, text, Some(Opening(id)), delivery, NoFault, 1)])
  }

  function WithSecond(s: Session, id: Id, text: string, status: Status, delivery: Delivery, fault: Fault): Session {
    s.(runs := [AgentRun(2, status, NoStop, NoError, true)],
       messages := s.messages +
           [Message(4, 2, true, text, Some(Opening(id).(kind := Clarification)), delivery, fault, 2)])
  }

  lemma Extend(worlds: seq<World>, steps: seq<Step>, step: Step, v: World)
    requires Run(worlds, steps) && Next(worlds[|steps|], step, v)
    ensures Run(worlds + [v], steps + [step]) && (worlds + [v])[|steps| + 1] == v
  {
  }

  /** The first input is accepted, its run starts and takes it. */
  lemma OpeningRun(id: Id, text: string) returns (worlds: seq<World>, steps: seq<Step>)
    requires id != 0
    ensures Run(worlds, steps)
    ensures worlds[|steps|] == World([FirstInput(id, text, Running, Delivered)], EMPTY, 1, 1, map[1 := [text]], None)
  {
    var v0 := World([], EMPTY, 0, 0, map[], None);
    worlds, steps := [v0], [];
    var v1 := v0.(reading := Some([]));
    Extend(worlds, steps, Reads, v1);
    worlds, steps := worlds + [v1], steps + [Reads];
    OpeningStep(id, text);
    var v2 := World([FirstInput(id, text, Queued, Undecided)], EMPTY, 1, 1, map[1 := [text]], None);
    var step := Reconciles(Given(id, text), Answer.Taken, true, Names(1, 2, [3], 10));
    Extend(worlds, steps, step, v2);
    worlds, steps := worlds + [v2], steps + [step];
    var v3 := v2.(server := [FirstInput(id, text, Running, Delivered)]);
    assert SessionEvolves(v2.server[0], v3.server[0]);
    Extend(worlds, steps, Progresses(v3.server), v3);
    worlds, steps := worlds + [v3], steps + [Progresses(v3.server)];
  }

  lemma OpeningStep(id: Id, text: string)
    requires id != 0
    ensures Next(World([], EMPTY, 0, 0, map[], Some([])),
                 Reconciles(Given(id, text), Answer.Taken, true, Names(1, 2, [3], 10)),
                 World([FirstInput(id, text, Queued, Undecided)], EMPTY, 1, 1, map[1 := [text]], None))
  {
    assert forall i, j :: !LiveAt([], i, j);
    assert ActivityOf([]).Idle?;
    assert KnownTriggers([]) == {} && Predecessors([]) == {};
    var p := Pending(1, Opening(id), 0, 0, 0, [text]);
    var d := Decide([], EMPTY, Given(id, text));
    assert d == Decision(Slot(Some(p), 1), Submit(p), true);
    assert BatchOf(p, 2, [3], 1) == FirstInput(id, text, Queued, Undecided).messages;
    assert Apply([], p, Names(1, 2, [3], 10), 1) == [FirstInput(id, text, Queued, Undecided)];
  }

  /** A clarification follows; the run ends without having taken it. */
  lemma MissedRun(other: Id, otherText: string, id: Id, text: string) returns (worlds: seq<World>, steps: seq<Step>)
    requires other != 0 && id != 0 && id != other
    ensures Run(worlds, steps)
    ensures var begun := FirstInput(other, otherText, Running, Delivered);
            worlds[|steps|] == World([WithSecond(begun, id, text, Completed, Rejected, RunFinishedFirst)], EMPTY, 2, 2,
                                     map[1 := [otherText], 2 := [text]], None)
  {
    worlds, steps := OpeningRun(other, otherText);
    assert |worlds| == |steps| + 1;
    var begun := FirstInput(other, otherText, Running, Delivered);
    hide Run;
    var v3 := worlds[|steps|];
    var v4 := v3.(reading := Some([begun]));
    Extend(worlds, steps, Reads, v4);
    worlds, steps := worlds + [v4], steps + [Reads];
    ClarificationStep(other, otherText, id, text);
    var v5 := World([WithSecond(begun, id, text, Running, Undecided, NoFault)], EMPTY, 2, 2,
                    map[1 := [otherText], 2 := [text]], None);
    var step := Reconciles(Given(id, text), Answer.Taken, true, Names(5, 6, [4], 10));
    Extend(worlds, steps, step, v5);
    worlds, steps := worlds + [v5], steps + [step];
    var v6 := v5.(server := [WithSecond(begun, id, text, Completed, Rejected, RunFinishedFirst)]);
    assert SessionEvolves(v5.server[0], v6.server[0]);
    Extend(worlds, steps, Progresses(v6.server), v6);
    worlds, steps := worlds + [v6], steps + [Progresses(v6.server)];
  }

  lemma ClarificationStep(other: Id, otherText: string, id: Id, text: string)
    requires other != 0 && id != 0 && id != other
    ensures var begun := FirstInput(other, otherText, Running, Delivered);
            Next(World([begun], EMPTY, 1, 1, map[1 := [otherText]], Some([begun])),
                 Reconciles(Given(id, text), Answer.Taken, true, Names(5, 6, [4], 10)),
                 World([WithSecond(begun, id, text, Running, Undecided, NoFault)], EMPTY, 2, 2,
                       map[1 := [otherText], 2 := [text]], None))
  {
    var begun := FirstInput(other, otherText, Running, Delivered);
    var snap := [begun];
    assert LiveAt(snap, 0, 0);
    SameActivity(Activity.One(0, 0), ActivityOf(snap), snap);
    assert forall x, m :: x in snap && m in x.messages ==> m == begun.messages[0];
    assert id !in KnownTriggers(snap);
    var p := Pending(1, Opening(id).(kind := Clarification), 1, 2, 2, [text]);
    var d := Decide(snap, EMPTY, Given(id, text));
    assert d == Decision(Slot(Some(p), 1), Submit(p), false);
    assert BatchOf(p, 2, [4], 2) ==
        [Message(4, 2, true, text, Some(Opening(id).(kind := Clarification)), Undecided, NoFault, 2)];
    assert Apply(snap, p, Names(5, 6, [4], 10), 2) == [WithSecond(begun, id, text, Running, Undecided, NoFault)];
    assert RunsIn(begun, 2) by {
      assert begun.runs[0] in begun.runs;
    }
    assert map[1 := [otherText]][2 := [text]] == map[1 := [otherText], 2 := [text]];
  }

  /** In a run of the protocol, a clarification that its run finished without taking is sent to the session's next run,
      refused and noticed, and then sent again. */
  lemma TransferIsSubmittedAgain(
    s: D.Scope, first: D.Post, input: R.Input, reason: string, other: Id, otherText: string, inp: Inputs)
    returns (worlds: seq<World>, steps: seq<Step>)
    requires s.root != 0 && first.id != 0 && first.user != s.bot && other != 0 && other != first.id
    requires input.triggers == [first.id] && input.versions == [R.VersionOf(first)] && input.revision == 1
    requires inp.inScope && inp.published && !inp.draining && inp.room && inp.revision == 1
    ensures var noticed := [first] + R.NoticePosts(s, R.RejectionParts(s, input, reason), first.id);
            first.id in WithdrawnIn(s, noticed, inp.revision)
    ensures Run(worlds, steps) && worlds[|steps|].slot == EMPTY
    ensures var snap := worlds[|steps|].server;
            var d := Decide(snap, EMPTY, inp);
            && d.action.Submit? && d.action.p.envelope.triggers == [first.id] && d.action.p.texts == [input.text]
            && Decide(snap, AfterSubmit(d.slot, Refused(true)), inp).action == d.action
  {
    R.FirstWithdraws(s, first, input, reason);
    worlds, steps := MissedRun(other, otherText, first.id, input.text);
    var session := WithSecond(FirstInput(other, otherText, Running, Delivered), first.id, input.text, Completed,
        Rejected, RunFinishedFirst);
    var snap := [session];
    assert worlds[|steps|].server == snap;
    hide Run, WithdrawnIn, Decide, WithSecond, FirstInput;
    TransferIsDecided(other, otherText, first.id, input.text, inp);
  }

  /** The session's missed clarification is what an idle reconciliation submits. */
  lemma TransferIsDecided(other: Id, otherText: string, id: Id, text: string, inp: Inputs)
    requires id != 0 && inp.inScope && inp.published && !inp.draining && inp.room && inp.revision == 1
    ensures var snap :=
              [WithSecond(FirstInput(other, otherText, Running, Delivered), id, text, Completed, Rejected,
                  RunFinishedFirst)];
            var d := Decide(snap, EMPTY, inp);
            && d.action.Submit? && d.action.p.envelope.triggers == [id] && d.action.p.texts == [text]
  {
    var session := WithSecond(FirstInput(other, otherText, Running, Delivered), id, text, Completed, Rejected,
        RunFinishedFirst);
    var snap := [session];
    assert forall i, j :: !LiveAt(snap, i, j);
    assert ActivityOf(snap).Idle?;
    MissedIsFound(other, otherText, id, text);
    assert Transfer(snap) == Some(TransferOf(session, 1, Predecessors(snap)));
    hide FirstMissed, Predecessors, Missed, TransferFrom;
  }

  lemma MissedIsFound(other: Id, otherText: string, id: Id, text: string)
    ensures var s :=
              WithSecond(FirstInput(other, otherText, Running, Delivered), id, text, Completed, Rejected,
                  RunFinishedFirst);
            FirstMissed(s, 0, Predecessors([s])) == Some(1)
  {
    var s := WithSecond(FirstInput(other, otherText, Running, Delivered), id, text, Completed, Rejected,
        RunFinishedFirst);
    assert forall x, m :: x in [s] && m in x.messages ==> m == s.messages[0] || m == s.messages[1];
    assert 4 !in Predecessors([s]);
    assert s.runs[0] in s.runs;
    assert Missed(s, 1, Predecessors([s])) && !Missed(s, 0, Predecessors([s]));
    assert FirstMissed(s, 1, Predecessors([s])) == Some(1);
  }
}
