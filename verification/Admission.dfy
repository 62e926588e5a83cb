/**
  Thread admission: `internal/service/engine.go` over the history model of
  `internal/conversation/model.go`.

  `Decide` is one reconciliation of one thread: it reads a complete snapshot of the
  thread's agent sessions and the engine's only volatile state, the frozen submission,
  and yields the next frozen submission and what to do with it. The class `Engine`
  does the same with its maps, branch by branch.
 */
module Admission {
  import opened Collections

  type Id = nat // 0 is the empty string of the source

  datatype Kind = Initial | Clarification
  datatype Delivery = Undecided | Delivered | Rejected
  datatype Fault = NoFault | RunFinishedFirst | OtherFault
  datatype Status = Queued | Running | Finalizing | Completed | Broken | Cancelled
  datatype Stop = NoStop | TokenLimit | OtherStop
  datatype RunError = NoError | SandboxLost | ContextLost | OtherError

  datatype Envelope = Envelope(
    anchor: Id,
    kind: Kind,
    triggers: seq<Id>,
    predecessor: Id,
    revision: nat,
    files: seq<Id>,
    previousIndex: Id,    // the run whose input index precedes this one
    delivered: seq<Id>)   // anchors of the batches delivered to that run

  // `serial` names the submit call that wrote an input message; the server does not know it.
  datatype Message = Message(
    id: Id, runId: Id, user: bool, text: string, contract: Option<Envelope>,
    delivery: Delivery, fault: Fault, serial: nat)

  datatype AgentRun = AgentRun(id: Id, status: Status, stop: Stop, error: RunError, prepared: bool)

  datatype Session = Session(
    id: Id, revision: nat, sandboxGone: bool, allowMultiple: bool, tokens: nat, maxTokens: nat,
    runs: seq<AgentRun>, messages: seq<Message>)

  type Snapshot = seq<Session>

  datatype Pending = Pending(
    revision: nat, envelope: Envelope, session: Id, run: Id, predecessor: Id, texts: seq<string>)

  const MAX_ATTACHMENT_CLARIFICATIONS := 32

  predicate Terminal(s: Status) {
    s.Completed? || s.Broken? || s.Cancelled?
  }

  function Latest(s: Session): Option<AgentRun> {
    if s.runs == [] then None else Some(s.runs[|s.runs| - 1])
  }

  predicate Reusable(s: Session, revision: nat) {
    && !s.sandboxGone
    && s.allowMultiple && s.revision == revision && s.tokens < s.maxTokens
    && match Latest(s)
       case None => true
       case Some(r) => !r.error.SandboxLost? && !r.error.ContextLost? && !r.stop.TokenLimit?
  }

  predicate IsContract(m: Message) {
    m.user && m.contract.Some?
  }

  // ---------------------------------------------------------------------
  // Reading a snapshot
  // ---------------------------------------------------------------------

  predicate LiveAt(snap: Snapshot, i: int, j: int) {
    0 <= i < |snap| && 0 <= j < |snap[i].runs| && !Terminal(snap[i].runs[j].status)
  }

  datatype Activity = Idle | One(s: nat, r: nat) | Several

  ghost predicate Describes(a: Activity, snap: Snapshot) {
    match a
    case Idle => forall i, j :: !LiveAt(snap, i, j)
    case One(s, r) => LiveAt(snap, s, r) && forall i, j :: LiveAt(snap, i, j) ==> i == s && j == r
    case Several => exists i, j, i', j' :: LiveAt(snap, i, j) && LiveAt(snap, i', j') && (i != i' || j != j')
  }

  method Active(snap: Snapshot) returns (a: Activity)
    ensures Describes(a, snap)
  {
    a := Idle;
    var i := 0;
    while i < |snap|
      invariant 0 <= i <= |snap|
      invariant a.Idle? ==> forall k, l :: LiveAt(snap, k, l) ==> k >= i
      invariant a.One? ==> a.s < i && LiveAt(snap, a.s, a.r)
      invariant a.One? ==> forall k, l :: LiveAt(snap, k, l) && k < i ==> k == a.s && l == a.r
      invariant !a.Several?
    {
      var j := 0;
      while j < |snap[i].runs|
        invariant 0 <= j <= |snap[i].runs|
        invariant a.Idle? ==> forall k, l :: LiveAt(snap, k, l) ==> k > i || (k == i && l >= j)
        invariant a.One? ==> LiveAt(snap, a.s, a.r) && (a.s < i || (a.s == i && a.r < j))
        invariant a.One? ==> forall k, l :: LiveAt(snap, k, l) && (k < i || (k == i && l < j)) ==> k == a.s && l == a.r
        invariant !a.Several?
      {
        if !Terminal(snap[i].runs[j].status) {
          assert LiveAt(snap, i, j);
          if a.One? {
            return Several;
          }
          a := One(i, j);
        }
        j := j + 1;
      }
      i := i + 1;
    }
  }

  /** The trigger posts that any accepted input already owns, whatever became of it. */
  ghost function KnownTriggers(snap: Snapshot): set<Id> {
    set s, m, id | s in snap && m in s.messages && IsContract(m) && id in m.contract.value.triggers :: id
  }

  ghost predicate Accepted(p: Pending, snap: Snapshot) {
    exists s, m :: s in snap && m in s.messages && IsContract(m)
      && m.contract.value.anchor == p.envelope.anchor && m.contract.value.predecessor == p.envelope.predecessor
  }

  method IsAccepted(p: Pending, snap: Snapshot) returns (found: bool)
    ensures found <==> Accepted(p, snap)
  {
    for i := 0 to |snap|
      invariant forall s, m :: s in snap[..i] && m in s.messages && IsContract(m) ==>
                  m.contract.value.anchor != p.envelope.anchor || m.contract.value.predecessor != p.envelope.predecessor
    {
      for j := 0 to |snap[i].messages|
        invariant forall k :: 0 <= k < j && IsContract(snap[i].messages[k]) ==>
                    || snap[i].messages[k].contract.value.anchor != p.envelope.anchor
                    || snap[i].messages[k].contract.value.predecessor != p.envelope.predecessor
      {
        var m := snap[i].messages[j];
        if m.user && m.contract.Some? {
          var env := m.contract.value;
          if env.anchor == p.envelope.anchor && env.predecessor == p.envelope.predecessor {
            assert snap[i] in snap && m in snap[i].messages;
            return true;
          }
        }
      }
      assert snap[..i + 1] == snap[..i] + [snap[i]];
    }
    assert snap[..|snap|] == snap;
    return false;
  }

  ghost function Predecessors(snap: Snapshot): set<Id> {
    set s, m | s in snap && m in s.messages && m.contract.Some? :: m.contract.value.predecessor
  }

  /** A clarification that missed its run: rejected because the run completed first. */
  predicate Missed(s: Session, i: int, followed: set<Id>)
    requires 0 <= i < |s.messages|
  {
    var m := s.messages[i];
    && m.user && m.delivery.Rejected? && m.fault.RunFinishedFirst? && m.id !in followed
    && m.contract.Some? && m.contract.value.kind.Clarification?
    && exists r :: r in s.runs && r.id == m.runId && r.status.Completed? && !r.stop.TokenLimit?
  }

  function FirstMissed(s: Session, i: nat, followed: set<Id>): (found: Option<nat>)
    requires i <= |s.messages|
    ensures found.Some? ==> i <= found.value < |s.messages| && Missed(s, found.value, followed)
    ensures found.None? ==> forall k :: i <= k < |s.messages| ==> !Missed(s, k, followed)
    decreases |s.messages| - i
  {
    if i == |s.messages| then None
    else if Missed(s, i, followed) then Some(i)
    else FirstMissed(s, i + 1, followed)
  }

  /** Whether an item of a rejected batch precedes the item that carries the metadata. */
  predicate SameBatch(m: Message, run: Id) {
    m.runId == run && m.user && m.delivery.Rejected? && m.contract.None?
  }

  function BatchStart(messages: seq<Message>, i: nat, run: Id): (start: nat)
    requires i < |messages|
    ensures start <= i
    ensures forall k :: start <= k < i ==> SameBatch(messages[k], run)
    ensures start > 0 ==> !SameBatch(messages[start - 1], run)
  {
    if i > 0 && SameBatch(messages[i - 1], run) then BatchStart(messages, i - 1, run) else i
  }

  function Texts(messages: seq<Message>): (texts: seq<string>)
    ensures |texts| == |messages| && forall k :: 0 <= k < |texts| ==> texts[k] == messages[k].text
  {
    seq(|messages|, k requires 0 <= k < |messages| => messages[k].text)
  }

  datatype Transferred = Transferred(envelope: Envelope, texts: seq<string>, id: Id)

  function TransferOf(s: Session, i: nat, followed: set<Id>): Transferred
    requires i < |s.messages| && Missed(s, i, followed)
  {
    var m := s.messages[i];
    Transferred(m.contract.value.(kind := Initial, predecessor := m.id),
                Texts(s.messages[BatchStart(s.messages, i, m.runId)..i + 1]), m.id)
  }

  ghost function TransferFrom(snap: Snapshot, i: nat, followed: set<Id>): Option<Transferred>
    requires i <= |snap|
    decreases |snap| - i
  {
    if i == |snap| then None
    else match FirstMissed(snap[i], 0, followed)
      case Some(j) => Some(TransferOf(snap[i], j, followed))
      case None => TransferFrom(snap, i + 1, followed)
  }

  /** The first missed clarification that nothing has followed up, with its saved texts. */
  ghost function Transfer(snap: Snapshot): Option<Transferred> {
    TransferFrom(snap, 0, Predecessors(snap))
  }

  method CollectPredecessors(snap: Snapshot) returns (followed: set<Id>)
    ensures followed == Predecessors(snap)
  {
    followed := {};
    for i := 0 to |snap|
      invariant followed == Predecessors(snap[..i])
    {
      var messages := snap[i].messages;
      for j := 0 to |messages|
        invariant followed == Predecessors(snap[..i]) + PredecessorsIn(messages[..j])
      {
        assert messages[..j + 1] == messages[..j] + [messages[j]];
        if messages[j].contract.Some? {
          followed := followed + {messages[j].contract.value.predecessor};
        }
      }
      assert messages[..|messages|] == messages;
      PredecessorsAppend(snap, i);
    }
    assert snap[..|snap|] == snap;
  }

  ghost function PredecessorsIn(messages: seq<Message>): set<Id> {
    set m | m in messages && m.contract.Some? :: m.contract.value.predecessor
  }

  lemma PredecessorsAppend(snap: Snapshot, i: nat)
    requires i < |snap|
    ensures Predecessors(snap[..i + 1]) == Predecessors(snap[..i]) + PredecessorsIn(snap[i].messages)
  {
    assert snap[..i + 1] == snap[..i] + [snap[i]];
  }

  method FindMissed(s: Session, followed: set<Id>) returns (found: Option<nat>)
    ensures found == FirstMissed(s, 0, followed)
  {
    var i := 0;
    while i < |s.messages|
      invariant 0 <= i <= |s.messages|
      invariant FirstMissed(s, 0, followed) == FirstMissed(s, i, followed)
    {
      if Missed(s, i, followed) {
        return Some(i);
      }
      i := i + 1;
    }
    return None;
  }

  method CollectTexts(messages: seq<Message>, i: nat, run: Id) returns (texts: seq<string>)
    requires i < |messages|
    ensures texts == Texts(messages[BatchStart(messages, i, run)..i + 1])
  {
    texts := [messages[i].text];
    var k := i;
    while k > 0 && SameBatch(messages[k - 1], run)
      invariant 0 <= k <= i
      invariant BatchStart(messages, i, run) == BatchStart(messages, k, run)
      invariant texts == Texts(messages[k..i + 1])
    {
      k := k - 1;
      texts := [messages[k].text] + texts;
    }
  }

  method FindTransfer(snap: Snapshot) returns (t: Option<Transferred>)
    ensures t == Transfer(snap)
  {
    var followed := CollectPredecessors(snap);
    var i := 0;
    while i < |snap|
      invariant 0 <= i <= |snap|
      invariant Transfer(snap) == TransferFrom(snap, i, followed)
    {
      var found := FindMissed(snap[i], followed);
      if found.Some? {
        var m := snap[i].messages[found.value];
        var texts := CollectTexts(snap[i].messages, found.value, m.runId);
        return Some(Transferred(m.contract.value.(kind := Initial, predecessor := m.id), texts, m.id));
      }
      i := i + 1;
    }
    return None;
  }

  /** How many batches with files a run has been sent while it was running. */
  function FileClarifications(messages: seq<Message>, run: Id): (count: nat)
    ensures count <= |messages|
  {
    if messages == [] then 0
    else
      var m := messages[|messages| - 1];
      FileClarifications(messages[..|messages| - 1], run) + if IsFileClarification(m, run) then 1 else 0
  }

  predicate IsFileClarification(m: Message, run: Id) {
    IsContract(m) && m.runId == run && m.contract.value.kind.Clarification? && m.contract.value.files != []
  }

  method CountFileClarifications(messages: seq<Message>, run: Id) returns (count: nat)
    ensures count == FileClarifications(messages, run)
  {
    count := 0;
    for i := 0 to |messages|
      invariant count == FileClarifications(messages[..i], run)
    {
      assert messages[..i + 1][..i] == messages[..i];
      if IsFileClarification(messages[i], run) {
        count := count + 1;
      }
    }
    assert messages[..|messages|] == messages;
  }

  /** The last run whose preparation hook completed; only its input index certainly exists. */
  function LastPrepared(runs: seq<AgentRun>): (r: Option<AgentRun>)
    ensures r.Some? ==> r.value in runs && r.value.prepared
    ensures r.None? ==> forall a :: a in runs ==> !a.prepared
  {
    if runs == [] then None
    else if runs[|runs| - 1].prepared then Some(runs[|runs| - 1])
    else LastPrepared(runs[..|runs| - 1])
  }

  /** Anchors of the file batches that a run received as clarifications. */
  function DeliveredBatches(messages: seq<Message>, run: Id): (anchors: seq<Id>)
    ensures |anchors| <= FileClarifications(messages, run)
    ensures forall a :: a in anchors <==>
              exists m :: m in messages && IsFileClarification(m, run) && m.delivery.Delivered? &&
                  m.contract.value.anchor == a
  {
    if messages == [] then []
    else
      var last := |messages| - 1;
      var m := messages[last];
      assert messages == messages[..last] + [m];
      DeliveredBatches(messages[..last], run) +
      if IsFileClarification(m, run) && m.delivery.Delivered? then [m.contract.value.anchor] else []
  }

  method CollectDelivered(messages: seq<Message>, run: Id) returns (anchors: seq<Id>)
    ensures anchors == DeliveredBatches(messages, run)
  {
    anchors := [];
    for j := 0 to |messages|
      invariant anchors == DeliveredBatches(messages[..j], run)
    {
      assert messages[..j + 1][..j] == messages[..j];
      var m := messages[j];
      if IsFileClarification(m, run) && m.delivery.Delivered? {
        anchors := anchors + [m.contract.value.anchor];
      }
    }
    assert messages[..|messages|] == messages;
  }

  method CollectIndex(s: Session, env: Envelope) returns (e: Envelope)
    ensures e == WithIndex(s, env)
  {
    var i := |s.runs|;
    assert s.runs[..i] == s.runs;
    while i > 0
      invariant 0 <= i <= |s.runs|
      invariant LastPrepared(s.runs) == LastPrepared(s.runs[..i])
    {
      assert s.runs[..i][..i - 1] == s.runs[..i - 1];
      i := i - 1;
      var prior := s.runs[i];
      if prior.prepared {
        var anchors := CollectDelivered(s.messages, prior.id);
        return env.(previousIndex := prior.id, delivered := env.delivered + anchors);
      }
    }
    return env;
  }

  /** A continued session links the next run to the input index of its last prepared run. */
  function WithIndex(s: Session, env: Envelope): Envelope {
    match LastPrepared(s.runs)
    case None => env
    case Some(r) => env.(previousIndex := r.id, delivered := env.delivered + DeliveredBatches(s.messages, r.id))
  }

  // ---------------------------------------------------------------------
  // One reconciliation
  // ---------------------------------------------------------------------

  lemma SameActivity(a: Activity, b: Activity, snap: Snapshot)
    requires Describes(a, snap) && Describes(b, snap)
    ensures a == b
  {
  }

  ghost function ActivityOf(snap: Snapshot): (a: Activity)
    ensures Describes(a, snap)
  {
    if exists i, j, i', j' :: LiveAt(snap, i, j) && LiveAt(snap, i', j') && (i != i' || j != j') then Several
    else if exists i, j :: LiveAt(snap, i, j) then
      var i, j :| LiveAt(snap, i, j);
      One(i, j)
    else Idle
  }

  /** What the message builder returned: an envelope without anchor when there is nothing to send. */
  datatype Built = Built(envelope: Envelope, texts: seq<string>, failed: bool)

  /**
    Everything a reconciliation learns from outside: the channel's scope, whether publication
    and refresh went through, the effective workflow, the builder's batch of ordinary triggers,
    the batch rebuilt around a transferred clarification, the run allocator's answer, and
    whether sandbox access is configured.
   */
  datatype Inputs = Inputs(
    inScope: bool, published: bool, draining: bool, revision: nat,
    ordinary: Built, restored: Built, room: bool, sandbox: bool)

  datatype Slot = Slot(frozen: Option<Pending>, queued: nat)

  const EMPTY := Slot(None, 0)

  datatype Action =
    | Quit(failed: bool)
    | CancelRun(session: Id, run: Id)
    | Reject(envelope: Envelope)
    | Submit(p: Pending)

  datatype Decision = Decision(slot: Slot, action: Action, asked: bool)

  /** History proves that a frozen input was not accepted and that its target takes no more input. */
  ghost predicate Superseded(f: Pending, snap: Snapshot, a: Activity)
    requires Describes(a, snap) && !a.Several?
  {
    || (f.run == 0 && f.session != 0 && exists s :: s in snap && s.id == f.session && !Reusable(s, f.revision))
    || (f.run != 0 && !(a.One? && snap[a.s].runs[a.r].id == f.run))
  }

  /** The batch to admit: a missed clarification first, otherwise ordinary triggers. */
  ghost function Batch(snap: Snapshot, a: Activity, initial: bool, inp: Inputs): Built {
    if a.One? then inp.ordinary
    else match Transfer(snap)
      case None => inp.ordinary
      case Some(t) => if initial then inp.restored else Built(t.envelope.(revision := inp.revision), t.texts, false)
  }

  ghost function FreshPending(snap: Snapshot, a: Activity, inp: Inputs, built: Built): Pending
    requires Describes(a, snap) && !a.Several?
  {
    var last := if snap == [] then 0 else match Latest(snap[|snap| - 1]) case None => 0 case Some(r) => r.id;
    if a.One? then
      Pending(inp.revision, built.envelope.(kind := Clarification), snap[a.s].id, snap[a.s].runs[a.r].id, last,
          built.texts)
    else
      var predecessor := match Transfer(snap) case None => last case Some(t) => t.id;
      if snap == [] || !Reusable(snap[|snap| - 1], inp.revision)
      then Pending(inp.revision, built.envelope, 0, 0, predecessor, built.texts)
      else Pending(inp.revision, WithIndex(snap[|snap| - 1], built.envelope), snap[|snap| - 1].id, 0, predecessor,
          built.texts)
  }

  ghost function Admit(snap: Snapshot, a: Activity, slot: Slot, inp: Inputs): Decision
    requires Describes(a, snap) && !a.Several?
  {
    if a.One? && (snap[a.s].revision != inp.revision || !snap[a.s].runs[a.r].status.Running?) then
      Decision(slot, Quit(false), false)
    else
      var built := Batch(snap, a, snap == [] || !Reusable(snap[|snap| - 1], inp.revision), inp);
      var counted := slot.(queued := |built.envelope.triggers|);
      if built.envelope.anchor == 0 then Decision(counted, Quit(built.failed), false)
      else if built.failed then Decision(counted, Reject(built.envelope), false)
      else if a.One? && built.envelope.files != [] &&
              (!inp.sandbox ||
                  FileClarifications(snap[a.s].messages, snap[a.s].runs[a.r].id) >= MAX_ATTACHMENT_CLARIFICATIONS) then
        Decision(counted, Quit(false), false)
      else if !a.One? && !inp.room then Decision(counted, Quit(false), true)
      else
        var p := FreshPending(snap, a, inp, built);
        Decision(counted.(frozen := Some(p)), Submit(p), !a.One?)
  }

  ghost function Decide(snap: Snapshot, slot: Slot, inp: Inputs): Decision {
    var a := ActivityOf(snap);
    if a.Several? then Decision(slot, Quit(true), false)
    else if !inp.inScope then
      Decision(EMPTY, if a.One? then CancelRun(snap[a.s].id, snap[a.s].runs[a.r].id) else Quit(false), false)
    else if !inp.published then Decision(slot, Quit(true), false)
    else if inp.draining then Decision(slot, Quit(false), false)
    else match slot.frozen
      case None => Admit(snap, a, slot, inp)
      case Some(f) =>
        if Accepted(f, snap) || Superseded(f, snap, a) then Admit(snap, a, EMPTY, inp)
        else if f.run != 0 && !snap[a.s].runs[a.r].status.Running? then Decision(slot, Quit(false), false)
        else if f.run == 0 && !inp.room then Decision(slot, Quit(false), true)
        else Decision(slot, Submit(f), f.run == 0)
  }

  // ---------------------------------------------------------------------
  // What a decision means for the sessions of the snapshot
  // ---------------------------------------------------------------------

  /** No session or run of the snapshot has the empty name. */
  ghost predicate Named(snap: Snapshot) {
    forall s :: s in snap ==> s.id != 0 && forall r :: r in s.runs ==> r.id != 0
  }

  /** A run is started only in a session that is fit for it, and a new session only when the last one is not. */
  lemma StartsWhereFit(snap: Snapshot, slot: Slot, inp: Inputs)
    requires Named(snap)
    requires Decide(snap, slot, inp).action.Submit? && Decide(snap, slot, inp).action.p.run == 0
    ensures var p := Decide(snap, slot, inp).action.p;
            p.session != 0 ==>
              || (exists s :: s in snap && s.id == p.session
                    && !s.sandboxGone && s.allowMultiple && s.revision == p.revision && s.tokens < s.maxTokens
                    && (s.runs != [] ==>
                          var last := s.runs[|s.runs| - 1];
                          last.error != SandboxLost && last.error != ContextLost && last.stop != TokenLimit))
              || (slot.frozen == Some(p) && forall s :: s in snap ==> s.id != p.session)
    ensures var p := Decide(snap, slot, inp).action.p;
            p.session == 0 && snap != [] && slot.frozen != Some(p) ==>
              var s := snap[|snap| - 1];
              || s.sandboxGone || !s.allowMultiple || s.revision != p.revision || s.tokens >= s.maxTokens
              || (s.runs != [] &&
                    var last := s.runs[|s.runs| - 1];
                    last.error == SandboxLost || last.error == ContextLost || last.stop == TokenLimit)
  {
  }

  /** A frozen input is given up for its session exactly when that is unfit, and then everything is decided afresh. */
  lemma GivenUpExactly(snap: Snapshot, slot: Slot, inp: Inputs, f: Pending)
    requires slot.frozen == Some(f) && f.run == 0 && f.session != 0 && !Accepted(f, snap)
    requires !ActivityOf(snap).Several? && inp.inScope && inp.published && !inp.draining
    ensures Decide(snap, slot, inp) ==
            if exists s :: s in snap && s.id == f.session
                 && (|| s.sandboxGone || !s.allowMultiple || s.revision != f.revision || s.tokens >= s.maxTokens
                     || (s.runs != [] &&
                           var last := s.runs[|s.runs| - 1];
                           last.error == SandboxLost || last.error == ContextLost || last.stop == TokenLimit))
            then Decide(snap, EMPTY, inp)
            else Decision(slot, if inp.room then Submit(f) else Quit(false), true)
  {
  }

  /** What became of a submit call, as far as the caller can tell. */
  datatype Answer = NotSent | Taken | Unanswered | Refused(noticed: bool)

  /** What the sandbox and the server say to a submission; `Invalid` is any code that no repetition can cure. */
  datatype Preparation = Ready | RunEnded | Failed
  datatype Reply = Accepts | NotAccepting | Invalid | Unavailable

  /** Files of a clarification go into the sandbox first; its text never goes without them. */
  predicate Sends(p: Pending, live: bool, sandbox: bool, preparation: Preparation) {
    p.run != 0 && p.envelope.files != [] ==> sandbox && live && preparation.Ready?
  }

  function AnswerTo(
    p: Pending, live: bool, sandbox: bool, preparation: Preparation, reply: Reply, noticed: bool): Answer
  {
    if !Sends(p, live, sandbox, preparation) then NotSent
    else match reply
      case Accepts => Taken
      case NotAccepting => Refused(false)
      case Invalid => Refused(noticed)
      case Unavailable => Unanswered
  }

  function AfterSubmit(slot: Slot, answer: Answer): Slot {
    if answer.Taken? || (answer.Refused? && answer.noticed) then EMPTY else slot
  }

  class Engine {
    var pending: map<Id, Pending>
    var inputQueue: map<Id, nat>

    function SlotOf(thread: Id): Slot
      reads this
    {
      Slot(if thread in pending then Some(pending[thread]) else None,
           if thread in inputQueue then inputQueue[thread] else 0)
    }

    /** Only `thread`'s state changed, and it is now `slot`. */
    twostate predicate Moved(thread: Id, slot: Slot)
      reads this
    {
      && SlotOf(thread) == slot
      && forall t :: t != thread ==> SlotOf(t) == old(SlotOf(t))
    }

    constructor ()
      ensures forall t :: SlotOf(t) == EMPTY
    {
      pending, inputQueue := map[], map[];
    }

    method Set(thread: Id, p: Pending)
      modifies this
      ensures Moved(thread, old(SlotOf(thread)).(frozen := Some(p)))
    {
      pending := pending[thread := p];
    }

    method Clear(thread: Id)
      modifies this
      ensures Moved(thread, EMPTY)
    {
      pending := pending - {thread};
      inputQueue := inputQueue - {thread};
    }

    method SetQueued(thread: Id, count: nat)
      modifies this
      ensures Moved(thread, old(SlotOf(thread)).(queued := count))
    {
      if count == 0 {
        inputQueue := inputQueue - {thread};
      } else {
        inputQueue := inputQueue[thread := count];
      }
    }

    method TargetLost(f: Pending, snap: Snapshot) returns (lost: bool)
      ensures lost <==>
                f.run == 0 && f.session != 0 && exists s :: s in snap && s.id == f.session && !Reusable(s, f.revision)
    {
      lost := false;
      if f.run == 0 && f.session != 0 {
        for i := 0 to |snap|
          invariant lost <==> exists s :: s in snap[..i] && s.id == f.session && !Reusable(s, f.revision)
        {
          assert snap[..i + 1] == snap[..i] + [snap[i]];
          if snap[i].id == f.session && !Reusable(snap[i], f.revision) {
            lost := true;
          }
        }
        assert snap[..|snap|] == snap;
      }
    }

    /** Besides the decision itself: a run is started only in a session that is fit for it, and a new session only when
        the last one is not. */
    method Reconcile(thread: Id, snap: Snapshot, inp: Inputs) returns (action: Action, asked: bool)
      modifies this
      ensures Named(snap) && action.Submit? && action.p.run == 0 && action.p.session != 0 ==>
                || (exists s :: s in snap && s.id == action.p.session
                      && !s.sandboxGone && s.allowMultiple && s.revision == action.p.revision && s.tokens < s.maxTokens
                      && (s.runs != [] ==>
                            var last := s.runs[|s.runs| - 1];
                            last.error != SandboxLost && last.error != ContextLost && last.stop != TokenLimit))
                || (old(SlotOf(thread)).frozen == Some(action.p) && forall s :: s in snap ==> s.id != action.p.session)
      ensures Named(snap) && action.Submit? && action.p.run == 0 && action.p.session == 0 && snap != []
              && old(SlotOf(thread)).frozen != Some(action.p) ==>
                var s := snap[|snap| - 1];
                || s.sandboxGone || !s.allowMultiple || s.revision != action.p.revision || s.tokens >= s.maxTokens
                || (s.runs != [] &&
                      var last := s.runs[|s.runs| - 1];
                      last.error == SandboxLost || last.error == ContextLost || last.stop == TokenLimit)
      ensures Moved(thread, Decide(snap, old(SlotOf(thread)), inp).slot)
      ensures action == Decide(snap, old(SlotOf(thread)), inp).action
      ensures asked == Decide(snap, old(SlotOf(thread)), inp).asked
    {
      asked := false;
      if Named(snap) && Decide(snap, SlotOf(thread), inp).action.Submit?
         && Decide(snap, SlotOf(thread), inp).action.p.run == 0 {
        StartsWhereFit(snap, SlotOf(thread), inp);
      }
      var a := Active(snap);
      SameActivity(a, ActivityOf(snap), snap);
      if a.Several? {
        return Quit(true), asked;
      }
      if !inp.inScope {
        Clear(thread);
        if a.One? {
          return CancelRun(snap[a.s].id, snap[a.s].runs[a.r].id), asked;
        }
        return Quit(false), asked;
      }
      if !inp.published {
        return Quit(true), asked;
      }
      if inp.draining {
        return Quit(false), asked;
      }
      if thread in pending {
        var f := pending[thread];
        var done := IsAccepted(f, snap);
        var lost := TargetLost(f, snap);
        if done || lost || (f.run != 0 && (!a.One? || snap[a.s].runs[a.r].id != f.run)) {
          Clear(thread);
        } else {
          if f.run != 0 && !snap[a.s].runs[a.r].status.Running? {
            return Quit(false), asked;
          }
          if f.run == 0 {
            asked := true;
            if !inp.room {
              return Quit(false), asked;
            }
          }
          return Submit(f), asked;
        }
      }
      action, asked := AdmitNew(thread, snap, a, inp);
    }

    method AdmitNew(thread: Id, snap: Snapshot, a: Activity, inp: Inputs) returns (action: Action, asked: bool)
      requires Describes(a, snap) && !a.Several?
      requires thread !in pending
      modifies this
      ensures Moved(thread, Admit(snap, a, old(SlotOf(thread)), inp).slot)
      ensures action == Admit(snap, a, old(SlotOf(thread)), inp).action
      ensures asked == Admit(snap, a, old(SlotOf(thread)), inp).asked
    {
      asked := false;
      var initial := snap == [] || !Reusable(snap[|snap| - 1], inp.revision);
      if a.One? {
        if snap[a.s].revision != inp.revision || !snap[a.s].runs[a.r].status.Running? {
          return Quit(false), asked;
        }
        initial := false;
      }
      var built := inp.ordinary;
      var predecessor := 0;
      if snap != [] {
        var last := Latest(snap[|snap| - 1]);
        if last.Some? {
          predecessor := last.value.id;
        }
      }
      if !a.One? {
        var t := FindTransfer(snap);
        if t.Some? {
          if initial {
            built := inp.restored;
          } else {
            built := Built(t.value.envelope.(revision := inp.revision), t.value.texts, false);
          }
          predecessor := t.value.id;
        }
      }
      var env := built.envelope;
      SetQueued(thread, |env.triggers|);
      if env.anchor == 0 {
        return Quit(built.failed), asked;
      }
      if built.failed {
        return Reject(env), asked;
      }
      if a.One? {
        if env.files != [] && !inp.sandbox {
          return Quit(false), asked;
        }
        if env.files != [] {
          var sent := CountFileClarifications(snap[a.s].messages, snap[a.s].runs[a.r].id);
          if sent >= MAX_ATTACHMENT_CLARIFICATIONS {
            return Quit(false), asked;
          }
        }
        env := env.(kind := Clarification);
      }
      if !initial && snap != [] && !a.One? {
        env := CollectIndex(snap[|snap| - 1], env);
      }
      var frozen := Pending(inp.revision, env, 0, 0, predecessor, built.texts);
      if a.One? {
        frozen := frozen.(session := snap[a.s].id, run := snap[a.s].runs[a.r].id);
      } else if !initial {
        frozen := frozen.(session := snap[|snap| - 1].id);
      }
      if !a.One? {
        asked := true;
        if !inp.room {
          return Quit(false), asked;
        }
      }
      Set(thread, frozen);
      return Submit(frozen), asked;
    }

    /** Engine.submit. `live` tells whether the snapshot still shows the run, `noticed` whether a rejection notice, if
        one is due, was published in full. */
    method SubmitFrozen(
      thread: Id, p: Pending, live: bool, sandbox: bool, preparation: Preparation, reply: Reply, noticed: bool)
      returns (failed: bool)
      modifies this
      ensures Moved(thread, AfterSubmit(old(SlotOf(thread)), AnswerTo(p, live, sandbox, preparation, reply, noticed)))
      ensures SlotOf(thread) ==
                if (p.run == 0 || p.envelope.files == [] || (sandbox && live && preparation == Ready))
                   && (reply == Accepts || (reply == Invalid && noticed)) then EMPTY
                else old(SlotOf(thread))
      ensures failed <==>
                if p.run == 0 || p.envelope.files == [] || (sandbox && live && preparation == Ready) then
                  reply == Unavailable || (reply == Invalid && !noticed)
                else sandbox && (!live || preparation.Failed?)
    {
      if p.run != 0 && p.envelope.files != [] {
        if !sandbox {
          return false;
        }
        if !live {
          return true;
        }
        if !preparation.Ready? {
          return preparation.Failed?;
        }
      }
      match reply {
        case Accepts => Submitted(thread, Answer.Taken);
        case NotAccepting => Submitted(thread, Refused(false));
        case Invalid => Submitted(thread, Refused(noticed));
        case Unavailable =>
      }
      failed := reply.Unavailable? || (reply.Invalid? && !noticed);
    }

    /** After the submit call: a kept slot is resolved by a later snapshot. */
    method Submitted(thread: Id, answer: Answer)
      modifies this
      ensures Moved(thread, AfterSubmit(old(SlotOf(thread)), answer))
    {
      if answer.Taken? || (answer.Refused? && answer.noticed) {
        Clear(thread);
      }
    }
  }
}
