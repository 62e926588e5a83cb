/** Why no delivered batch is lost between the runs of a session: the connector's choice of index
    (internal/service/engine.go:511-538) over every history in which deliveries settle before a run ends and only
    prepared runs receive clarifications. */
module IndexCoverage {
  import opened Collections
  import opened Admission
  import W = Workspace
  import C = IndexChain
  import I = InputBatches

  // A session and its workspace; `source` is the chat server's identity.
  datatype State = State(session: Session, files: W.Files, source: Id)

  function Ref(run: Id): Option<W.Path> {
    if run == 0 then None else Some(W.IndexPath(run))
  }

  function Refs(anchors: seq<Id>): (paths: seq<W.Path>)
    ensures |paths| == |anchors|
    ensures forall a :: a in anchors ==> W.ManifestPath(a) in paths
  {
    var paths := seq(|anchors|, i requires 0 <= i < |anchors| => W.ManifestPath(anchors[i]));
    assert forall i :: 0 <= i < |anchors| ==> paths[i] == W.ManifestPath(anchors[i]);
    paths
  }

  /** The run whose index the next request names, 0 for none. */
  function Previous(runs: seq<AgentRun>): Id {
    match LastPrepared(runs)
    case None => 0
    case Some(a) => a.id
  }

  /** The batches that run received after its own page was written. */
  function Due(messages: seq<Message>, run: Id): seq<Id> {
    if run == 0 then [] else DeliveredBatches(messages, run)
  }

  predicate IsInitial(m: Message, run: Id) {
    m.runId == run && m.contract.Some? && m.contract.value.kind.Initial?
  }

  /** The page that before_run writes for a request. */
  function PageOf(e: Envelope): W.Content {
    W.IndexDoc(W.Page(1, Ref(e.previousIndex), Refs(e.delivered) + [W.ManifestPath(e.anchor)]))
  }

  /** The request that before_run is given. */
  predicate Asks(r: W.Request, source: Id, e: Envelope) {
    r.source == source && r.anchor == e.anchor && r.previous == Ref(e.previousIndex) && r.delivered == Refs(e.delivered)
  }

  /** It is what begin_run leaves. */
  lemma BegunLeavesPage(files: W.Files, run: Id, r: W.Request, source: Id, e: Envelope)
    requires Asks(r, source, e)
    ensures C.Begun(files, run, r)[W.IndexPath(run)] == PageOf(e)
    ensures C.Paged(files, run, r)[W.IndexPath(run)] == PageOf(e)
  {
  }

  // --- the steps of a session ---

  datatype Step =
    | Start(message: Message, envelope: Envelope)
    | Prepare(initial: Message, request: W.Request, mid: W.Files)
    | Fail(initial: Message, request: W.Request, mid: W.Files)
    | Import(request: W.Request)
    | Clarify(message: Message)
    | Decide(k: nat, delivery: Delivery)
    | End(status: Status)

  predicate LastIsLive(s: Session) {
    s.runs != [] && !Terminal(s.runs[|s.runs| - 1].status)
  }

  function LastId(s: Session): Id
    requires s.runs != []
  {
    s.runs[|s.runs| - 1].id
  }

  function WithLast(s: Session, a: AgentRun): Session
    requires s.runs != []
  {
    s.(runs := s.runs[..|s.runs| - 1] + [a])
  }

  /** A new run is admitted with a request linked to the history so far. */
  ghost predicate Started(s: State, m: Message, e: Envelope, t: State) {
    && !LastIsLive(s.session) && t.files == s.files && t.source == s.source
    && e.kind.Initial? && e.previousIndex == 0 && e.delivered == []
    && IsInitial(m, m.runId) && m.contract.value == WithIndex(s.session, e)
    && m.runId != 0 && (forall a :: a in s.session.runs ==> a.id != m.runId)
    && t.session == s.session.(runs := s.session.runs + [AgentRun(m.runId, Queued, NoStop, NoError, false)],
                               messages := s.session.messages + [m])
  }

  /** Its preparation hook has prepared the batch. */
  ghost predicate BatchReady(s: State, m: Message, r: W.Request, mid: W.Files) {
    && LastIsLive(s.session) && m in s.session.messages && IsInitial(m, LastId(s.session))
    && Asks(r, s.source, m.contract.value)
    && W.OnlyBatch(s.files, mid, r) && W.Hashed(mid)
  }

  /** The hook completes: the page is written. */
  ghost predicate Prepared(s: State, m: Message, r: W.Request, mid: W.Files, t: State) {
    && BatchReady(s, m, r, mid) && C.Accepts(mid, LastId(s.session), r)
    && t == State(WithLast(s.session, s.session.runs[|s.session.runs| - 1].(prepared := true)),
                  C.Begun(mid, LastId(s.session), r), s.source)
  }

  /** The hook fails or is interrupted, at any of its writes. */
  ghost predicate Failed(s: State, m: Message, r: W.Request, mid: W.Files, t: State) {
    && BatchReady(s, m, r, mid) && t.session == s.session && t.source == s.source
    && (t.files == mid
        || (C.Accepts(mid, LastId(s.session), r)
            && (t.files == C.Paged(mid, LastId(s.session), r) || t.files == C.Begun(mid, LastId(s.session), r))))
  }

  /** A batch is imported, or the import is interrupted. */
  ghost predicate Imported(s: State, r: W.Request, t: State) {
    t.session == s.session && t.source == s.source && W.OnlyBatch(s.files, t.files, r) && W.Hashed(t.files)
  }

  /** A clarification is sent, its files having been imported before. */
  ghost predicate Clarified(s: State, m: Message, t: State) {
    && LastIsLive(s.session)
    && s.session.runs[|s.session.runs| - 1].prepared
    && m.runId == LastId(s.session) && !IsInitial(m, m.runId)
    && (IsFileClarification(m, m.runId) ==> C.Verified(s.files, W.ManifestPath(m.contract.value.anchor), s.source))
    && t == s.(session := s.session.(messages := s.session.messages + [m]))
  }

  /** A delivery settles while its run is live. */
  ghost predicate Decided(s: State, k: nat, d: Delivery, t: State) {
    && LastIsLive(s.session) && t.files == s.files && t.source == s.source
    && k < |s.session.messages| && s.session.messages[k].runId == LastId(s.session)
    && t.session == s.session.(messages := s.session.messages[k := s.session.messages[k].(delivery := d)])
  }

  ghost predicate Ended(s: State, status: Status, t: State) {
    && LastIsLive(s.session) && t.files == s.files && t.source == s.source && Terminal(status)
    && t.session == WithLast(s.session, s.session.runs[|s.session.runs| - 1].(status := status))
  }

  ghost predicate Next(s: State, step: Step, t: State) {
    match step
    case Start(m, e) => Started(s, m, e, t)
    case Prepare(m, r, mid) => Prepared(s, m, r, mid, t)
    case Fail(m, r, mid) => Failed(s, m, r, mid, t)
    case Import(r) => Imported(s, r, t)
    case Clarify(m) => Clarified(s, m, t)
    case Decide(k, d) => Decided(s, k, d, t)
    case End(status) => Ended(s, status, t)
  }

  // --- the invariant ---

  ghost predicate Named(s: Session) {
    && (forall i :: 0 <= i < |s.runs| ==> s.runs[i].id != 0)
    && (forall i, j :: 0 <= i < j < |s.runs| ==> s.runs[i].id != s.runs[j].id)
    && (forall m :: m in s.messages ==> exists i :: 0 <= i < |s.runs| && s.runs[i].id == m.runId)
    && (forall i :: 0 <= i < |s.runs| - 1 ==> Terminal(s.runs[i].status))
  }

  /** The request of the i-th run linked it to the last prepared run before it and to all that run had received. */
  ghost predicate IsLinked(s: Session, i: nat, e: Envelope)
    requires i < |s.runs|
  {
    && e.previousIndex == Previous(s.runs[..i])
    && e.delivered == Due(s.messages, Previous(s.runs[..i]))
  }

  ghost predicate RequestsLinked(s: Session) {
    forall i, m :: 0 <= i < |s.runs| && m in s.messages && IsInitial(m, s.runs[i].id) ==>
        IsLinked(s, i, m.contract.value)
  }

  ghost predicate HasPage(s: State, i: nat)
    requires i < |s.session.runs|
  {
    exists m :: m in s.session.messages && IsInitial(m, s.session.runs[i].id)
             && W.IndexPath(s.session.runs[i].id) in s.files
             && s.files[W.IndexPath(s.session.runs[i].id)] == PageOf(m.contract.value)
  }

  ghost predicate PagesWritten(s: State) {
    forall i :: 0 <= i < |s.session.runs| && s.session.runs[i].prepared ==> HasPage(s, i)
  }

  /** The pages of prepared runs are sound, and every file clarification that was sent has its batch. */
  ghost predicate FilesSound(s: State) {
    && W.Hashed(s.files)
    && (forall i :: 0 <= i < |s.session.runs| && s.session.runs[i].prepared ==>
         C.Sound(s.files, W.IndexPath(s.session.runs[i].id), s.source))
    && (forall m :: m in s.session.messages && IsFileClarification(m, m.runId) ==>
          C.Verified(s.files, W.ManifestPath(m.contract.value.anchor), s.source))
  }

  ghost predicate Inv(s: State) {
    Named(s.session) && RequestsLinked(s.session) && PagesWritten(s) && FilesSound(s)
  }

  // --- what a hook or an import leaves of the workspace ---

  /** Manifests stay verified, and pages other than `own` sound and as they were. */
  ghost predicate Carries(a: W.Files, b: W.Files, own: Id, source: Id) {
    && W.Hashed(b)
    && (forall p :: C.Verified(a, p, source) ==> C.Verified(b, p, source))
    && forall run :: run != own && C.Sound(a, W.IndexPath(run), source) ==>
         C.Sound(b, W.IndexPath(run), source) && b[W.IndexPath(run)] == a[W.IndexPath(run)]
  }

  lemma BatchCarries(a: W.Files, b: W.Files, r: W.Request, own: Id, source: Id)
    requires W.Hashed(a) && W.Hashed(b) && W.OnlyBatch(a, b, r)
    ensures Carries(a, b, own, source)
  {
    hide W.Hashed, W.OnlyBatch, C.Verified, C.AllVerified;
    forall p | C.Verified(a, p, source) ensures C.Verified(b, p, source) {
      C.VerifiedKept(a, b, r, p, source);
    }
    forall run | run != own && C.Sound(a, W.IndexPath(run), source)
      ensures C.Sound(b, W.IndexPath(run), source) && b[W.IndexPath(run)] == a[W.IndexPath(run)] {
      C.SoundKept(a, b, r, W.IndexPath(run), source);
    }
  }

  /** Neither write of begin_run touches a manifest or another page, and the page it writes is sound. */
  lemma BegunCarries(a: W.Files, b: W.Files, run: Id, r: W.Request)
    requires W.Hashed(a) && C.Accepts(a, run, r) && (b == C.Paged(a, run, r) || b == C.Begun(a, run, r))
    ensures Carries(a, b, run, r.source) && C.Sound(b, W.IndexPath(run), r.source)
  {
    forall p ensures C.Verified(b, p, r.source) == C.Verified(a, p, r.source) {
    }
    hide C.Verified;
    forall other | other != run && C.Sound(a, W.IndexPath(other), r.source)
      ensures C.Sound(b, W.IndexPath(other), r.source) && b[W.IndexPath(other)] == a[W.IndexPath(other)] {
    }
  }

  lemma CarriesTrans(a: W.Files, b: W.Files, c: W.Files, own: Id, source: Id)
    requires Carries(a, b, own, source) && Carries(b, c, own, source)
    ensures Carries(a, c, own, source)
  {
  }

  lemma HookCarries(a: W.Files, mid: W.Files, b: W.Files, run: Id, r: W.Request)
    requires W.Hashed(a) && W.Hashed(mid) && W.OnlyBatch(a, mid, r)
    requires b == mid || (C.Accepts(mid, run, r) && (b == C.Paged(mid, run, r) || b == C.Begun(mid, run, r)))
    ensures Carries(a, b, run, r.source)
    ensures b != mid ==> C.Sound(b, W.IndexPath(run), r.source)
    ensures b == mid && C.Sound(a, W.IndexPath(run), r.source) ==>
              C.Sound(b, W.IndexPath(run), r.source) && b[W.IndexPath(run)] == a[W.IndexPath(run)]
  {
    hide *;
    BatchCarries(a, mid, r, run, r.source);
    if b != mid {
      BegunCarries(mid, b, run, r);
      CarriesTrans(a, mid, b, run, r.source);
    } else if C.Sound(a, W.IndexPath(run), r.source) {
      C.SoundKept(a, mid, r, W.IndexPath(run), r.source);
    }
  }

  // --- lemmas on deliveries ---

  lemma {:induction false} DeliveredElsewhere(messages: seq<Message>, m: Message, run: Id)
    requires m.runId != run
    ensures DeliveredBatches(messages + [m], run) == DeliveredBatches(messages, run)
  {
    assert (messages + [m])[..|messages|] == messages;
  }

  lemma {:induction false} DecidedElsewhere(messages: seq<Message>, k: nat, m: Message, run: Id)
    requires k < |messages| && messages[k].runId == m.runId != run
    ensures DeliveredBatches(messages[k := m], run) == DeliveredBatches(messages, run)
  {
    var last := |messages| - 1;
    if k < last {
      assert messages[k := m][..last] == messages[..last][k := m];
      DecidedElsewhere(messages[..last], k, m, run);
    } else {
      assert messages[k := m][..last] == messages[..last];
    }
  }

  lemma PreviousIsEarlier(runs: seq<AgentRun>)
    ensures Previous(runs) == 0 || exists i :: 0 <= i < |runs| && runs[i].id == Previous(runs) && runs[i].prepared
  {
    if LastPrepared(runs).Some? {
      var i :| 0 <= i < |runs| && runs[i] == LastPrepared(runs).value;
    }
  }

  // --- preservation ---

  lemma Init(s: State)
    requires s.session.runs == [] && s.session.messages == [] && W.Hashed(s.files)
    ensures Inv(s)
  {
  }

  lemma StartNames(s: State, m: Message, e: Envelope, t: State)
    requires Inv(s) && Started(s, m, e, t)
    ensures Named(t.session)
  {
    var a, b, n := s.session, t.session, |s.session.runs|;
    hide RequestsLinked, PagesWritten, WithIndex;
    assert b.runs[n].id == m.runId;
    forall x | x in b.messages ensures exists i :: 0 <= i < |b.runs| && b.runs[i].id == x.runId {
      if x != m {
        var i :| 0 <= i < n && a.runs[i].id == x.runId;
        assert b.runs[i] == a.runs[i];
      }
    }
  }

  lemma StartLinks(s: State, m: Message, e: Envelope, t: State)
    requires Inv(s) && Started(s, m, e, t)
    ensures RequestsLinked(t.session)
  {
    var a, b, n := s.session, t.session, |s.session.runs|;
    NextRequest(s, e);
    hide PagesWritten, WithIndex, Previous, DeliveredBatches;
    assert a.runs[..n] == a.runs && forall i :: 0 <= i <= n ==> b.runs[..i] == a.runs[..i];
    forall i, x | 0 <= i < |b.runs| && x in b.messages &&
        IsInitial(x, b.runs[i].id) ensures IsLinked(b, i, x.contract.value) {
      PreviousIsEarlier(a.runs[..i]);
      assert Previous(a.runs[..i]) != m.runId;
      if Previous(a.runs[..i]) != 0 {
        DeliveredElsewhere(a.messages, m, Previous(a.runs[..i]));
      }
      if i < n {
        assert x in a.messages && IsLinked(a, i, x.contract.value);
      } else {
        assert forall y :: y in a.messages ==> y.runId != m.runId;
        assert x == m;
      }
    }
  }

  lemma StartPages(s: State, m: Message, e: Envelope, t: State)
    requires Inv(s) && Started(s, m, e, t)
    ensures PagesWritten(t)
  {
    hide RequestsLinked, Named, WithIndex, PageOf, IsLinked;
    forall i | 0 <= i < |t.session.runs| && t.session.runs[i].prepared ensures HasPage(t, i) {
      assert i < |s.session.runs| && HasPage(s, i);
      var x :| x in s.session.messages && IsInitial(x, s.session.runs[i].id) &&
          W.IndexPath(s.session.runs[i].id) in s.files
            && s.files[W.IndexPath(s.session.runs[i].id)] == PageOf(x.contract.value);
      assert x in t.session.messages;
    }
  }

  lemma StartKeeps(s: State, m: Message, e: Envelope, t: State)
    requires Inv(s) && Started(s, m, e, t)
    ensures Inv(t)
  {
    hide *;
    StartNames(s, m, e, t);
    StartLinks(s, m, e, t);
    StartPages(s, m, e, t);
    StartSound(s, m, e, t);
    Assembled(t);
  }

  lemma StartSound(s: State, m: Message, e: Envelope, t: State)
    requires Inv(s) && Started(s, m, e, t)
    ensures FilesSound(t)
  {
    hide RequestsLinked, PagesWritten, Named, C.Sound, C.Verified, W.Hashed;
    forall i | 0 <= i < |t.session.runs| && t.session.runs[i].prepared
      ensures C.Sound(t.files, W.IndexPath(t.session.runs[i].id), t.source) {
      assert t.session.runs[i] == s.session.runs[i];
    }
  }

  /** Progress of the last run itself changes no link. */
  lemma LastChanges(a: Session, b: Session)
    requires Named(a) && RequestsLinked(a) && a.messages == b.messages && |a.runs| == |b.runs| > 0
    requires forall i :: 0 <= i < |a.runs| - 1 ==> b.runs[i] == a.runs[i]
    requires b.runs[|a.runs| - 1].id == a.runs[|a.runs| - 1].id
    ensures Named(b) && RequestsLinked(b)
  {
    var n := |a.runs|;
    assert forall i :: 0 <= i < n ==> b.runs[i].id == a.runs[i].id;
    hide DeliveredBatches, LastPrepared, IsInitial, RequestsLinked, IsLinked;
    forall i | 0 <= i < n ensures b.runs[..i] == a.runs[..i] {
    }
    LinksSame(a, b);
  }

  lemma LinksSame(a: Session, b: Session)
    requires RequestsLinked(a) && a.messages == b.messages && |a.runs| == |b.runs|
    requires forall i :: 0 <= i < |a.runs| ==> b.runs[..i] == a.runs[..i] && b.runs[i].id == a.runs[i].id
    ensures RequestsLinked(b)
  {
    forall i, x | 0 <= i < |b.runs| && x in b.messages &&
        IsInitial(x, b.runs[i].id) ensures IsLinked(b, i, x.contract.value) {
      assert IsLinked(a, i, x.contract.value);
    }
  }

  lemma PrepareKeeps(s: State, initial: Message, r: W.Request, mid: W.Files, t: State)
    requires Inv(s) && Prepared(s, initial, r, mid, t)
    ensures Inv(t)
  {
    LastChanges(s.session, t.session);
    HookCarries(s.files, mid, t.files, LastId(s.session), r);
    BegunLeavesPage(mid, LastId(s.session), r, s.source, initial.contract.value);
    HookKeeps(s, initial, t);
  }

  lemma FailKeeps(s: State, initial: Message, r: W.Request, mid: W.Files, t: State)
    requires Inv(s) && Failed(s, initial, r, mid, t)
    ensures Inv(t)
  {
    HookCarries(s.files, mid, t.files, LastId(s.session), r);
    BegunLeavesPage(mid, LastId(s.session), r, s.source, initial.contract.value);
    HookKeeps(s, initial, t);
  }

  /** After a hook, the last run's page is as it was or the one its request asks for. */
  lemma HookKeeps(s: State, initial: Message, t: State)
    requires Inv(s) && Named(t.session) && RequestsLinked(t.session) && s.session.runs != []
    requires s.session.messages == t.session.messages && |s.session.runs| == |t.session.runs| && s.source == t.source
    requires forall i :: 0 <= i < |s.session.runs| - 1 ==> t.session.runs[i] == s.session.runs[i]
    requires t.session.runs[|s.session.runs| - 1].id == LastId(s.session)
    requires initial in s.session.messages && IsInitial(initial, LastId(s.session))
    requires Carries(s.files, t.files, LastId(s.session), s.source)
    requires var p := W.IndexPath(LastId(s.session));
             t.session.runs[|s.session.runs| - 1].prepared ==>
               && C.Sound(t.files, p, s.source)
               && ((t.files[p] == PageOf(initial.contract.value))
                   || (s.session.runs[|s.session.runs| - 1].prepared && p in s.files && t.files[p] == s.files[p]))
    ensures Inv(t)
  {
    var a, b, n := s.session, t.session, |s.session.runs|;
    hide RequestsLinked, Named, C.Verified, PageOf, W.Hashed;
    forall i | 0 <= i < n && b.runs[i].prepared
      ensures HasPage(t, i) && C.Sound(t.files, W.IndexPath(b.runs[i].id), t.source) {
      if i < n - 1 {
        assert HasPage(s, i) && b.runs[i] == a.runs[i];
        NotLast(a, i);
      } else if a.runs[i].prepared {
        assert HasPage(s, i);
      }
    }
  }

  lemma ImportKeeps(s: State, r: W.Request, t: State)
    requires Inv(s) && Imported(s, r, t)
    ensures Inv(t)
  {
    BatchCarries(s.files, t.files, r, 0, s.source);
    hide RequestsLinked, Named, C.Verified, PageOf, W.Hashed, W.OnlyBatch;
    forall i | 0 <= i < |t.session.runs| && t.session.runs[i].prepared
      ensures HasPage(t, i) && C.Sound(t.files, W.IndexPath(t.session.runs[i].id), t.source) {
      assert HasPage(s, i);
      assert C.Sound(s.files, W.IndexPath(s.session.runs[i].id), s.source);
    }
  }

  lemma NotLast(s: Session, i: nat)
    requires Named(s) && i < |s.runs| - 1
    ensures s.runs[i].id != LastId(s)
  {
  }

  /** Messages of the last run change nothing for the runs before it. */
  lemma LinkedStays(a: Session, b: Session)
    requires Named(a) && RequestsLinked(a) && a.runs == b.runs
    requires forall x :: x in b.messages && x.contract.Some? && x.contract.value.kind.Initial? ==>
               exists y :: y in a.messages && y.runId == x.runId && y.contract == x.contract
    requires forall i :: 0 <= i < |a.runs| - 1 ==>
              DeliveredBatches(b.messages, a.runs[i].id) == DeliveredBatches(a.messages, a.runs[i].id)
    ensures RequestsLinked(b)
  {
    forall i, x | 0 <= i < |b.runs| && x in b.messages &&
        IsInitial(x, b.runs[i].id) ensures IsLinked(b, i, x.contract.value) {
      var y :| y in a.messages && y.runId == x.runId && y.contract == x.contract;
      assert IsInitial(y, a.runs[i].id) && IsLinked(a, i, y.contract.value);
      PreviousIsEarlier(a.runs[..i]);
    }
  }

  lemma PagesStay(s: State, t: State)
    requires PagesWritten(s) && s.files == t.files && s.session.runs == t.session.runs
    requires forall y :: y in s.session.messages && y.contract.Some? ==>
               exists x :: x in t.session.messages && y.runId == x.runId && y.contract == x.contract
    ensures PagesWritten(t)
  {
    forall i | 0 <= i < |t.session.runs| && t.session.runs[i].prepared ensures HasPage(t, i) {
      assert HasPage(s, i);
    }
  }

  lemma NamedStays(a: Session, b: Session)
    requires Named(a) && a.runs == b.runs
    requires forall x :: x in b.messages ==> x.runId == LastIdOr(a) || exists y :: y in a.messages && y.runId == x.runId
    requires a.runs != []
    ensures Named(b)
  {
    forall x | x in b.messages ensures exists i :: 0 <= i < |b.runs| && b.runs[i].id == x.runId {
      if x.runId == LastIdOr(a) {
        assert b.runs[|b.runs| - 1].id == x.runId;
      }
    }
  }

  function LastIdOr(s: Session): Id {
    if s.runs == [] then 0 else LastId(s)
  }

  lemma ClarifiedElsewhere(s: Session, m: Message)
    requires Named(s) && s.runs != [] && m.runId == LastId(s)
    ensures forall i :: 0 <= i < |s.runs| - 1 ==>
              DeliveredBatches(s.messages + [m], s.runs[i].id) == DeliveredBatches(s.messages, s.runs[i].id)
  {
    forall i | 0 <= i < |s.runs| - 1 ensures DeliveredBatches(s.messages + [m], s.runs[i].id) ==
        DeliveredBatches(s.messages, s.runs[i].id) {
      DeliveredElsewhere(s.messages, m, s.runs[i].id);
    }
  }

  lemma DecidedElsewhereAll(s: Session, k: nat, m: Message)
    requires Named(s) && s.runs != [] && k < |s.messages| && s.messages[k].runId == m.runId == LastId(s)
    ensures forall i :: 0 <= i < |s.runs| - 1 ==>
              DeliveredBatches(s.messages[k := m], s.runs[i].id) == DeliveredBatches(s.messages, s.runs[i].id)
  {
    forall i | 0 <= i < |s.runs| - 1 ensures DeliveredBatches(s.messages[k := m], s.runs[i].id) ==
        DeliveredBatches(s.messages, s.runs[i].id) {
      DecidedElsewhere(s.messages, k, m, s.runs[i].id);
    }
  }

  lemma ClarifiedMessages(s: State, m: Message, t: State)
    requires Inv(s) && Clarified(s, m, t)
    ensures Named(s.session) && RequestsLinked(s.session) && PagesWritten(s) && s.session.runs != []
    ensures s.files == t.files && s.session.runs == t.session.runs && t.session.messages == s.session.messages + [m]
    ensures forall x :: x in t.session.messages ==>
              x.runId == LastIdOr(s.session) || exists y :: y in s.session.messages && y.runId == x.runId
    ensures forall x :: x in t.session.messages && x.contract.Some? && x.contract.value.kind.Initial? ==>
              exists y :: y in s.session.messages && y.runId == x.runId && y.contract == x.contract
    ensures forall y :: y in s.session.messages && y.contract.Some? ==>
              exists x :: x in t.session.messages && y.runId == x.runId && y.contract == x.contract
  {
    forall x | x in t.session.messages ensures x == m || x in s.session.messages {
    }
    forall x | x in s.session.messages ensures x in t.session.messages {
    }
  }

  lemma Assembled(s: State)
    requires Named(s.session) && RequestsLinked(s.session) && PagesWritten(s) && FilesSound(s)
    ensures Inv(s)
  {
  }

  lemma ClarifyKeeps(s: State, m: Message, t: State)
    requires Inv(s) && Clarified(s, m, t)
    ensures Inv(t)
  {
    var a, b := s.session, t.session;
    ClarifiedElsewhere(a, m);
    hide *;
    ClarifiedMessages(s, m, t);
    NamedStays(a, b);
    LinkedStays(a, b);
    PagesStay(s, t);
    ClarifySound(s, m, t);
    Assembled(t);
  }

  lemma ClarifySound(s: State, m: Message, t: State)
    requires Inv(s) && Clarified(s, m, t)
    ensures FilesSound(t)
  {
    hide RequestsLinked, PagesWritten, Named, C.Sound, C.Verified, W.Hashed;
  }

  lemma DecideKeeps(s: State, k: nat, d: Delivery, t: State)
    requires Inv(s) && Decided(s, k, d, t)
    ensures Inv(t)
  {
    var a, b := s.session, t.session;
    assert forall x :: x in b.messages ==> x in a.messages || x == b.messages[k];
    assert a.messages[k] in a.messages && b.messages[k] in b.messages;
    forall y | y in a.messages ensures y in b.messages || y == a.messages[k] {
      var j :| 0 <= j < |a.messages| && a.messages[j] == y;
      assert j != k ==> b.messages[j] == y;
    }
    DecidedElsewhereAll(a, k, b.messages[k]);
    hide DeliveredBatches, RequestsLinked, PagesWritten, Named;
    NamedStays(a, b);
    LinkedStays(a, b);
    PagesStay(s, t);
  }

  lemma EndKeeps(s: State, status: Status, t: State)
    requires Inv(s) && Ended(s, status, t)
    ensures Inv(t)
  {
    var a, b := s.session, t.session;
    LastChanges(a, b);
    hide RequestsLinked, Named;
    forall i | 0 <= i < |b.runs| && b.runs[i].prepared ensures HasPage(t, i) {
      assert b.runs[i].id == a.runs[i].id && b.runs[i].prepared == a.runs[i].prepared;
      assert HasPage(s, i);
    }
  }

  lemma NextKeeps(s: State, step: Step, t: State)
    requires Inv(s) && Next(s, step, t)
    ensures Inv(t)
  {
    hide Inv, Started, Prepared, Failed, Imported, Clarified, Decided, Ended;
    match step
    case Start(m, e) => StartKeeps(s, m, e, t);
    case Prepare(m, r, mid) => PrepareKeeps(s, m, r, mid, t);
    case Fail(m, r, mid) => FailKeeps(s, m, r, mid, t);
    case Import(r) => ImportKeeps(s, r, t);
    case Clarify(m) => ClarifyKeeps(s, m, t);
    case Decide(k, d) => DecideKeeps(s, k, d, t);
    case End(status) => EndKeeps(s, status, t);
  }

  ghost predicate Run(trace: seq<State>, steps: seq<Step>) {
    && |trace| == |steps| + 1
    && trace[0].session.runs == [] && trace[0].session.messages == [] && W.Hashed(trace[0].files)
    && forall i :: 0 <= i < |steps| ==> Next(trace[i], steps[i], trace[i + 1])
  }

  lemma {:induction false} RunKeeps(trace: seq<State>, steps: seq<Step>)
    requires Run(trace, steps)
    ensures Inv(trace[|steps|])
  {
    hide Inv, Next;
    if steps == [] {
      Init(trace[0]);
    } else {
      var n := |steps| - 1;
      RunKeeps(trace[..|steps|], steps[..n]);
      NextKeeps(trace[n], steps[n], trace[n + 1]);
    }
  }

  // --- coverage ---

  lemma PageLists(e: Envelope)
    ensures PageOf(e).IndexDoc? && PageOf(e).page.schema == 1 && PageOf(e).page.previous == Ref(e.previousIndex)
    ensures forall a :: a in e.delivered ==> W.ManifestPath(a) in PageOf(e).page.batches
    ensures W.ManifestPath(e.anchor) in PageOf(e).page.batches
  {
  }

  /** The page of a prepared run is that of its request. */
  lemma PageIsOf(s: State, n: nat) returns (e: Envelope)
    requires Inv(s) && 0 < n <= |s.session.runs| && s.session.runs[n - 1].prepared
    ensures W.IndexPath(s.session.runs[n - 1].id) in s.files
    ensures s.files[W.IndexPath(s.session.runs[n - 1].id)] == PageOf(e)
    ensures IsLinked(s.session, n - 1, e)
  {
    hide Due, Previous, PageOf, IsLinked;
    assert HasPage(s, n - 1);
    var m :| m in s.session.messages && IsInitial(m, s.session.runs[n - 1].id)
          && s.files[W.IndexPath(s.session.runs[n - 1].id)] == PageOf(m.contract.value);
    e := m.contract.value;
  }

  /** What that page says. */
  lemma PageFacts(s: State, n: nat)
    requires Inv(s) && 0 < n <= |s.session.runs| && s.session.runs[n - 1].prepared
    ensures Previous(s.session.runs[..n]) == s.session.runs[n - 1].id
    ensures var p := W.IndexPath(s.session.runs[n - 1].id);
            && p in s.files && s.files[p].IndexDoc? && s.files[p].page.schema == 1
            && s.files[p].page.previous == Ref(Previous(s.session.runs[..n - 1]))
            && forall a :: a in Due(s.session.messages, Previous(s.session.runs[..n - 1])) ==>
                 W.ManifestPath(a) in s.files[p].page.batches
  {
    hide *;
    PreviousIsLast(s.session, n);
    var e := PageIsOf(s, n);
    PageLists(e);
    LinkedMeans(s.session, n - 1, e);
  }

  lemma PreviousIsLast(s: Session, n: nat)
    requires 0 < n <= |s.runs| && s.runs[n - 1].prepared
    ensures Previous(s.runs[..n]) == s.runs[n - 1].id
  {
    assert s.runs[..n][..n - 1] == s.runs[..n - 1];
  }

  lemma LinkedMeans(s: Session, i: nat, e: Envelope)
    requires i < |s.runs| && IsLinked(s, i, e)
    ensures e.previousIndex == Previous(s.runs[..i]) && e.delivered == Due(s.messages, Previous(s.runs[..i]))
  {
  }

  /** One step of a walk from a page. */
  lemma WalkStep(files: W.Files, run: Id, source: Id, seen: set<W.Path>)
    requires run != 0
    requires var p := W.IndexPath(run); p in files && files[p].IndexDoc? && files[p].page.schema == 1
    ensures var p := W.IndexPath(run);
            var first := C.Walk(files, Ref(run), source, seen);
            var rest := C.Walk(files, files[p].page.previous, source, seen + {p});
            && (first.Some? ==> rest.Some? && first.value == [p] + rest.value)
            && (rest.Some? && p !in seen && C.AllVerified(files, files[p].page.batches, source) ==> first.Some?)
  {
  }

  /** From a prepared run the walk goes on to the one before. */
  lemma FollowsPage(s: State, n: nat, source: Id, seen: set<W.Path>)
    requires Inv(s) && 0 < n <= |s.session.runs| && s.session.runs[n - 1].prepared
    ensures var p := W.IndexPath(s.session.runs[n - 1].id);
            var first := C.Walk(s.files, Ref(Previous(s.session.runs[..n])), source, seen);
            var rest := C.Walk(s.files, Ref(Previous(s.session.runs[..n - 1])), source, seen + {p});
            && p in s.files && s.files[p].IndexDoc?
            && (first.Some? ==> rest.Some? && first.value == [p] + rest.value)
            && (rest.Some? && p !in seen && C.AllVerified(s.files, s.files[p].page.batches, source) ==> first.Some?)
            && Previous(s.session.runs[..n]) == s.session.runs[n - 1].id
            && forall a :: a in Due(s.session.messages, Previous(s.session.runs[..n - 1])) ==>
                 W.ManifestPath(a) in s.files[p].page.batches
  {
    PageFacts(s, n);
    assert s.session.runs[n - 1].id != 0;
    hide Inv, Previous, Due, C.Walk, C.AllVerified;
    WalkStep(s.files, s.session.runs[n - 1].id, source, seen);
  }

  /** An unprepared run is passed over. */
  lemma SkipsRun(s: State, n: nat)
    requires 0 < n <= |s.session.runs| && !s.session.runs[n - 1].prepared
    ensures Previous(s.session.runs[..n]) == Previous(s.session.runs[..n - 1])
  {
    assert s.session.runs[..n][..n - 1] == s.session.runs[..n - 1];
  }

  /** Walking the chain from the last of the first n runs meets the page of each of them that was prepared. */
  lemma {:induction false} ReachesPages(s: State, n: nat, source: Id, seen: set<W.Path>)
    requires Inv(s) && n <= |s.session.runs|
    requires C.Walk(s.files, Ref(Previous(s.session.runs[..n])), source, seen).Some?
    ensures var paths := C.Walk(s.files, Ref(Previous(s.session.runs[..n])), source, seen).value;
            forall i :: 0 <= i < n && s.session.runs[i].prepared ==> W.IndexPath(s.session.runs[i].id) in paths
    decreases n
  {
    hide Inv, Previous, Due, C.Walk, C.AllVerified;
    if n > 0 {
      if s.session.runs[n - 1].prepared {
        FollowsPage(s, n, source, seen);
        ReachesPages(s, n - 1, source, seen + {W.IndexPath(s.session.runs[n - 1].id)});
      } else {
        SkipsRun(s, n);
        ReachesPages(s, n - 1, source, seen);
      }
    }
  }

  ghost predicate Listed(files: W.Files, paths: seq<W.Path>, batch: W.Path) {
    exists p :: p in paths && p in files && files[p].IndexDoc? && batch in files[p].page.batches
  }

  /** Every batch that one of the first n runs, prepared, had delivered is on a page of that walk, or due next. */
  lemma {:induction false} ReachesBatches(s: State, n: nat, source: Id, seen: set<W.Path>, i: nat, anchor: Id)
    requires Inv(s) && i < n <= |s.session.runs|
    requires C.Walk(s.files, Ref(Previous(s.session.runs[..n])), source, seen).Some?
    requires s.session.runs[i].prepared && anchor in DeliveredBatches(s.session.messages, s.session.runs[i].id)
    ensures var paths := C.Walk(s.files, Ref(Previous(s.session.runs[..n])), source, seen).value;
            || anchor in Due(s.session.messages, Previous(s.session.runs[..n]))
            || Listed(s.files, paths, W.ManifestPath(anchor))
    decreases n
  {
    hide Inv, Previous, C.Walk, C.AllVerified;
    var runs := s.session.runs;
    if runs[n - 1].prepared {
      FollowsPage(s, n, source, seen);
      var p := W.IndexPath(runs[n - 1].id);
      if i < n - 1 {
        ReachesBatches(s, n - 1, source, seen + {p}, i, anchor);
        var rest := C.Walk(s.files, Ref(Previous(runs[..n - 1])), source, seen + {p}).value;
        if Listed(s.files, rest, W.ManifestPath(anchor)) {
          var q :| q in rest && q in s.files && s.files[q].IndexDoc? &&
              W.ManifestPath(anchor) in s.files[q].page.batches;
          assert q in [p] + rest;
        } else {
          assert p in [p] + rest;
        }
      }
    } else {
      SkipsRun(s, n);
      ReachesBatches(s, n - 1, source, seen, i, anchor);
    }
  }

  lemma NextRequest(s: State, e: Envelope)
    requires Inv(s) && e.delivered == [] && e.previousIndex == 0
    ensures WithIndex(s.session, e).previousIndex == Previous(s.session.runs)
    ensures WithIndex(s.session, e).delivered == Due(s.session.messages, Previous(s.session.runs))
  {
    hide RequestsLinked, PagesWritten, DeliveredBatches;
    var last := LastPrepared(s.session.runs);
    if last.Some? {
      var i :| 0 <= i < |s.session.runs| && s.session.runs[i] == last.value;
      assert last.value.id != 0;
      assert e.delivered + DeliveredBatches(s.session.messages, last.value.id) ==
          DeliveredBatches(s.session.messages, last.value.id);
    }
  }

  lemma EarlierUnseen(s: State, n: nat, seen: set<W.Path>)
    requires Inv(s) && 0 < n <= |s.session.runs|
    requires forall i :: 0 <= i < n ==> W.IndexPath(s.session.runs[i].id) !in seen
    ensures forall i :: 0 <= i < n - 1 ==>
              W.IndexPath(s.session.runs[i].id) !in seen + {W.IndexPath(s.session.runs[n - 1].id)}
  {
    hide RequestsLinked, PagesWritten;
  }

  lemma WalkFromNone(s: State, source: Id, seen: set<W.Path>)
    ensures C.Walk(s.files, Ref(Previous(s.session.runs[..0])), source, seen) == Some([])
  {
  }

  /** The chain of prepared runs is always walked to its end. */
  lemma {:induction false} WalkSucceeds(s: State, n: nat, seen: set<W.Path>)
    requires Inv(s) && n <= |s.session.runs|
    requires forall i :: 0 <= i < n ==> W.IndexPath(s.session.runs[i].id) !in seen
    ensures C.Walk(s.files, Ref(Previous(s.session.runs[..n])), s.source, seen).Some?
    decreases n
  {
    hide Previous, Due, C.Walk, C.AllVerified, RequestsLinked, PagesWritten;
    WalkFromNone(s, s.source, seen);
    if n > 0 {
      if s.session.runs[n - 1].prepared {
        EarlierUnseen(s, n, seen);
        assert C.Sound(s.files, W.IndexPath(s.session.runs[n - 1].id), s.source);
        WalkSucceeds(s, n - 1, seen + {W.IndexPath(s.session.runs[n - 1].id)});
        FollowsPage(s, n, s.source, seen);
      } else {
        SkipsRun(s, n);
        WalkSucceeds(s, n - 1, seen);
      }
    }
  }

  /** Over every history: from the index that the request of the next run names, every batch delivered to an earlier
      prepared run can be reached, its own initial batch included. */
  lemma NothingIsLost(trace: seq<State>, steps: seq<Step>, e: Envelope, i: nat)
    requires Run(trace, steps) && e.delivered == [] && e.previousIndex == 0
    requires i < |trace[|steps|].session.runs| && trace[|steps|].session.runs[i].prepared
    ensures var s, next := trace[|steps|], WithIndex(trace[|steps|].session, e);
            var walk := C.Walk(s.files, Ref(next.previousIndex), s.source, {});
            && walk.Some?
            && (forall anchor :: anchor in DeliveredBatches(s.session.messages, s.session.runs[i].id) ==>
                  anchor in next.delivered || Listed(s.files, walk.value, W.ManifestPath(anchor)))
            && (exists m :: m in s.session.messages && IsInitial(m, s.session.runs[i].id)
                  && Listed(s.files, walk.value, W.ManifestPath(m.contract.value.anchor)))
  {
    RunKeeps(trace, steps);
    var s := trace[|steps|];
    var runs, n := s.session.runs, |s.session.runs|;
    assert runs[..n] == runs;
    NextRequest(s, e);
    WalkSucceeds(s, n, {});
    hide Previous, C.Walk, C.Sound, C.Verified, DeliveredBatches, WithIndex, Due;
    forall anchor | anchor in DeliveredBatches(s.session.messages, runs[i].id)
      ensures anchor in WithIndex(s.session, e).delivered
           || Listed(s.files, C.Walk(s.files, Ref(WithIndex(s.session, e).previousIndex), s.source, {}).value,
                W.ManifestPath(anchor))
    {
      ReachesBatches(s, n, s.source, {}, i, anchor);
    }
    ReachesPages(s, n, s.source, {});
    assert HasPage(s, i);
    var m :| m in s.session.messages && IsInitial(m, runs[i].id) &&
        s.files[W.IndexPath(runs[i].id)] == PageOf(m.contract.value);
    assert W.IndexPath(runs[i].id) in s.files;
    PageLists(m.contract.value);
  }

  /** Batches that a run has received are verified. */
  lemma DueIsVerified(s: State)
    requires Inv(s)
    ensures C.AllVerified(s.files, Refs(Due(s.session.messages, Previous(s.session.runs))), s.source)
  {
    hide RequestsLinked, PagesWritten, Named, C.Verified, DeliveredBatches;
    var run := Previous(s.session.runs);
    var due := Due(s.session.messages, run);
    forall p | p in Refs(due) ensures C.Verified(s.files, p, s.source) {
      var i :| 0 <= i < |due| && p == Refs(due)[i];
      assert due[i] in DeliveredBatches(s.session.messages, run);
      var m :| m in s.session.messages && IsFileClarification(m, run) && m.contract.value.anchor == due[i];
      assert m.runId == run;
    }
  }

  /** Over every history, whatever was prepared, imported, interrupted or refused before: the chain that the request of
      the next run names, and the batches it lists, are sound. */
  lemma NextChainIsSound(trace: seq<State>, steps: seq<Step>, e: Envelope, r: W.Request)
    requires Run(trace, steps) && e.delivered == [] && e.previousIndex == 0
    requires Asks(r, trace[|steps|].source, WithIndex(trace[|steps|].session, e))
    ensures var s := trace[|steps|];
            C.Walk(s.files, r.previous, r.source, {}).Some? && C.AllVerified(s.files, r.delivered, r.source) &&
                W.Hashed(s.files)
  {
    var s := trace[|steps|];
    RunKeeps(trace, steps);
    NextRequest(s, e);
    assert s.session.runs[..|s.session.runs|] == s.session.runs;
    WalkSucceeds(s, |s.session.runs|, {});
    DueIsVerified(s);
  }

  /** So before_run accepts it, once its own batch is prepared. */
  lemma NextRunBegins(
    trace: seq<State>, steps: seq<Step>, e: Envelope, r: W.Request, mid: W.Files, entries: seq<W.InputFile>, run: Id)
    requires Run(trace, steps) && e.delivered == [] && e.previousIndex == 0 && run != 0 && r.anchor != 0
    requires Asks(r, trace[|steps|].source, WithIndex(trace[|steps|].session, e))
    requires W.OnlyBatch(trace[|steps|].files, mid, r) && W.Hashed(mid)
    requires W.ManifestPath(r.anchor) in mid && mid[W.ManifestPath(r.anchor)] == W.ManifestDoc(I.Batch(r, entries))
    ensures C.Accepts(mid, run, r)
  {
    hide W.OnlyBatch, W.Hashed, C.Walk, C.AllVerified, C.Accepts, Next, Asks, WithIndex;
    NextChainIsSound(trace, steps, e, r);
    C.PreparedAccepts(trace[|steps|].files, mid, run, r, entries);
  }

  // --- when the batch can be prepared ---

  /** The request that a step works on. */
  function Worked(step: Step): Option<W.Request> {
    match step
    case Prepare(_, r, _) => Some(r)
    case Fail(_, r, _) => Some(r)
    case Import(r) => Some(r)
    case _ => None
  }

  lemma StepFreezes(s: State, step: Step, t: State, a: Id)
    requires Next(s, step, t) && W.RequestPath(a) in t.files
    ensures W.RequestPath(a) in s.files ==> t.files[W.RequestPath(a)] == s.files[W.RequestPath(a)]
    ensures W.RequestPath(a) !in s.files ==>
              && Worked(step).Some? && Worked(step).value.anchor == a
              && t.files[W.RequestPath(a)] == W.RequestDoc(W.Frozen(Worked(step).value))
  {
    hide C.Accepts, PageOf, IsInitial, W.Hashed, WithIndex, C.Verified;
  }

  lemma StepKeepsRequest(s: State, step: Step, t: State, a: Id)
    requires Next(s, step, t) && W.RequestPath(a) in s.files
    ensures W.RequestPath(a) in t.files
  {
    hide C.Accepts, PageOf, IsInitial, W.Hashed, WithIndex, C.Verified;
  }

  lemma {:induction false} FrozenStays(trace: seq<State>, steps: seq<Step>, i: nat, a: Id)
    requires Run(trace, steps) && i <= |steps| && W.RequestPath(a) in trace[i].files
    ensures W.RequestPath(a) in trace[|steps|].files
    ensures trace[|steps|].files[W.RequestPath(a)] == trace[i].files[W.RequestPath(a)]
    decreases |steps| - i
  {
    hide Next;
    if i < |steps| {
      assert Next(trace[i], steps[i], trace[i + 1]);
      StepKeepsRequest(trace[i], steps[i], trace[i + 1], a);
      StepFreezes(trace[i], steps[i], trace[i + 1], a);
      FrozenStays(trace, steps, i + 1, a);
    }
  }

  /** The step that froze the request of this batch. */
  ghost predicate Freezes(trace: seq<State>, steps: seq<Step>, i: int, a: Id)
    requires |trace| == |steps| + 1
  {
    && 0 <= i < |steps| && W.RequestPath(a) !in trace[i].files && W.RequestPath(a) in trace[i + 1].files
    && Worked(steps[i]).Some? && Worked(steps[i]).value.anchor == a
  }

  /** Over every history in a workspace that did not hold the batch at first: preparing or importing it is refused as a
      conflict exactly when an earlier step froze, for the same anchor, another request; so a batch that is admitted
      again after an import must list the same files. */
  lemma ConflictsExactly(trace: seq<State>, steps: seq<Step>, r: W.Request)
    requires Run(trace, steps) && W.RequestPath(r.anchor) !in trace[0].files
    ensures I.Conflicts(trace[|steps|].files, r) <==>
            exists i :: Freezes(trace, steps, i, r.anchor) && W.Frozen(Worked(steps[i]).value) != W.Frozen(r)
  {
    var files, a := trace[|steps|].files, r.anchor;
    hide Next, W.Frozen;
    forall i | Freezes(trace, steps, i, a)
      ensures a == Worked(steps[i]).value.anchor && W.RequestPath(a) in files
      ensures files[W.RequestPath(a)] == W.RequestDoc(W.Frozen(Worked(steps[i]).value)) {
      assert Next(trace[i], steps[i], trace[i + 1]);
      StepFreezes(trace[i], steps[i], trace[i + 1], a);
      FrozenStays(trace, steps, i + 1, a);
    }
    if W.RequestPath(a) in files {
      FrozenAt(trace, steps, a);
    }
  }

  lemma FrozenAt(trace: seq<State>, steps: seq<Step>, a: Id)
    requires Run(trace, steps) && W.RequestPath(a) !in trace[0].files && W.RequestPath(a) in trace[|steps|].files
    ensures exists i :: Freezes(trace, steps, i, a)
  {
    hide Next;
    var i := FirstHolding(trace, steps, a);
    assert Next(trace[i], steps[i], trace[i + 1]);
    StepFreezes(trace[i], steps[i], trace[i + 1], a);
    assert Freezes(trace, steps, i, a);
  }

  lemma {:induction false} FirstHolding(trace: seq<State>, steps: seq<Step>, a: Id) returns (i: nat)
    requires |trace| == |steps| + 1 && W.RequestPath(a) !in trace[0].files && W.RequestPath(a) in trace[|steps|].files
    ensures i < |steps| && W.RequestPath(a) !in trace[i].files && W.RequestPath(a) in trace[i + 1].files
  {
    i := |steps| - 1;
    while W.RequestPath(a) in trace[i].files
      invariant i < |steps| && W.RequestPath(a) in trace[i + 1].files
      decreases i
    {
      i := i - 1;
    }
  }

  /** And it can happen after any history: once a batch has been imported for a clarification that is never accepted,
      its anchor cannot be admitted again with another request. */
  lemma ImportedThenOther(
    trace: seq<State>, steps: seq<Step>, q: W.Request, entries: seq<W.InputFile>, r: W.Request) returns (t: State)
    requires Run(trace, steps) && W.RequestPath(q.anchor) !in trace[|steps|].files
    requires r.anchor == q.anchor && W.Frozen(r) != W.Frozen(q)
    ensures Run(trace + [t], steps + [Import(q)])
    ensures W.ManifestPath(q.anchor) in t.files &&
              t.files[W.ManifestPath(q.anchor)] == W.ManifestDoc(I.Batch(q, entries))
    ensures I.Conflicts(t.files, r)
  {
    RunKeeps(trace, steps);
    var s := trace[|steps|];
    t := s.(files := s.files[W.RequestPath(q.anchor) := W.RequestDoc(W.Frozen(q))]
                            [W.ManifestPath(q.anchor) := W.ManifestDoc(I.Batch(q, entries))]);
    hide RequestsLinked, PagesWritten, Named, C.Sound, C.Verified;
    assert Imported(s, q, t);
    hide Imported, W.Hashed;
  }
}
