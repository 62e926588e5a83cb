/**
  Publication with durable receipts (internal/delivery/delivery.go).

  Every post of the bot carries a receipt, so a later attempt finds in the thread itself what has been posted.
  `Mattermost` is the server: a create may commit and still be reported as failed, may attach only some of the
  files, and other people act between any two calls, as long as the bot's receipts stay visible.
 */
module Delivery {
  import opened Collections
  import opened Chunks
  import X = Export

  type Id = nat // 0 is the empty string of the source

  // Digests are injective: of a text, and of the content of a post.
  datatype Digest = Sha256(of: string) | ContentHash(message: string, files: seq<Id>)

  type Artifact = X.Artifact

  // A rejection is published under the anchor and a digest of the revision, reason and input.
  datatype RunKey = Run(id: Id) | Attempt(anchor: Id, revision: Id, reason: string, input: Digest)

  datatype MessageKey =
    | Answer(id: Id)
    | AttachmentsFailed
    | AttachmentsOnly
    | RunStatus
    | EmptyResult
    | InputRejected
    | Repair(of: MessageKey, artifact: X.ArtifactId)

  datatype Version = Version(id: Id, edited: nat, hash: Digest)

  datatype Receipt = Receipt(
    source: Id, workflow: Id, session: Id, run: RunKey, message: MessageKey, part: nat,
    parts: nat, hash: Digest, attachments: seq<Artifact>, render: nat,
    triggers: seq<Id>, input: Option<Digest>, revision: Id, versions: seq<Version>)

  datatype Part = Part(receipt: Receipt, text: string)

  // `props` is the decoded receipt property: None when absent, malformed or of another schema.
  datatype Post = Post(
    id: Id, root: Id, channel: Id, user: Id, message: string, edited: nat, deleted: bool,
    files: seq<Id>, props: Option<Receipt>)

  datatype Scope = Scope(bot: Id, source: Id, workflow: Id, channel: Id, root: Id)

  datatype Published = Published(post: Post, receipt: Receipt)

  datatype ReceiptKey = ReceiptKey(
    source: Id, workflow: Id, session: Id, run: RunKey, message: MessageKey, part: nat)

  datatype Finding = Absent | One(found: Published) | Clash

  datatype Outcome = Done | Conflict | Upload | Failure

  datatype Render = Render(version: nat, maxChars: int, commentary: bool)

  function KeyOf(r: Receipt): ReceiptKey {
    ReceiptKey(r.source, r.workflow, r.session, r.run, r.message, r.part)
  }

  function RootOf(p: Post): Id {
    if p.root == 0 then p.id else p.root
  }

  /** The receipt of a post that belongs to this bot, thread and workflow. */
  function Receipted(s: Scope, p: Post): Option<Receipt> {
    if p.user != s.bot || p.channel != s.channel || RootOf(p) != s.root || p.deleted then
      None
    else if p.props.Some? && p.props.value.source == s.source && p.props.value.workflow == s.workflow then
      p.props
    else
      None
  }

  /** What the bot has visibly published, in thread order. */
  function Mine(s: Scope, posts: seq<Post>): seq<Published> {
    if posts == [] then
      []
    else
      var last := posts[|posts| - 1];
      var before := Mine(s, posts[..|posts| - 1]);
      if Receipted(s, last).Some? then before + [Published(last, Receipted(s, last).value)] else before
  }

  /** The published posts with one receipt key. */
  function Holding(mine: seq<Published>, k: ReceiptKey): seq<Published> {
    if mine == [] then
      []
    else
      var last := mine[|mine| - 1];
      var before := Holding(mine[..|mine| - 1], k);
      if KeyOf(last.receipt) == k then before + [last] else before
  }

  predicate SameArtifacts(a: seq<Artifact>, b: seq<Artifact>) {
    && |a| == |b|
    && forall i :: 0 <= i < |a| ==> a[i].id == b[i].id && a[i].sha == b[i].sha
  }

  /** A published post is this part, unaltered. */
  predicate Agrees(p: Published, part: Part, skip: bool) {
    && p.receipt.hash == part.receipt.hash
    && Sha256(p.post.message) == p.receipt.hash
    && p.receipt.parts == part.receipt.parts
    && p.receipt.render == part.receipt.render
    && (skip || SameArtifacts(p.receipt.attachments, part.receipt.attachments))
  }

  /** What Publisher.find must answer. */
  function Find(mine: seq<Published>, part: Part, skip: bool): Finding {
    var held := Holding(mine, KeyOf(part.receipt));
    if held == [] then Absent else if |held| == 1 && Agrees(held[0], part, skip) then One(held[0]) else Clash
  }

  // --- what a history of posts must satisfy ---

  /** At most one live post of the bot per receipt key. */
  ghost predicate NoDuplicates(mine: seq<Published>) {
    forall k :: |Holding(mine, k)| <= 1
  }

  /** A later part is never visible without the one before it. */
  ghost predicate PrefixClosed(mine: seq<Published>) {
    forall k: ReceiptKey :: k.part > 0 && Holding(mine, k) != [] ==> Holding(mine, k.(part := k.part - 1)) != []
  }

  /** What a publication may add: one post, a part with its attachment repairs and with or without the attachment
      notice, a message with or without it, the answers of a run with it, some items of a run, anything of it, or
      anything at all. */
  datatype Owner =
    | Exactly(only: ReceiptKey)
    | OfPart(key: ReceiptKey)
    | OfNoticed(noticed: ReceiptKey)
    | OfOne(session: Id, run: RunKey, message: MessageKey)
    | OfMessage(session: Id, run: RunKey, message: MessageKey)
    | OfAnswers(run: RunKey)
    | OfItems(run: RunKey, items: set<MessageKey>)
    | OfRun(of: RunKey)
    | OfAny

  predicate Owns(o: Owner, k: ReceiptKey)
    decreases if o.OfNoticed? then 1 else 0
  {
    match o
    case Exactly(key) => k == key
    case OfPart(key) => k == key || (k.message.Repair? && k == RepairKey(key, k.message.artifact))
    case OfNoticed(key) => Owns(OfPart(key), k) || (k.session == key.session && k.run == key.run && OfNotice(k.message))
    case OfOne(session, run, message) =>
      k.session == session && k.run == run && (k.message == message || (k.message.Repair? && k.message.of == message))
    case OfMessage(session, run, message) =>
      && k.session == session && k.run == run
      && (k.message == message || (k.message.Repair? && k.message.of == message) || OfNotice(k.message))
    case OfAnswers(run) =>
      && k.run == run
      && (k.message.Answer? || (k.message.Repair? && k.message.of.Answer?) || OfNotice(k.message))
    case OfItems(run, items) =>
      k.run == run && (k.message in items || (k.message.Repair? && k.message.of in items))
    case OfRun(run) => k.run == run
    case OfAny => true
  }

  predicate OfNotice(m: MessageKey) {
    m == AttachmentsFailed || (m.Repair? && m.of == AttachmentsFailed)
  }

  function RepairKey(k: ReceiptKey, artifact: X.ArtifactId): ReceiptKey {
    k.(message := Repair(k.message, artifact), part := 0)
  }

  /** Only keys of `own` gained a post, and only where there was none. */
  ghost predicate Adds(before: seq<Published>, after: seq<Published>, own: Owner) {
    forall k :: Holding(after, k) == Holding(before, k)
             || (Owns(own, k) && Holding(before, k) == [] && |Holding(after, k)| == 1)
  }

  /** Links between files and posts only accumulate. */
  ghost predicate Links(before: map<Id, Id>, after: map<Id, Id>) {
    forall f :: f in before && before[f] != 0 ==> f in after && after[f] == before[f]
  }

  predicate IsVerified(files: map<Id, Id>, p: Post, a: Artifact) {
    a.file in p.files && a.file in files && files[a.file] == p.id
  }

  /** The file is attached nowhere, as far as the server knows it. */
  predicate Free(files: map<Id, Id>, f: Id) {
    f !in files || files[f] == 0
  }

  predicate AllVerified(files: map<Id, Id>, p: Published) {
    forall i :: 0 <= i < |p.receipt.attachments| ==> IsVerified(files, p.post, p.receipt.attachments[i])
  }

  predicate IsNotice(p: Published, kind: MessageKey, run: RunKey) {
    p.receipt.message == kind && p.receipt.run == run && p.receipt.hash == Sha256(p.post.message)
  }

  /** A notice of this kind is visible for the run. */
  predicate Notice(mine: seq<Published>, kind: MessageKey, run: RunKey) {
    exists p :: p in mine && IsNotice(p, kind, run)
  }

  const REPAIR_TEXT := "Attachment for the answer."

  function RepairPart(part: Part, i: nat, artifact: X.ArtifactId): Part
    requires i < |part.receipt.attachments|
  {
    Part(part.receipt.(message := Repair(part.receipt.message, artifact), part := 0, parts := 1,
                       hash := Sha256(REPAIR_TEXT), attachments := [part.receipt.attachments[i]]),
         REPAIR_TEXT)
  }

  /** One post carries the part and all its files. */
  predicate Whole(mine: seq<Published>, files: map<Id, Id>, part: Part, skip: bool) {
    var f := Find(mine, part, skip);
    f.One? && (skip || AllVerified(files, f.found))
  }

  /** The part is posted, and each of its files is attached to it or to its own repair post. */
  predicate Delivered(mine: seq<Published>, files: map<Id, Id>, part: Part, skip: bool) {
    var f := Find(mine, part, skip);
    && f.One?
    && (skip || forall i :: 0 <= i < |f.found.receipt.attachments| ==> FileDelivered(mine, files, f.found, part, i))
  }

  predicate FileDelivered(mine: seq<Published>, files: map<Id, Id>, p: Published, part: Part, i: nat)
    requires i < |p.receipt.attachments|
    requires SameArtifacts(p.receipt.attachments, part.receipt.attachments)
  {
    || IsVerified(files, p.post, p.receipt.attachments[i])
    || Whole(mine, files, RepairPart(part, i, p.receipt.attachments[i].id), false)
  }

  // --- what a quiet server can do about files ---

  /** Only files of the list moved, and only onto this post. */
  ghost predicate Moves(before: map<Id, Id>, after: map<Id, Id>, ids: seq<Id>, p: Post) {
    && before.Keys == after.Keys
    && forall f :: f in before ==> after[f] == before[f] || (f in ids && after[f] == p.id && f in p.files)
  }

  function FilesOf(part: Part): (ids: seq<Id>)
    ensures |ids| == |part.receipt.attachments|
    ensures forall i :: 0 <= i < |ids| ==> ids[i] == part.receipt.attachments[i].file
  {
    seq(|part.receipt.attachments|, i requires 0 <= i < |part.receipt.attachments| => part.receipt.attachments[i].file)
  }

  predicate DistinctFiles(part: Part) {
    forall i, j :: 0 <= i < j < |part.receipt.attachments| ==>
      && part.receipt.attachments[i].id != part.receipt.attachments[j].id
      && part.receipt.attachments[i].file != part.receipt.attachments[j].file
  }

  /** Nothing contradicts the repair of this file, and unless it is delivered it can still be attached. */
  predicate Repairable(mine: seq<Published>, files: map<Id, Id>, found: Published, part: Part, i: nat)
    requires i < |found.receipt.attachments|
    requires SameArtifacts(found.receipt.attachments, part.receipt.attachments)
  {
    && !Find(mine, RepairPart(part, i, found.receipt.attachments[i].id), false).Clash?
    && (FileDelivered(mine, files, found, part, i) || Free(files, part.receipt.attachments[i].file))
  }

  /** Nothing contradicts the part or the repairs of its files, which are delivered or can still be attached. */
  predicate FilesOpen(mine: seq<Published>, files: map<Id, Id>, part: Part) {
    && DistinctFiles(part)
    && match Find(mine, part, false)
       case Clash => false
       case One(found) => forall i :: 0 <= i < |found.receipt.attachments| ==> Repairable(mine, files, found, part, i)
       case Absent =>
         forall i :: 0 <= i < |part.receipt.attachments| ==>
           && Free(files, part.receipt.attachments[i].file)
           && !Find(mine, RepairPart(part, i, part.receipt.attachments[i].id), false).Clash?
  }

  /** Nothing in the thread contradicts the part, nor its files unless they are given up. */
  predicate PartOpen(mine: seq<Published>, files: map<Id, Id>, part: Part, skip: bool) {
    if skip then !Find(mine, part, true).Clash? else FilesOpen(mine, files, part)
  }

  // --- lemmas on posts ---

  lemma MineAppend(s: Scope, posts: seq<Post>, p: Post)
    ensures Mine(s, posts + [p]) ==
            if Receipted(s, p).Some? then Mine(s, posts) + [Published(p, Receipted(s, p).value)] else Mine(s, posts)
  {
    assert (posts + [p])[..|posts|] == posts;
  }

  lemma HoldingAppend(mine: seq<Published>, p: Published, k: ReceiptKey)
    ensures Holding(mine + [p], k) == if KeyOf(p.receipt) == k then Holding(mine, k) + [p] else Holding(mine, k)
  {
    assert (mine + [p])[..|mine|] == mine;
  }

  lemma {:induction false} HoldingPrefix(mine: seq<Published>, n: nat, k: ReceiptKey)
    requires n <= |mine|
    ensures Holding(mine[..n], k) <= Holding(mine, k)
    decreases |mine|
  {
    if n < |mine| {
      assert mine[..|mine| - 1][..n] == mine[..n];
      HoldingPrefix(mine[..|mine| - 1], n, k);
    } else {
      assert mine[..n] == mine;
    }
  }

  lemma {:induction false} MinePrefix(s: Scope, posts: seq<Post>, n: nat)
    requires n <= |posts|
    ensures Mine(s, posts[..n]) <= Mine(s, posts)
    decreases |posts|
  {
    if n < |posts| {
      assert posts[..|posts| - 1][..n] == posts[..n];
      MinePrefix(s, posts[..|posts| - 1], n);
    } else {
      assert posts[..n] == posts;
    }
  }

  /** A clash among the first posts stays one. */
  lemma ClashStays(s: Scope, posts: seq<Post>, n: nat, part: Part, skip: bool)
    requires n <= |posts|
    requires Find(Mine(s, posts[..n]), part, skip).Clash?
    ensures Find(Mine(s, posts), part, skip).Clash?
  {
    MinePrefix(s, posts, n);
    var all, first := Mine(s, posts), Mine(s, posts[..n]);
    assert first == all[..|first|];
    HoldingPrefix(all, |first|, KeyOf(part.receipt));
  }

  /** Everything in Holding has the key and is published. */
  lemma {:induction false} HoldingKeys(mine: seq<Published>, k: ReceiptKey)
    ensures forall p :: p in Holding(mine, k) ==> KeyOf(p.receipt) == k && p in mine
  {
    if mine != [] {
      HoldingKeys(mine[..|mine| - 1], k);
    }
  }

  lemma {:induction false} MineReceipted(s: Scope, posts: seq<Post>)
    ensures forall p :: p in Mine(s, posts) ==> p.post in posts && Receipted(s, p.post) == Some(p.receipt)
  {
    if posts != [] {
      MineReceipted(s, posts[..|posts| - 1]);
    }
  }

  /** Publishing elsewhere leaves a delivered part delivered. */
  lemma WholeStays(
    before: seq<Published>, after: seq<Published>, files: map<Id, Id>, linked: map<Id, Id>, own: Owner,
    part: Part, skip: bool)
    requires Adds(before, after, own) && Links(files, linked)
    requires Whole(before, files, part, skip)
    requires forall p :: p in before ==> p.post.id != 0
    ensures Whole(after, linked, part, skip)
  {
    HoldingKeys(before, KeyOf(part.receipt));
    assert Holding(after, KeyOf(part.receipt)) == Holding(before, KeyOf(part.receipt));
  }

  lemma FileStays(
    before: seq<Published>, after: seq<Published>, files: map<Id, Id>, linked: map<Id, Id>, own: Owner,
    part: Part, p: Published, i: nat)
    requires Adds(before, after, own) && Links(files, linked)
    requires i < |p.receipt.attachments| && SameArtifacts(p.receipt.attachments, part.receipt.attachments)
    requires FileDelivered(before, files, p, part, i)
    requires p.post.id != 0 && forall q :: q in before ==> q.post.id != 0
    ensures FileDelivered(after, linked, p, part, i)
  {
    if !IsVerified(files, p.post, p.receipt.attachments[i]) {
      WholeStays(before, after, files, linked, own, RepairPart(part, i, p.receipt.attachments[i].id), false);
    }
  }

  lemma DeliveredStays(
    before: seq<Published>, after: seq<Published>, files: map<Id, Id>, linked: map<Id, Id>, own: Owner,
    part: Part, skip: bool)
    requires Adds(before, after, own) && Links(files, linked)
    requires Delivered(before, files, part, skip)
    requires forall p :: p in before ==> p.post.id != 0
    ensures Delivered(after, linked, part, skip)
  {
    var f := Find(before, part, skip);
    HoldingKeys(before, KeyOf(part.receipt));
    assert Holding(after, KeyOf(part.receipt)) == Holding(before, KeyOf(part.receipt));
    if !skip {
      forall i | 0 <= i < |f.found.receipt.attachments| ensures FileDelivered(after, linked, f.found, part, i) {
        FileStays(before, after, files, linked, own, part, f.found, i);
      }
    }
  }

  lemma AddsNone(mine: seq<Published>, own: Owner)
    ensures Adds(mine, mine, own)
  {
  }

  lemma AddsTrans(a: seq<Published>, b: seq<Published>, c: seq<Published>, own: Owner)
    requires Adds(a, b, own) && Adds(b, c, own)
    ensures Adds(a, c, own)
  {
    forall k ensures Holding(c, k) == Holding(a, k) || (Owns(own, k) && Holding(a, k) == [] && |Holding(c, k)| == 1) {
      assert Holding(b, k) == Holding(a, k) || (Owns(own, k) && Holding(a, k) == [] && |Holding(b, k)| == 1);
    }
  }

  lemma AddsWiden(a: seq<Published>, b: seq<Published>, own: Owner, wide: Owner)
    requires Adds(a, b, own)
    requires forall k :: Owns(own, k) ==> Owns(wide, k)
    ensures Adds(a, b, wide)
  {
  }

  lemma LinksNone(files: map<Id, Id>)
    ensures Links(files, files)
  {
  }

  lemma LinksTrans(a: map<Id, Id>, b: map<Id, Id>, c: map<Id, Id>)
    requires Links(a, b) && Links(b, c)
    ensures Links(a, c)
  {
  }

  /** The identities, uniqueness and order that the receipts of a thread keep. */
  ghost predicate Orderly(mine: seq<Published>) {
    (forall p :: p in mine ==> p.post.id != 0) && NoDuplicates(mine) && PrefixClosed(mine)
  }

  /** A first post under a key, after the part before it, keeps the receipts in order. */
  lemma FirstPost(mine: seq<Published>, p: Published)
    requires Orderly(mine) && p.post.id != 0
    requires Holding(mine, KeyOf(p.receipt)) == []
    requires p.receipt.part > 0 ==> Holding(mine, KeyOf(p.receipt).(part := p.receipt.part - 1)) != []
    ensures Orderly(mine + [p]) && Adds(mine, mine + [p], Exactly(KeyOf(p.receipt)))
    ensures Holding(mine + [p], KeyOf(p.receipt)) == [p]
  {
    var key := KeyOf(p.receipt);
    forall k ensures Holding(mine + [p], k) == if k == key then [p] else Holding(mine, k) {
      HoldingAppend(mine, p, k);
    }
    assert NoDuplicates(mine + [p]) by {
      forall k ensures |Holding(mine + [p], k)| <= 1 {
        assert |Holding(mine, k)| <= 1;
      }
    }
  }

  lemma {:induction false} HeldByKey(mine: seq<Published>, p: Published)
    requires p in mine
    ensures p in Holding(mine, KeyOf(p.receipt))
  {
    if p != mine[|mine| - 1] {
      HeldByKey(mine[..|mine| - 1], p);
    }
  }

  /** A notice is there as long as the posts under its keys are. */
  lemma NoticeKept(before: seq<Published>, after: seq<Published>, kind: MessageKey, run: RunKey)
    requires Notice(before, kind, run)
    requires forall k: ReceiptKey :: k.message == kind && k.run == run && Holding(before, k) != [] ==>
               Holding(after, k) == Holding(before, k)
    ensures Notice(after, kind, run)
  {
    hide Holding;
    var p :| p in before && IsNotice(p, kind, run);
    HeldByKey(before, p);
    HoldingKeys(after, KeyOf(p.receipt));
    assert p in after;
  }

  /** Notices never disappear, and only a publication that owns the notice's key adds one. */
  lemma NoticeStays(before: seq<Published>, after: seq<Published>, own: Owner, kind: MessageKey, run: RunKey)
    requires Adds(before, after, own)
    ensures Notice(before, kind, run) ==> Notice(after, kind, run)
    ensures (forall k :: Owns(own, k) ==> k.message != kind || k.run != run)
            ==> Notice(after, kind, run) == Notice(before, kind, run)
  {
    hide Owns, Holding, Notice;
    if Notice(before, kind, run) {
      NoticeKept(before, after, kind, run);
    }
    if Notice(after, kind, run) && forall k :: Owns(own, k) ==> k.message != kind || k.run != run {
      NoticeKept(after, before, kind, run);
    }
  }

  /** A part of a notice that is posted is a notice. */
  lemma PostedNotice(mine: seq<Published>, part: Part, skip: bool)
    requires Find(mine, part, skip).One?
    ensures Notice(mine, part.receipt.message, part.receipt.run)
  {
    HoldingKeys(mine, KeyOf(part.receipt));
    assert IsNotice(Find(mine, part, skip).found, part.receipt.message, part.receipt.run);
  }

  /** Without regard to files, less is asked of a delivered part, and the files it should carry do not matter. */
  lemma SkipWeakens(mine: seq<Published>, files: map<Id, Id>, part: Part, skip: bool, attachments: seq<Artifact>)
    requires Delivered(mine, files, part, skip)
    ensures Delivered(mine, files, part, true)
    ensures Delivered(mine, files, part.(receipt := part.receipt.(attachments := attachments)), true)
  {
  }

  /** A live post of the bot in this thread, with this receipt for this workflow. */
  ghost predicate Bears(s: Scope, p: Post, r: Receipt) {
    && p.user == s.bot && p.channel == s.channel && !p.deleted
    && (p.root == s.root || (p.root == 0 && p.id == s.root)) && (p.root == 0 ==> p.id == s.root)
    && p.props == Some(r) && r.source == s.source && r.workflow == s.workflow
  }

  /** The receipt names the same part of the same message. */
  ghost predicate Same(r: Receipt, o: Receipt) {
    && r.source == o.source && r.workflow == o.workflow && r.session == o.session && r.run == o.run
    && r.message == o.message && r.part == o.part
  }

  /** The post is the part unaltered, and unless they are given up with the same files. */
  ghost predicate Unaltered(p: Post, r: Receipt, part: Part, skip: bool) {
    && r.hash == part.receipt.hash == Sha256(p.message)
    && r.parts == part.receipt.parts && r.render == part.receipt.render
    && (!skip ==>
         && |r.attachments| == |part.receipt.attachments|
         && forall i :: 0 <= i < |r.attachments| ==>
              && r.attachments[i].id == part.receipt.attachments[i].id
              && r.attachments[i].sha == part.receipt.attachments[i].sha)
  }

  lemma ReceiptedExactly(s: Scope, p: Post, r: Receipt)
    ensures Receipted(s, p) == Some(r) <==> Bears(s, p, r)
  {
  }

  lemma ReceiptedIs(s: Scope, p: Post, receipt: Option<Receipt>)
    requires receipt == Receipted(s, p)
    ensures forall r :: Bears(s, p, r) <==> receipt == Some(r)
  {
  }

  lemma MineExactly(s: Scope, posts: seq<Post>)
    ensures forall q :: q in Mine(s, posts) <==> q.post in posts && Bears(s, q.post, q.receipt)
  {
    MineReceipted(s, posts);
    forall q ensures q in Mine(s, posts) <==> q.post in posts && Bears(s, q.post, q.receipt) {
      ReceiptedExactly(s, q.post, q.receipt);
      if q.post in posts && Bears(s, q.post, q.receipt) {
        InMine(s, posts, q.post);
      }
    }
  }

  lemma HoldingExactly(mine: seq<Published>, part: Part)
    ensures forall q :: q in Holding(mine, KeyOf(part.receipt)) <==> q in mine && Same(q.receipt, part.receipt)
  {
    HoldingKeys(mine, KeyOf(part.receipt));
    forall q | q in mine && Same(q.receipt, part.receipt) ensures q in Holding(mine, KeyOf(part.receipt)) {
      HeldByKey(mine, q);
    }
  }

  /** A new post is created exactly when no receipt of the part is visible: here is all that keeps a part from being
      posted twice. */
  lemma AbsentExactly(s: Scope, posts: seq<Post>, part: Part, skip: bool)
    ensures Find(Mine(s, posts), part, skip).Absent? <==>
            forall p, r :: p in posts && Bears(s, p, r) ==> !Same(r, part.receipt)
  {
    var held := Holding(Mine(s, posts), KeyOf(part.receipt));
    MineExactly(s, posts);
    HoldingExactly(Mine(s, posts), part);
    if held != [] {
      assert held[0] in held;
    }
    forall p, r | p in posts && Bears(s, p, r) && Same(r, part.receipt) ensures held != [] {
      assert Published(p, r) in held;
    }
  }

  /** A part is found when one post bears it and is unaltered; it is contradicted when several do, or one that is
      altered. */
  lemma FindExactly(s: Scope, posts: seq<Post>, part: Part, skip: bool)
    ensures var finding := Find(Mine(s, posts), part, skip);
            && (finding.One? ==>
                 && finding.found.post in posts && Bears(s, finding.found.post, finding.found.receipt)
                 && Same(finding.found.receipt, part.receipt)
                 && Unaltered(finding.found.post, finding.found.receipt, part, skip)
                 && forall p, r :: p in posts && Bears(s, p, r) && Same(r, part.receipt) ==>
                      Published(p, r) == finding.found)
            && (finding.Clash? ==>
                 || |Holding(Mine(s, posts), KeyOf(part.receipt))| > 1
                 || exists p, r ::
                      p in posts && Bears(s, p, r) && Same(r, part.receipt) && !Unaltered(p, r, part, skip))
  {
    var held := Holding(Mine(s, posts), KeyOf(part.receipt));
    MineExactly(s, posts);
    HoldingExactly(Mine(s, posts), part);
    if |held| == 1 {
      assert held[0] in held && held == [held[0]];
      forall p, r | p in posts && Bears(s, p, r) && Same(r, part.receipt) ensures Published(p, r) == held[0] {
        assert Published(p, r) in held;
      }
    }
  }

  /** A notice is one whose text is intact, of this kind and run. */
  lemma NoticeExactly(s: Scope, posts: seq<Post>, kind: MessageKey, run: RunKey)
    ensures Notice(Mine(s, posts), kind, run) <==>
            exists p, r ::
              p in posts && Bears(s, p, r) && r.message == kind && r.run == run && r.hash == Sha256(p.message)
  {
    MineExactly(s, posts);
    if Notice(Mine(s, posts), kind, run) {
      var q :| q in Mine(s, posts) && IsNotice(q, kind, run);
      assert q.post in posts && Bears(s, q.post, q.receipt);
    }
    if p, r :| p in posts && Bears(s, p, r) && r.message == kind && r.run == run && r.hash == Sha256(p.message) {
      assert Published(p, r) in Mine(s, posts) && IsNotice(Published(p, r), kind, run);
    }
  }

  lemma {:induction false} InMine(s: Scope, posts: seq<Post>, p: Post)
    requires p in posts && Receipted(s, p).Some?
    ensures Published(p, Receipted(s, p).value) in Mine(s, posts)
  {
    if p != posts[|posts| - 1] {
      InMine(s, posts[..|posts| - 1], p);
    }
  }

  /** The remaining window: a committed post whose receipt is not visible does not stop a second post. */
  lemma HiddenReceiptDuplicates(s: Scope, part: Part, first: Post)
    requires Bears(s, first, part.receipt)
    ensures Find(Mine(s, [first]), part, true) != Absent
    ensures Find(Mine(s, [first.(props := None)]), part, true) == Absent
    ensures Find(Mine(s, [first.(deleted := true)]), part, true) == Absent
  {
    AbsentExactly(s, [first], part, true);
    AbsentExactly(s, [first.(props := None)], part, true);
    AbsentExactly(s, [first.(deleted := true)], part, true);
    assert first in [first];
  }

  /** Publishing under other keys decides nothing about a part. */
  lemma FindStays(before: seq<Published>, after: seq<Published>, own: Owner, part: Part, skip: bool)
    requires Adds(before, after, own) && !Owns(own, KeyOf(part.receipt))
    ensures Find(after, part, skip) == Find(before, part, skip)
  {
    assert Holding(after, KeyOf(part.receipt)) == Holding(before, KeyOf(part.receipt));
  }

  lemma OpenIsNoClash(mine: seq<Published>, files: map<Id, Id>, part: Part, skip: bool)
    requires PartOpen(mine, files, part, skip)
    ensures !Find(mine, part, skip).Clash? && !Find(mine, part, true).Clash? && (!skip ==> FilesOpen(mine, files, part))
  {
  }

  /** Publishing other parts, and giving up files, contradicts nothing of this one. */
  lemma PartOpenStays(
    before: seq<Published>, after: seq<Published>, files: map<Id, Id>, linked: map<Id, Id>, own: Owner, part: Part,
    skipped: bool, skip: bool)
    requires PartOpen(before, files, part, skipped) && Adds(before, after, own) && (skipped ==> skip)
    requires linked == files || part.receipt.attachments == []
    requires !Owns(own, KeyOf(part.receipt))
    requires part.receipt.attachments != [] ==> forall k :: Owns(OfPart(KeyOf(part.receipt)), k) ==> !Owns(own, k)
    ensures PartOpen(after, linked, part, skip)
  {
    hide Adds;
    assert Owns(OfPart(KeyOf(part.receipt)), KeyOf(part.receipt));
    FindStays(before, after, own, part, skip);
    FindStays(before, after, own, part, skipped);
    if !skip {
      var found := Find(before, part, false);
      forall i | 0 <= i < |part.receipt.attachments|
        ensures var repair := RepairPart(part, i, part.receipt.attachments[i].id);
                Find(after, repair, false) == Find(before, repair, false)
        ensures found.One? ==> Repairable(after, linked, found.found, part, i)
      {
        var repair := RepairPart(part, i, part.receipt.attachments[i].id);
        assert Owns(OfPart(KeyOf(part.receipt)), KeyOf(repair.receipt));
        FindStays(before, after, own, repair, false);
        if found.One? {
          assert found.found.receipt.attachments[i].id == part.receipt.attachments[i].id;
          assert Repairable(before, files, found.found, part, i);
        }
      }
    }
  }
}
