/** Inputs that the agent server refused for good: Engine.reject (internal/service/engine.go:598-618) records them in
    the thread, Publisher.Rejected (internal/delivery/delivery.go:131-151) reads them back. */
module Rejection {
  import opened Collections
  import opened Chunks
  import opened Delivery
  import opened Publishing
  import opened Publication

  datatype Input = Input(anchor: Id, triggers: seq<Id>, versions: seq<Version>, revision: Id, text: string,
      render: Render)

  /** conversation.PostVersion. */
  function VersionOf(p: Post): Version {
    Version(p.id, p.edited, ContentHash(p.message, p.files))
  }

  /** The latest post of each identity. */
  function Current(posts: seq<Post>): map<Id, Post> {
    if posts == [] then map[] else Current(posts[..|posts| - 1])[posts[|posts| - 1].id := posts[|posts| - 1]]
  }

  /** The post is the last of the list with its identity: what the thread holds now. */
  ghost predicate IsLatest(posts: seq<Post>, p: Post) {
    exists i :: 0 <= i < |posts| && posts[i] == p && forall j :: i < j < |posts| ==> posts[j].id != p.id
  }

  lemma {:induction false} CurrentExactly(posts: seq<Post>)
    ensures forall id :: id in Current(posts) ==> IsLatest(posts, Current(posts)[id]) && Current(posts)[id].id == id
    ensures forall p :: IsLatest(posts, p) ==> p.id in Current(posts) && Current(posts)[p.id] == p
  {
    if posts != [] {
      hide IsLatest;
      CurrentExactly(posts[..|posts| - 1]);
      LatestStep(posts);
    }
  }

  lemma LatestStep(posts: seq<Post>)
    requires posts != []
    ensures var front, last := posts[..|posts| - 1], posts[|posts| - 1];
            forall p :: IsLatest(posts, p) <==> p == last || (p.id != last.id && IsLatest(front, p))
  {
    var front, last := posts[..|posts| - 1], posts[|posts| - 1];
    forall p ensures IsLatest(posts, p) <==> p == last || (p.id != last.id && IsLatest(front, p)) {
      if IsLatest(posts, p) && p != last {
        var i :| 0 <= i < |posts| && posts[i] == p && forall j :: i < j < |posts| ==> posts[j].id != p.id;
        assert front[i] == p;
      }
      if p.id != last.id && IsLatest(front, p) {
        var i :| 0 <= i < |front| && front[i] == p && forall j :: i < j < |front| ==> front[j].id != p.id;
        assert posts[i] == p;
      }
    }
  }

  /** The post with this receipt refuses, for this revision, the post as it reads now. */
  ghost predicate Refuses(p: Post, r: Receipt, revision: Id, now: Post) {
    && r.message == InputRejected && r.hash == Sha256(p.message) && r.input != None && r.revision == revision
    && now.id in r.triggers && Version(now.id, now.edited, ContentHash(now.message, now.files)) in r.versions
  }

  /** Some visible rejection refuses a post of this identity as it reads now. */
  ghost predicate Refused(s: Scope, posts: seq<Post>, revision: Id, id: Id) {
    exists now, p, r ::
      IsLatest(posts, now) && now.id == id && p in posts && Bears(s, p, r) && Refuses(p, r, revision, now)
  }

  lemma RefusedExactly(s: Scope, posts: seq<Post>, revision: Id)
    ensures forall id :: id in Withdrawn(Mine(s, posts), Current(posts), revision) <==> Refused(s, posts, revision, id)
  {
    var mine, current := Mine(s, posts), Current(posts);
    MineExactly(s, posts);
    CurrentExactly(posts);
    hide Bears, IsLatest, Mine, Current, Withdrawn;
    forall id ensures id in Withdrawn(mine, current, revision) <==> Refused(s, posts, revision, id) {
      WithdrawnExactly(mine, current, revision, id);
      if id in Withdrawn(mine, current, revision) {
        var q :| q in mine && Records(q, revision, VersionOf(current[id]));
        assert Refuses(q.post, q.receipt, revision, current[id]);
      }
      if Refused(s, posts, revision, id) {
        var now, p, r :| IsLatest(posts, now) && now.id == id && p in posts && Bears(s, p, r) &&
            Refuses(p, r, revision, now);
        assert Published(p, r) in mine && Records(Published(p, r), revision, VersionOf(current[id]));
      }
    }
  }

  predicate IsRejection(p: Published, revision: Id) {
    && p.receipt.message.InputRejected?
    && p.receipt.hash == Sha256(p.post.message)
    && p.receipt.input.Some?
    && p.receipt.revision == revision
  }

  /** The receipt withdraws the post as it reads now. */
  predicate Withdraws(r: Receipt, v: Version, current: map<Id, Post>) {
    v in r.versions && v.id in r.triggers && v.id in current && VersionOf(current[v.id]) == v
  }

  ghost function Withdrawn(mine: seq<Published>, current: map<Id, Post>, revision: Id): set<Id> {
    set p, v | p in mine && v in p.receipt.versions && IsRejection(p, revision) &&
        Withdraws(p.receipt, v, current) :: v.id
  }

  method Rejected(p: Publisher, revision: Id) returns (ids: set<Id>)
    ensures ids == Withdrawn(p.Seen(), Current(p.posts), revision)
    ensures forall id :: id in ids <==> Refused(p.scope, p.posts, revision, id)
  {
    RefusedExactly(p.scope, p.posts, revision);
    hide Refused;
    var current := CurrentPosts(p.posts);
    ids := {};
    for i := 0 to |p.posts|
      invariant ids == Withdrawn(Mine(p.scope, p.posts[..i]), current, revision)
    {
      hide Withdrawn, Withdraws, IsRejection, Receipted;
      assert p.posts[..i + 1] == p.posts[..i] + [p.posts[i]];
      MineAppend(p.scope, p.posts[..i], p.posts[i]);
      var r := Receipted(p.scope, p.posts[i]);
      if r.Some? {
        var more := {};
        if IsRejection(Published(p.posts[i], r.value), revision) {
          more := Versions(r.value, current);
        }
        WithdrawnAppend(Mine(p.scope, p.posts[..i]), Published(p.posts[i], r.value), current, revision, more);
        ids := ids + more;
      }
    }
    assert p.posts[..|p.posts|] == p.posts;
  }

  method CurrentPosts(posts: seq<Post>) returns (current: map<Id, Post>)
    ensures current == Current(posts)
  {
    current := map[];
    for i := 0 to |posts|
      invariant current == Current(posts[..i])
    {
      assert posts[..i + 1][..i] == posts[..i];
      current := current[posts[i].id := posts[i]];
    }
    assert posts[..|posts|] == posts;
  }

  method Versions(r: Receipt, current: map<Id, Post>) returns (ids: set<Id>)
    ensures forall id :: id in ids <==> exists v :: v in r.versions && Withdraws(r, v, current) && v.id == id
  {
    ids := {};
    for i := 0 to |r.versions|
      invariant forall id :: id in ids <==> exists v :: v in r.versions[..i] && Withdraws(r, v, current) && v.id == id
    {
      var v := r.versions[i];
      assert r.versions[..i + 1] == r.versions[..i] + [v];
      if v.id in current && v.id in r.triggers && VersionOf(current[v.id]) == v {
        ids := ids + {v.id};
      }
    }
    assert r.versions[..|r.versions|] == r.versions;
  }

  lemma WithdrawnAppend(mine: seq<Published>, p: Published, current: map<Id, Post>, revision: Id, more: set<Id>)
    requires forall id :: id in more <==>
              IsRejection(p, revision) &&
                  exists v :: v in p.receipt.versions && Withdraws(p.receipt, v, current) && v.id == id
    ensures Withdrawn(mine + [p], current, revision) == Withdrawn(mine, current, revision) + more
  {
    var all := Withdrawn(mine + [p], current, revision);
    forall id | id in all ensures id in Withdrawn(mine, current, revision) + more {
      var q, v :| q in mine + [p] && v in q.receipt.versions && IsRejection(q, revision)
               && Withdraws(q.receipt, v, current) && v.id == id;
    }
    forall id | id in Withdrawn(mine, current, revision) + more ensures id in all {
      if id in more {
        var v :| v in p.receipt.versions && Withdraws(p.receipt, v, current) && v.id == id;
        assert p in mine + [p];
      } else {
        var q, v :| q in mine && v in q.receipt.versions && IsRejection(q, revision)
                 && Withdraws(q.receipt, v, current) && v.id == id;
        assert q in mine + [p];
      }
    }
  }

  /** The parts of the rejection notice, with the input they withdraw. */
  function RejectionParts(s: Scope, input: Input, reason: string): (parts: seq<Part>)
    ensures parts != [] && Numbered(parts)
    ensures forall i :: 0 <= i < |parts| ==> OfThread(s, parts[i]) && Recording(parts[i].receipt, input)
  {
    var run := Attempt(input.anchor, input.revision, reason, Sha256(input.text));
    var plain := Parts(s, 0, run, Item(InputRejected, reason, []), input.render);
    seq(|plain|, i requires 0 <= i < |plain| =>
      plain[i].(receipt :=
          plain[i].receipt.(triggers := input.triggers, versions := Triggered(input.versions, input.triggers),
                                             input := Some(Sha256(input.text)), revision := input.revision)))
  }

  /** The posts of a complete notice say the reason, under a key of the refused input's own. */
  lemma NoticeSpells(
    s: Scope, input: Input, reason: string, mine: seq<Published>, files: map<Id, Id>, skip: bool)
    requires var parts := RejectionParts(s, input, reason);
             forall j :: 0 <= j < |parts| ==> Delivered(mine, files, parts[j], skip)
    ensures Spells(mine, NoticeKey(s, input, reason), reason)
  {
    var parts := RejectionParts(s, input, reason);
    var key := NoticeKey(s, input, reason);
    hide RejectionParts, NoticeKey, PartTexts, Chunked, Mine, FileDelivered;
    var texts := PartTexts(reason, input.render.maxChars, input.render.version);
    NoticePart(s, input, reason);
    var posts := seq(|parts|, i requires 0 <= i < |parts| => Find(mine, parts[i], skip).found);
    var said := seq(|posts|, i requires 0 <= i < |posts| => posts[i].post.message);
    forall i | 0 <= i < |parts|
      ensures Holding(mine, key.(part := i)) == [posts[i]] && posts[i].receipt.parts == |parts| && said[i] == texts[i] {
      assert Delivered(mine, files, parts[i], skip);
      assert Sha256(said[i]) == Sha256(texts[i]);
    }
    hide Delivered, Find, Holding;
    assert said == texts;
    assert SpelledBy(mine, key, reason, posts);
  }

  lemma CompleteSpells(p: Publisher, input: Input, reason: string)
    requires Complete(p, RejectionParts(p.scope, input, reason))
    ensures Spells(p.Seen(), NoticeKey(p.scope, input, reason), reason)
  {
    hide RejectionParts, Delivered, Spells, NoticeKey;
    NoticeSpells(p.scope, input, reason, p.Seen(), p.mm.files, p.skip);
  }

  ghost function NoticeKey(s: Scope, input: Input, reason: string): ReceiptKey {
    ReceiptKey(s.source, s.workflow, 0, Attempt(input.anchor, input.revision, reason, Sha256(input.text)),
               InputRejected, 0)
  }

  lemma NoticePart(s: Scope, input: Input, reason: string)
    ensures var parts := RejectionParts(s, input, reason);
            var texts := PartTexts(reason, input.render.maxChars, input.render.version);
            |parts| == |texts| && forall i :: 0 <= i < |parts| ==>
              && KeyOf(parts[i].receipt) == NoticeKey(s, input, reason).(part := i)
              && parts[i].receipt.hash == Sha256(texts[i]) && parts[i].receipt.parts == |parts|
  {
  }

  /** The parts of one message, in order. */
  ghost predicate Numbered(parts: seq<Part>) {
    forall i :: 0 <= i < |parts| ==>
      && parts[i].receipt.part == i
      && KeyOf(parts[i].receipt) == KeyOf(parts[0].receipt).(part := i)
  }

  /** A part without files, of this thread. */
  predicate OfThread(s: Scope, part: Part) {
    && part.receipt.source == s.source && part.receipt.workflow == s.workflow && part.receipt.hash == Sha256(part.text)
    && part.receipt.attachments == []
  }

  /** The receipt of a notice for this input. */
  ghost predicate Recording(r: Receipt, input: Input) {
    && r.message.InputRejected? && r.input.Some? && r.revision == input.revision && r.triggers == input.triggers
    && forall v :: v in r.versions <==> v in input.versions && v.id in input.triggers
  }

  /** The versions of the triggers. */
  function Triggered(versions: seq<Version>, triggers: seq<Id>): (kept: seq<Version>)
    ensures forall v :: v in kept <==> v in versions && v.id in triggers
  {
    if versions == [] then
      []
    else
      (if versions[0].id in triggers then [versions[0]] else []) + Triggered(versions[1..], triggers)
  }

  /** Engine.reject. On success the notice is complete, and a post is withdrawn exactly when, as it reads now, it is a
      trigger of the input and some part of the notice was missing, or an earlier rejection had recorded it. Repeating
      the call changes nothing, and a quiet server posts a notice that nothing contradicts. */
  method Reject(p: Publisher, input: Input, reason: string) returns (outcome: Outcome)
    requires p.Synced()
    modifies p`posts, p.mm`thread, p.mm`files
    ensures p.mm.Clean() && (!outcome.Failure? ==> p.Synced())
    ensures outcome.Done? ==> Complete(p, RejectionParts(p.scope, input, reason))
    ensures outcome.Done? ==> Spells(p.Seen(), NoticeKey(p.scope, input, reason), reason)
    ensures outcome.Done? ==>
              forall v :: Reads(Current(p.posts), v) ==>
                (v.id in Withdrawn(p.Seen(), Current(p.posts), input.revision) <==>
                 || (v in input.versions && v.id in input.triggers &&
                      Incomplete(old(p.Seen()), RejectionParts(p.scope, input, reason), p.skip))
                 || exists q :: q in old(p.Seen()) && Records(q, input.revision, v))
    ensures (p.mm.quiet && old(Complete(p, RejectionParts(p.scope, input, reason)))) ==> outcome.Done? && p.Still()
    ensures (p.mm.quiet && p.scope.root != 0 &&
              Uncontradicted(old(p.Seen()), RejectionParts(p.scope, input, reason), p.skip))
            ==> outcome.Done?
  {
    var parts := RejectionParts(p.scope, input, reason);
    hide *;
    ghost var before := p.Seen();
    outcome := PublishNotice(p, parts);
    if outcome.Done? {
      CompleteSpells(p, input, reason);
      GrownWithdraws(before, p.Seen(), p.mm.files, Current(p.posts), input, parts, p.skip);
    }
  }

  /** Its loop over the parts. */
  method PublishNotice(p: Publisher, parts: seq<Part>) returns (outcome: Outcome)
    requires p.Synced() && parts != [] && Numbered(parts) && parts[0].receipt.message.InputRejected?
    requires forall i :: 0 <= i < |parts| ==> OfThread(p.scope, parts[i])
    modifies p`posts, p.mm`thread, p.mm`files
    ensures p.mm.Clean() && (!outcome.Failure? ==> p.Synced())
    ensures outcome.Done? ==> Complete(p, parts) && Grown(old(p.Seen()), p.Seen(), parts, |parts|, p.skip)
    ensures (p.mm.quiet && old(Complete(p, parts))) ==> outcome.Done? && p.Still()
    ensures p.mm.quiet && p.scope.root != 0 && Uncontradicted(old(p.Seen()), parts, p.skip) ==> outcome.Done?
  {
    hide Delivered, Orderly, Mine, Find, Grown, Adds, OfThread, Numbered, Holding, KeyOf, Owns;
    ghost var before := p.Seen();
    ghost var replay := p.mm.quiet && Complete(p, parts);
    ghost var open := p.mm.quiet && p.scope.root != 0 && Uncontradicted(before, parts, p.skip);
    GrownNone(before, parts, p.skip);
    for i := 0 to |parts|
      invariant p.Synced()
      invariant CompleteSoFar(p, parts, i) && Grown(before, p.Seen(), parts, i, p.skip)
      invariant replay ==> p.mm.quiet && p.Still()
      invariant open ==> p.mm.quiet
    {
      label turn:
      GrownOpen(before, p.Seen(), parts, i, p.skip);
      outcome := RejectPart(p, parts, i);
      if !outcome.Done? {
        return;
      }
      GrownStep(before, old@turn(p.Seen()), p.Seen(), parts, i, p.skip);
    }
    return Done;
  }

  /** Some part of the notice is missing. */
  predicate Incomplete(mine: seq<Published>, parts: seq<Part>, skip: bool) {
    exists j :: 0 <= j < |parts| && Find(mine, parts[j], skip).Absent?
  }

  /** Every visible part of the notice is unaltered. */
  predicate Uncontradicted(mine: seq<Published>, parts: seq<Part>, skip: bool) {
    forall j :: 0 <= j < |parts| ==> !Find(mine, parts[j], skip).Clash?
  }

  /** What the first i parts added: those that were missing, and repairs. */
  ghost predicate Grown(before: seq<Published>, now: seq<Published>, parts: seq<Part>, i: nat, skip: bool)
    requires i <= |parts|
  {
    && (forall q :: q in before ==> q in now)
    && (forall q :: q in now ==>
          || q in before || q.receipt.message.Repair?
          || exists j :: 0 <= j < i && Find(before, parts[j], skip).Absent? && q.receipt == parts[j].receipt)
    && (forall j :: 0 <= j < i && Find(before, parts[j], skip).Absent? ==>
          exists q :: Holding(now, KeyOf(parts[j].receipt)) == [q] && q.receipt == parts[j].receipt)
    && (forall j :: i <= j < |parts| ==>
         Holding(now, KeyOf(parts[j].receipt)) == Holding(before, KeyOf(parts[j].receipt)))
  }

  lemma GrownNone(before: seq<Published>, parts: seq<Part>, skip: bool)
    ensures Grown(before, before, parts, 0, skip)
  {
  }

  lemma GrownOpen(before: seq<Published>, now: seq<Published>, parts: seq<Part>, i: nat, skip: bool)
    requires i < |parts| && Grown(before, now, parts, i, skip)
    ensures Find(now, parts[i], skip) == Find(before, parts[i], skip)
  {
  }

  /** One more part. */
  lemma GrownStep(
    before: seq<Published>, now: seq<Published>, after: seq<Published>, parts: seq<Part>, i: nat, skip: bool)
    requires i < |parts| && Numbered(parts) && Grown(before, now, parts, i, skip)
    requires parts[0].receipt.message.InputRejected?
    requires Adds(now, after, OfPart(KeyOf(parts[i].receipt)))
    requires Find(now, parts[i], skip).Absent? ==>
               exists q :: Holding(after, KeyOf(parts[i].receipt)) == [q] && q.receipt == parts[i].receipt
    ensures Grown(before, after, parts, i + 1, skip)
  {
    var own := OfPart(KeyOf(parts[i].receipt));
    forall j | 0 <= j < |parts| && j != i
      ensures Holding(after, KeyOf(parts[j].receipt)) == Holding(now, KeyOf(parts[j].receipt)) {
      assert !Owns(own, KeyOf(parts[j].receipt));
    }
    forall q | q in before ensures q in after {
      HeldByKey(now, q);
      HoldingKeys(after, KeyOf(q.receipt));
    }
    forall q | q in after && q !in before && !q.receipt.message.Repair?
      ensures exists j :: 0 <= j < i + 1 && Find(before, parts[j], skip).Absent? && q.receipt == parts[j].receipt {
      HeldByKey(after, q);
      HoldingKeys(now, KeyOf(q.receipt));
      if q !in now {
        assert KeyOf(q.receipt) == KeyOf(parts[i].receipt) && Find(before, parts[i], skip).Absent?;
      }
    }
  }

  /** What the complete notice withdraws. */
  lemma GrownWithdraws(
    before: seq<Published>, now: seq<Published>, files: map<Id, Id>, current: map<Id, Post>, input: Input,
        parts: seq<Part>, skip: bool)
    requires Grown(before, now, parts, |parts|, skip)
    requires forall j :: 0 <= j < |parts| ==> Recording(parts[j].receipt, input)
    requires forall j :: 0 <= j < |parts| ==> Delivered(now, files, parts[j], skip)
    ensures forall v :: Reads(current, v) ==>
              (v.id in Withdrawn(now, current, input.revision) <==>
               || (v in input.versions && v.id in input.triggers && Incomplete(before, parts, skip))
               || exists q :: q in before && Records(q, input.revision, v))
  {
    hide Withdrawn, Find;
    forall v | Reads(current, v)
      ensures v.id in Withdrawn(now, current, input.revision) <==>
              || (v in input.versions && v.id in input.triggers && Incomplete(before, parts, skip))
              || exists q :: q in before && Records(q, input.revision, v) {
      WithdrawnExactly(now, current, input.revision, v.id);
      if v in input.versions && v.id in input.triggers && Incomplete(before, parts, skip) {
        var j :| 0 <= j < |parts| && Find(before, parts[j], skip).Absent?;
        NewPartRecords(now, files, parts[j], input, skip, v);
      }
    }
  }

  lemma NewPartRecords(mine: seq<Published>, files: map<Id, Id>, part: Part, input: Input, skip: bool, v: Version)
    requires Recording(part.receipt, input) && Delivered(mine, files, part, skip)
    requires exists q :: Holding(mine, KeyOf(part.receipt)) == [q] && q.receipt == part.receipt
    requires v in input.versions && v.id in input.triggers
    ensures exists q :: q in mine && Records(q, input.revision, v)
  {
    HoldingKeys(mine, KeyOf(part.receipt));
    var q :| Holding(mine, KeyOf(part.receipt)) == [q] && q.receipt == part.receipt;
    assert q in mine && Records(q, input.revision, v);
  }

  /** Every part of the notice is in the thread. */
  ghost predicate Complete(p: Publisher, parts: seq<Part>)
    reads p, p.mm
  {
    CompleteSoFar(p, parts, |parts|)
  }

  ghost predicate CompleteSoFar(p: Publisher, parts: seq<Part>, i: nat)
    requires i <= |parts|
    reads p, p.mm
  {
    forall j :: 0 <= j < i ==> Delivered(p.Seen(), p.mm.files, parts[j], p.skip)
  }

  /** One pass of its loop. */
  method RejectPart(p: Publisher, parts: seq<Part>, i: nat) returns (outcome: Outcome)
    requires p.Synced() && i < |parts| && CompleteSoFar(p, parts, i)
    requires Numbered(parts) && OfThread(p.scope, parts[i])
    modifies p`posts, p.mm`thread, p.mm`files
    ensures p.mm.Clean() && (!outcome.Failure? ==> p.Synced())
    ensures outcome.Done? ==> CompleteSoFar(p, parts, i + 1)
    ensures Adds(old(p.Seen()), p.mm.Receipts(), OfPart(KeyOf(parts[i].receipt)))
    ensures outcome.Done? && Find(old(p.Seen()), parts[i], p.skip).Absent? ==> p.PostedAs(parts[i].receipt)
    ensures p.mm.quiet && p.scope.root != 0 && !Find(old(p.Seen()), parts[i], p.skip).Clash? ==> outcome.Done?
    ensures p.mm.quiet && Delivered(old(p.Seen()), old(p.mm.files), parts[i], p.skip) ==> outcome.Done? && p.Still()
  {
    Turn(p, parts, i);
    outcome := p.Publish(parts[i]);
    if outcome.Done? {
      CompleteStays(p, parts, i, old(p.Seen()), old(p.mm.files), old(p.mm.Receipts()));
    }
  }

  lemma Turn(p: Publisher, parts: seq<Part>, i: nat)
    requires i < |parts| && CompleteSoFar(p, parts, i)
    requires Numbered(parts)
    ensures p.InTurn(parts[i])
  {
    if i > 0 {
      assert Delivered(p.Seen(), p.mm.files, parts[i - 1], p.skip);
    }
  }

  lemma CompleteStays(
    p: Publisher, parts: seq<Part>, i: nat, before: seq<Published>, files: map<Id, Id>, receipts: seq<Published>)
    requires p.Synced() && i < |parts| && before == receipts && Orderly(before)
    requires Adds(before, p.mm.Receipts(), OfPart(KeyOf(parts[i].receipt))) && Links(files, p.mm.files)
    requires forall j :: 0 <= j < i ==> Delivered(before, files, parts[j], p.skip)
    requires Delivered(p.Seen(), p.mm.files, parts[i], p.skip)
    ensures CompleteSoFar(p, parts, i + 1)
  {
    forall j | 0 <= j < i ensures Delivered(p.Seen(), p.mm.files, parts[j], p.skip) {
      DeliveredStays(before, p.Seen(), files, p.mm.files, OfPart(KeyOf(parts[i].receipt)), parts[j], p.skip);
    }
  }

  /** The post reads as this version. */
  predicate Reads(current: map<Id, Post>, v: Version) {
    v.id in current && VersionOf(current[v.id]) == v
  }

  /** A rejection of this revision records this version as a trigger. */
  predicate Records(p: Published, revision: Id, v: Version) {
    IsRejection(p, revision) && v.id in p.receipt.triggers && v in p.receipt.versions
  }

  /** A post is withdrawn exactly while some visible rejection of this revision records it as a trigger at its current
      version. */
  lemma WithdrawnExactly(mine: seq<Published>, current: map<Id, Post>, revision: Id, id: Id)
    ensures id in Withdrawn(mine, current, revision) <==>
            id in current && current[id].id == id &&
                exists p :: p in mine && Records(p, revision, VersionOf(current[id]))
  {
    if id in Withdrawn(mine, current, revision) {
      var p, v :| p in mine && v in p.receipt.versions && IsRejection(p, revision) &&
          Withdraws(p.receipt, v, current) && v.id == id;
      assert VersionOf(current[id]) == v;
    }
    if id in current {
      if p :| p in mine && Records(p, revision, VersionOf(current[id])) && current[id].id == id {
        assert Withdraws(p.receipt, VersionOf(current[id]), current);
      }
    }
  }

  // --- a post that is edited and edited back ---

  /** The notice as the server keeps it. */
  function NoticePosts(s: Scope, parts: seq<Part>, first: Id): seq<Post> {
    seq(|parts|, j requires 0 <= j < |parts| =>
      Post(first + 1 + j, s.root, s.channel, s.bot, parts[j].text, 0, false, [], Some(parts[j].receipt)))
  }

  function NoticeOf(s: Scope, parts: seq<Part>, first: Id): seq<Published> {
    seq(|parts|, j requires 0 <= j < |parts| => Published(NoticePosts(s, parts, first)[j], parts[j].receipt))
  }

  /** A thread of one post and its notice, as far as the first n parts. */
  lemma {:induction false} NoticeMine(s: Scope, post: Post, parts: seq<Part>, n: nat)
    requires s.root != 0 && Receipted(s, post).None? && n <= |parts|
    requires forall i :: 0 <= i < |parts| ==> OfThread(s, parts[i])
    ensures Mine(s, [post] + NoticePosts(s, parts, post.id)[..n]) == NoticeOf(s, parts, post.id)[..n]
  {
    var posts, mine := NoticePosts(s, parts, post.id), NoticeOf(s, parts, post.id);
    if n == 0 {
      assert [post] + posts[..0] == [] + [post];
      MineAppend(s, [], post);
      assert mine[..0] == [];
    } else {
      NoticeMine(s, post, parts, n - 1);
      assert Receipted(s, posts[n - 1]) == Some(parts[n - 1].receipt);
      hide Mine, Receipted, NoticePosts, NoticeOf;
      assert [post] + posts[..n] == ([post] + posts[..n - 1]) + [posts[n - 1]];
      assert mine[..n] == mine[..n - 1] + [mine[n - 1]];
      MineAppend(s, [post] + posts[..n - 1], posts[n - 1]);
    }
  }

  lemma {:induction false} NoticeHeld(mine: seq<Published>, parts: seq<Part>, n: nat)
    requires |mine| == |parts| && n <= |parts| && Numbered(parts)
    requires forall i :: 0 <= i < |parts| ==> mine[i].receipt == parts[i].receipt && mine[i].post.id != 0
    ensures Orderly(mine[..n])
    ensures forall j :: 0 <= j < |parts| ==>
              Holding(mine[..n], KeyOf(parts[j].receipt)) == if j < n then [mine[j]] else []
  {
    hide *;
    if n == 0 {
      assert mine[..0] == [];
      NothingHeld();
    } else {
      NoticeHeld(mine, parts, n - 1);
      assert mine[..n] == mine[..n - 1] + [mine[n - 1]];
      NoticeStep(mine[..n - 1], mine[n - 1], mine, parts, n);
    }
  }

  lemma NothingHeld()
    ensures Orderly([]) && forall k :: Holding([], k) == []
  {
  }

  lemma NoticeStep(before: seq<Published>, p: Published, mine: seq<Published>, parts: seq<Part>, n: nat)
    requires 0 < n <= |parts| == |mine| && Numbered(parts) && Orderly(before) && p.post.id != 0
    requires p == mine[n - 1] && p.receipt == parts[n - 1].receipt
    requires forall j :: 0 <= j < |parts| ==>
              Holding(before, KeyOf(parts[j].receipt)) == if j < n - 1 then [mine[j]] else []
    ensures Orderly(before + [p])
    ensures forall j :: 0 <= j < |parts| ==>
              Holding(before + [p], KeyOf(parts[j].receipt)) == if j < n then [mine[j]] else []
  {
    hide Orderly, Holding;
    assert p.receipt.part > 0 ==> KeyOf(p.receipt).(part := p.receipt.part - 1) == KeyOf(parts[n - 2].receipt);
    FirstPost(before, p);
    forall j | 0 <= j < |parts|
      ensures Holding(before + [p], KeyOf(parts[j].receipt)) == if j < n then [mine[j]] else [] {
      HoldingAppend(before, p, KeyOf(parts[j].receipt));
    }
  }

  lemma {:induction false} CurrentFirst(post: Post, more: seq<Post>)
    requires forall q :: q in more ==> q.id > post.id
    ensures Reads(Current([post] + more), VersionOf(post))
    decreases |more|
  {
    if more == [] {
      assert [post] + more == [post] && [post][..0] == [];
    } else {
      CurrentFirst(post, more[..|more| - 1]);
      assert ([post] + more)[..|more|] == [post] + more[..|more| - 1];
    }
  }

  /** The notice of an input withdraws its trigger. Once the post has been edited and edited back, rejecting it again
      succeeds, because the notice for that very text is there, but the post stays a trigger. */
  method EditedBackIsNotWithdrawn(s: Scope, input: Input, reason: string, first: Post)
    returns (p: Publisher, later: Post, outcome: Outcome)
    requires s.root != 0 && first.user != s.bot && input.triggers == [first.id] && input.versions == [VersionOf(first)]
    ensures var before := [first] + NoticePosts(s, RejectionParts(s, input, reason), first.id);
            first.id in Withdrawn(Mine(s, before), Current(before), input.revision)
    ensures later == first.(edited := first.edited + 1) && outcome.Done? && Reads(Current(p.posts), VersionOf(later))
    ensures first.id !in Withdrawn(p.Seen(), Current(p.posts), input.revision)
  {
    hide RejectionParts, Mine, Current, Withdrawn, Orderly, Holding, NoticePosts, NoticeOf, IsNoticeOf, Delivered, Find,
      Incomplete, Recording, Links, Adds;
    later := first.(edited := first.edited + 1);
    var again := input.(versions := [VersionOf(later)]);
    var parts := RejectionParts(s, input, reason);
    var mm := new Mattermost(s);
    mm.thread, mm.quiet := [later] + NoticePosts(s, parts, first.id), true;
    NoticeComplete(s, later, input, reason);
    p := new Publisher(mm);
    var ok := p.Refresh();
    SameNotice(s, p.Seen(), mm.files, input, again, reason);
    ghost var seen := p.Seen();
    CurrentFirst(later, NoticePosts(s, parts, first.id));
    outcome := Reject(p, again, reason);
    EditIsNotRecorded(seen, s, input, reason, VersionOf(later));
    assert Reads(Current(p.posts), VersionOf(later));
    FirstWithdraws(s, first, input, reason);
  }

  /** The posts are the notice and nothing else. */
  ghost predicate IsNoticeOf(mine: seq<Published>, parts: seq<Part>) {
    && Orderly(mine) && |mine| == |parts|
    && forall j :: 0 <= j < |parts| ==>
         Holding(mine, KeyOf(parts[j].receipt)) == [mine[j]] && mine[j].receipt == parts[j].receipt &&
             mine[j].post.message == parts[j].text
  }

  lemma NoticeComplete(s: Scope, post: Post, input: Input, reason: string)
    requires s.root != 0 && post.user != s.bot
    ensures var parts := RejectionParts(s, input, reason);
            IsNoticeOf(Mine(s, [post] + NoticePosts(s, parts, post.id)), parts)
    ensures Orderly(Mine(s, [post] + NoticePosts(s, RejectionParts(s, input, reason), post.id)))
    ensures forall q :: q in NoticePosts(s, RejectionParts(s, input, reason), post.id) ==> q.id > post.id
  {
    var parts := RejectionParts(s, input, reason);
    hide RejectionParts, Mine, Orderly, Holding;
    var posts, mine := NoticePosts(s, parts, post.id), NoticeOf(s, parts, post.id);
    NoticeMine(s, post, parts, |parts|);
    NoticeHeld(mine, parts, |parts|);
    assert posts[..|parts|] == posts && mine[..|parts|] == mine;
  }

  lemma EditIsNotRecorded(mine: seq<Published>, s: Scope, input: Input, reason: string, v: Version)
    requires IsNoticeOf(mine, RejectionParts(s, input, reason)) && v !in input.versions
    ensures forall q :: q in mine ==> !Records(q, input.revision, v)
  {
    hide RejectionParts, Holding, Orderly;
    var parts := RejectionParts(s, input, reason);
    forall q | q in mine ensures !Records(q, input.revision, v) {
      var j :| 0 <= j < |mine| && mine[j] == q;
      assert Recording(parts[j].receipt, input);
    }
  }

  lemma FirstWithdraws(s: Scope, first: Post, input: Input, reason: string)
    requires s.root != 0 && first.user != s.bot && input.triggers == [first.id] && input.versions == [VersionOf(first)]
    ensures var thread := [first] + NoticePosts(s, RejectionParts(s, input, reason), first.id);
            first.id in Withdrawn(Mine(s, thread), Current(thread), input.revision)
  {
    var parts := RejectionParts(s, input, reason);
    hide RejectionParts, Mine, Current, Withdrawn, Orderly, Holding;
    var mine := Mine(s, [first] + NoticePosts(s, parts, first.id));
    NoticeComplete(s, first, input, reason);
    CurrentFirst(first, NoticePosts(s, parts, first.id));
    WithdrawnExactly(mine, Current([first] + NoticePosts(s, parts, first.id)), input.revision, first.id);
    assert Recording(parts[0].receipt, input) && VersionOf(first) in parts[0].receipt.versions;
    assert mine[0] in mine && Records(mine[0], input.revision, VersionOf(first));
  }

  /** The versions that a notice records are no part of what finds it again. */
  lemma SameNotice(s: Scope, mine: seq<Published>, files: map<Id, Id>, input: Input, again: Input, reason: string)
    requires again == input.(versions := again.versions)
    requires IsNoticeOf(mine, RejectionParts(s, input, reason))
    ensures var parts := RejectionParts(s, again, reason);
            && !Incomplete(mine, parts, false)
            && forall j :: 0 <= j < |parts| ==> Delivered(mine, files, parts[j], false)
  {
    var parts, later := RejectionParts(s, input, reason), RejectionParts(s, again, reason);
    SameParts(s, input, again, reason);
    hide RejectionParts, Find, Delivered, Holding, Orderly;
    forall j | 0 <= j < |parts|
      ensures Delivered(mine, files, later[j], false) && !Find(mine, later[j], false).Absent? {
      NoticedPart(mine, files, parts[j], later[j], mine[j]);
    }
  }

  /** A part that is posted as it was is delivered, whatever versions it now records. */
  lemma NoticedPart(mine: seq<Published>, files: map<Id, Id>, was: Part, part: Part, p: Published)
    requires part == Part(was.receipt.(versions := part.receipt.versions), was.text)
    requires KeyOf(part.receipt) == KeyOf(was.receipt) && was.receipt.attachments == []
    requires Holding(mine, KeyOf(was.receipt)) == [p] && p.receipt == was.receipt && p.post.message == was.text
    requires was.receipt.hash == Sha256(was.text)
    ensures Delivered(mine, files, part, false) && !Find(mine, part, false).Absent?
  {
  }

  lemma SameParts(s: Scope, input: Input, again: Input, reason: string)
    requires again == input.(versions := again.versions)
    ensures var parts, later := RejectionParts(s, input, reason), RejectionParts(s, again, reason);
            |later| == |parts| && forall j :: 0 <= j < |parts| ==>
              && later[j] == Part(parts[j].receipt.(versions := later[j].receipt.versions), parts[j].text)
              && KeyOf(later[j].receipt) == KeyOf(parts[j].receipt)
              && OfThread(s, parts[j])
  {
    hide Triggered, PartTexts;
  }
}
