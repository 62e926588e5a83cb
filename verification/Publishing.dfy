/** The publisher at work (internal/delivery/delivery.go:58-277): methods that create posts against a server that may
    lose responses, and what every attempt keeps whatever happens. */
module Publishing {
  import opened Collections
  import opened Delivery

  datatype FileAnswer = Linked(post: Id) | Missing | NoAnswer
  datatype Check = Yes | No | Unknown

  /** The chat server: one thread and the file table (file to the post it is attached to, 0 for none). */
  class Mattermost {
    const scope: Scope
    var thread: seq<Post>
    var files: map<Id, Id>
    var quiet: bool // nobody else acts and no response is lost

    constructor (s: Scope)
      ensures scope == s && thread == [] && files == map[]
    {
      scope, thread, files, quiet := s, [], map[], false;
    }

    ghost function Receipts(): seq<Published>
      reads this
    {
      Mine(scope, thread)
    }

    ghost predicate Clean()
      reads this
    {
      Orderly(Receipts())
    }

    /** People and other connectors act: anything may happen to the thread, but the bot's receipts stay visible. */
    method Others()
      modifies this`thread
      ensures Receipts() == old(Receipts())
      ensures quiet ==> thread == old(thread)
    {
      var now: seq<Post> := *;
      if !quiet && Mine(scope, now) == Mine(scope, thread) {
        thread := now;
      }
    }

    method Thread() returns (posts: Option<seq<Post>>)
      modifies this`thread
      ensures Receipts() == old(Receipts())
      ensures quiet ==> thread == old(thread) && posts.Some?
      ensures posts.Some? ==> posts.value == thread
    {
      Others();
      var lost := *;
      posts := if lost && !quiet then None else Some(thread);
    }

    method File(id: Id) returns (answer: FileAnswer)
      modifies this`thread
      ensures Receipts() == old(Receipts())
      ensures quiet ==> thread == old(thread) && !answer.NoAnswer?
      ensures answer.Linked? ==> id in files && answer.post == files[id]
      ensures answer.Missing? ==> id !in files
    {
      Others();
      var lost := *;
      answer := if lost && !quiet then NoAnswer else if id in files then Linked(files[id]) else Missing;
    }

    /** Whether a post that may be in another thread still exists; None when there is no answer. */
    method Lookup(id: Id) returns (live: Option<bool>)
      ensures quiet ==> live.Some?
    {
      var lost, gone := *, *;
      live := if lost && !quiet then None else Some(!gone);
    }

    /** The post commits or not; when it does, some of the unattached files are attached to it, and the response may
        be lost or may omit the properties. */
    method Create(text: string, ids: seq<Id>, receipt: Receipt)
      returns (created: Option<Post>, ghost commit: Option<Post>)
      modifies this`thread, this`files
      ensures commit.None? ==> created.None? && !quiet && Receipts() == old(Receipts()) && files == old(files)
      ensures commit.Some? ==>
                && Written(scope, commit.value, text, receipt)
                && Receipts() == old(Receipts()) + Shown(scope, commit.value)
                && Links(old(files), files) && Moves(old(files), files, ids, commit.value)
      ensures created.Some? ==> commit.Some? && (created == commit || created == Some(commit.value.(props := None)))
      ensures quiet ==> created == commit
    {
      Others();
      var refused, lost, bare := *, *, *;
      var pick: int := *;
      var id: Id := if pick > 0 then pick else 1;
      if refused && !quiet {
        return None, None;
      }
      var attached := [];
      for i := 0 to |ids|
        modifies this`files
        invariant Links(old(files), files) && (forall f :: f in attached ==> f in ids)
        invariant files.Keys == old(files).Keys
        invariant forall f :: f in files ==> files[f] == old(files)[f] || (f in attached && files[f] == id)
      {
        var attach := *;
        if attach && ids[i] in files && files[ids[i]] == 0 {
          attached := attached + [ids[i]];
          files := files[ids[i] := id];
        }
      }
      var post := Post(id, scope.root, scope.channel, scope.bot, text, 0, false, attached, Some(receipt));
      MineAppend(scope, thread, post);
      thread := thread + [post];
      commit := Some(post);
      created := if quiet then Some(post) else if lost then None else if bare then Some(post.(props := None))
          else Some(post);
    }
  }

  ghost predicate Written(s: Scope, p: Post, text: string, receipt: Receipt) {
    && p.id != 0 && p.root == s.root && p.channel == s.channel && p.user == s.bot && !p.deleted
    && p.message == text && p.props == Some(receipt)
  }

  /** What one post adds to the visible receipts. */
  function Shown(s: Scope, p: Post): seq<Published> {
    if Receipted(s, p).Some? then [Published(p, Receipted(s, p).value)] else []
  }

  /** Every file of the part exists and is attached nowhere. */
  predicate AllFree(files: map<Id, Id>, part: Part) {
    forall a :: a in part.receipt.attachments ==> a.file in files && files[a.file] == 0
  }

  /** A part as the renderer makes it for this thread. */
  predicate WellFormed(s: Scope, part: Part) {
    && s.root != 0
    && part.receipt.source == s.source && part.receipt.workflow == s.workflow
    && part.receipt.hash == Sha256(part.text)
  }

  /** Nothing failed: the part is there, or contradicted, or its files cannot be attached. */
  predicate Responds(outcome: Outcome, part: Part, skip: bool) {
    !outcome.Failure? && (outcome.Upload? ==> !skip && part.receipt.attachments != [])
  }

  lemma NoNotice(s: Scope, kind: MessageKey, run: RunKey)
    ensures !Notice(Mine(s, []), kind, run)
  {
  }

  lemma NoticeIn(all: seq<Published>, first: seq<Published>, p: Published, kind: MessageKey, run: RunKey)
    requires first <= all && p in first && IsNotice(p, kind, run)
    ensures Notice(all, kind, run)
  {
    assert p in all;
  }

  lemma OneMore(before: seq<Published>, after: seq<Published>, kind: MessageKey, run: RunKey)
    requires !Notice(before, kind, run)
    requires after == before || (exists p :: after == before + [p] && !IsNotice(p, kind, run))
    ensures !Notice(after, kind, run)
  {
  }

  /** One repair: only its receipt was added, and only its file moved. */
  ghost predicate RepairedOnly(
    before: seq<Published>, after: seq<Published>, files: map<Id, Id>, now: map<Id, Id>, found: Published, part: Part,
    i: nat)
    requires i < |found.receipt.attachments| == |part.receipt.attachments|
  {
    && Adds(before, after, Exactly(KeyOf(RepairPart(part, i, found.receipt.attachments[i].id).receipt)))
    && files.Keys == now.Keys
    && forall f :: f in files && f != part.receipt.attachments[i].file ==> now[f] == files[f]
  }

  lemma RepairAdds(before: seq<Published>, after: seq<Published>, part: Part, i: nat, artifact: X.ArtifactId)
    requires i < |part.receipt.attachments|
    requires Adds(before, after, Exactly(KeyOf(RepairPart(part, i, artifact).receipt)))
    ensures Adds(before, after, OfPart(KeyOf(part.receipt)))
    ensures Find(after, part, false) == Find(before, part, false)
  {
    var own := Exactly(KeyOf(RepairPart(part, i, artifact).receipt));
    hide Adds;
    AddsWiden(before, after, own, OfPart(KeyOf(part.receipt)));
    FindStays(before, after, own, part, false);
  }

  ghost predicate FilesDelivered(mine: seq<Published>, files: map<Id, Id>, found: Published, part: Part, n: nat)
    requires n <= |found.receipt.attachments| && SameArtifacts(found.receipt.attachments, part.receipt.attachments)
  {
    forall j :: 0 <= j < n ==> FileDelivered(mine, files, found, part, j)
  }

  lemma FoundMeans(mine: seq<Published>, part: Part, found: Published)
    requires Find(mine, part, false) == One(found)
    ensures found in mine && SameArtifacts(found.receipt.attachments, part.receipt.attachments)
  {
    HoldingKeys(mine, KeyOf(part.receipt));
  }

  lemma DeliveredMeans(mine: seq<Published>, files: map<Id, Id>, part: Part, found: Published)
    requires Find(mine, part, false) == One(found)
    ensures SameArtifacts(found.receipt.attachments, part.receipt.attachments)
    ensures Delivered(mine, files, part, false) <==>
              FilesDelivered(mine, files, found, part, |found.receipt.attachments|)
  {
  }

  lemma OneMoreDelivered(
    before: seq<Published>, after: seq<Published>, files: map<Id, Id>, now: map<Id, Id>, own: Owner, found: Published,
    part: Part, i: nat)
    requires i < |found.receipt.attachments| && SameArtifacts(found.receipt.attachments, part.receipt.attachments)
    requires FilesDelivered(before, files, found, part, i) && FileDelivered(after, now, found, part, i)
    requires Adds(before, after, own) && Links(files, now) && Orderly(before) && found in before
    ensures FilesDelivered(after, now, found, part, i + 1)
  {
    hide FileDelivered, Adds, Links;
    forall j | 0 <= j < i ensures FileDelivered(after, now, found, part, j) {
      FileStays(before, after, files, now, own, part, found, j);
    }
  }

  lemma OpenMeans(mine: seq<Published>, files: map<Id, Id>, part: Part, found: Published)
    requires FilesOpen(mine, files, part) && Find(mine, part, false) == One(found)
    ensures DistinctFiles(part)
    ensures forall i :: 0 <= i < |found.receipt.attachments| ==> Repairable(mine, files, found, part, i)
  {
  }

  /** It leaves the later files as they were. */
  lemma OthersRepairable(
    before: seq<Published>, after: seq<Published>, files: map<Id, Id>, now: map<Id, Id>, found: Published, part: Part,
    i: nat)
    requires i < |found.receipt.attachments| && SameArtifacts(found.receipt.attachments, part.receipt.attachments)
    requires DistinctFiles(part) && Orderly(before) && found in before
    requires RepairedOnly(before, after, files, now, found, part, i) && Links(files, now)
    requires forall j :: i < j < |found.receipt.attachments| ==> Repairable(before, files, found, part, j)
    ensures forall j :: i < j < |found.receipt.attachments| ==> Repairable(after, now, found, part, j)
  {
    var own := Exactly(KeyOf(RepairPart(part, i, found.receipt.attachments[i].id).receipt));
    forall j | i < j < |found.receipt.attachments| ensures Repairable(after, now, found, part, j) {
      var a, b := part.receipt.attachments[i], part.receipt.attachments[j];
      assert a.id != b.id && a.file != b.file;
      assert found.receipt.attachments[i].id == a.id && found.receipt.attachments[j].id == b.id;
      FindStays(before, after, own, RepairPart(part, j, found.receipt.attachments[j].id), false);
      assert Repairable(before, files, found, part, j);
      assert Free(files, b.file) ==> Free(now, b.file);
      if FileDelivered(before, files, found, part, j) {
        FileStays(before, after, files, now, own, part, found, j);
      }
    }
  }

  /** A part just posted with some of its files can be repaired. */
  lemma PostedIsOpen(
    before: seq<Published>, after: seq<Published>, files: map<Id, Id>, now: map<Id, Id>, part: Part, found: Published)
    requires FilesOpen(before, files, part) && Find(before, part, false).Absent?
    requires Find(after, part, false) == One(found) && found.receipt == part.receipt
    requires Adds(before, after, Exactly(KeyOf(part.receipt))) && Moves(files, now, FilesOf(part), found.post)
    ensures FilesOpen(after, now, part)
  {
    forall i | 0 <= i < |found.receipt.attachments| ensures Repairable(after, now, found, part, i) {
      FindStays(before, after, Exactly(KeyOf(part.receipt)), RepairPart(part, i, part.receipt.attachments[i].id),
                false);
    }
  }

  lemma MovesNothing(before: map<Id, Id>, after: map<Id, Id>, ids: seq<Id>, p: Option<Post>)
    requires p.None? ==> after == before
    requires p.Some? ==> Moves(before, after, ids, p.value)
    ensures ids == [] ==> after == before
  {
  }

  lemma ShownIs(s: Scope, p: Post, part: Part)
    requires Written(s, p, part.text, part.receipt)
    ensures Shown(s, p) == [] || Shown(s, p) == [Published(p, part.receipt)]
    ensures WellFormed(s, part) ==> Shown(s, p) != []
    ensures Shown(s, p.(props := None)) == [] && p.id != 0 && p.message == part.text
  {
  }

  /** A post under a key that had none keeps the receipts in order, whether its receipt is visible or not. */
  lemma ShownKeeps(before: seq<Published>, shown: seq<Published>, part: Part)
    requires Orderly(before) && Holding(before, KeyOf(part.receipt)) == []
    requires part.receipt.part > 0 ==> Holding(before, KeyOf(part.receipt).(part := part.receipt.part - 1)) != []
    requires shown == [] || (|shown| == 1 && shown[0].receipt == part.receipt && shown[0].post.id != 0)
    ensures Orderly(before + shown) && Adds(before, before + shown, Exactly(KeyOf(part.receipt)))
    ensures Holding(before + shown, KeyOf(part.receipt)) == shown
  {
    hide Orderly, Adds, Holding;
    if shown == [] {
      assert before + shown == before;
      AddsNone(before, Exactly(KeyOf(part.receipt)));
    } else {
      assert shown == [shown[0]];
      FirstPost(before, shown[0]);
    }
  }

  lemma PostsAppend(s: Scope, posts: seq<Post>, p: Post)
    ensures Mine(s, posts + [p]) == Mine(s, posts) + Shown(s, p)
  {
    MineAppend(s, posts, p);
  }

  lemma NewPartFound(now: seq<Published>, before: seq<Published>, shown: seq<Published>, part: Part, skip: bool)
    requires Holding(before, KeyOf(part.receipt)) == [] && Holding(before + shown, KeyOf(part.receipt)) == shown
    requires now == before || (now == before + shown && shown != [])
    requires shown == [] || (|shown| == 1 && shown[0].receipt == part.receipt && shown[0].post.message == part.text)
    ensures now == before ==> Find(now, part, skip).Absent?
    ensures now == before + shown && shown != [] ==>
              && (exists p :: Holding(now, KeyOf(part.receipt)) == [p] && p.receipt == part.receipt)
              && (part.receipt.hash == Sha256(part.text) ==> Find(now, part, skip) == One(shown[0]))
  {
    if now == before + shown && shown != [] {
      assert shown == [shown[0]];
    }
  }

  class Publisher {
    const mm: Mattermost
    const scope: Scope
    var posts: seq<Post>
    var skip: bool

    constructor (server: Mattermost)
      ensures mm == server && scope == server.scope && posts == [] && !skip
    {
      mm, scope, posts, skip := server, server.scope, [], false;
    }

    ghost function Seen(): seq<Published>
      reads this
    {
      Mine(scope, posts)
    }

    /** The attempt has seen every receipt. */
    ghost predicate Synced()
      reads this, mm
    {
      scope == mm.scope && mm.Clean() && Seen() == mm.Receipts()
    }

    /** Publisher.Refresh. */
    method Refresh() returns (ok: bool)
      requires scope == mm.scope && mm.Clean()
      modifies this`posts, mm`thread
      ensures mm.Receipts() == old(mm.Receipts())
      ensures ok ==> Synced() && posts == mm.thread
      ensures mm.quiet ==> ok && mm.thread == old(mm.thread)
    {
      var answer := mm.Thread();
      ok := answer.Some?;
      if ok {
        posts := answer.value;
      }
    }

    /** What the finding is for this attempt's posts. */
    static lemma FindMeans(s: Scope, posts: seq<Post>, part: Part, skip: bool)
      ensures Find(Mine(s, posts[..0]), part, skip).Absent? && posts[..|posts|] == posts
      ensures Find(Mine(s, posts), part, skip).Absent? <==>
              forall p, r :: p in posts && Bears(s, p, r) ==> !Same(r, part.receipt)
      ensures Find(Mine(s, posts), part, skip).One? ==>
                var found := Find(Mine(s, posts), part, skip).found;
                Same(found.receipt, part.receipt) && Unaltered(found.post, found.receipt, part, skip)
    {
      AbsentExactly(s, posts, part, skip);
      FindExactly(s, posts, part, skip);
      hide Bears, Same, Unaltered;
    }

    /** One more post. */
    static lemma FindStep(s: Scope, posts: seq<Post>, i: nat, part: Part, skip: bool)
      requires i < |posts| && !Find(Mine(s, posts[..i]), part, skip).Clash?
      ensures var r := Receipted(s, posts[i]);
              var before, now := Find(Mine(s, posts[..i]), part, skip), Find(Mine(s, posts[..i + 1]), part, skip);
              if r.None? || KeyOf(r.value) != KeyOf(part.receipt) then now == before
              else if Agrees(Published(posts[i], r.value), part, skip) && before.Absent? then
                now == One(Published(posts[i], r.value))
              else Find(Mine(s, posts), part, skip) == Clash
    {
      assert posts[..i + 1] == posts[..i] + [posts[i]];
      MineAppend(s, posts[..i], posts[i]);
      var r := Receipted(s, posts[i]);
      hide Agrees, Receipted;
      if r.Some? {
        HoldingAppend(Mine(s, posts[..i]), Published(posts[i], r.value), KeyOf(part.receipt));
        if Find(Mine(s, posts[..i + 1]), part, skip).Clash? {
          ClashStays(s, posts, i + 1, part, skip);
        }
      }
    }

    /** Publisher.find: one pass over the posts decides exactly what Find defines. */
    method FindPart(part: Part) returns (finding: Finding)
      ensures finding == Find(Seen(), part, skip)
      ensures finding.Absent? <==> forall p, r :: p in posts && Bears(scope, p, r) ==> !Same(r, part.receipt)
      ensures finding.One? ==>
                && Same(finding.found.receipt, part.receipt)
                && Unaltered(finding.found.post, finding.found.receipt, part, skip)
    {
      hide Find, Mine, Holding, Receipted, Agrees, KeyOf, Bears, Same, Unaltered;
      FindMeans(scope, posts, part, skip);
      finding := Absent;
      for i := 0 to |posts|
        invariant finding == Find(Mine(scope, posts[..i]), part, skip) && !finding.Clash?
      {
        FindStep(scope, posts, i, part, skip);
        var r := Receipted(scope, posts[i]);
        if r.None? {
          continue;
        }
        if KeyOf(r.value) != KeyOf(part.receipt) {
          continue;
        }
        if !Agrees(Published(posts[i], r.value), part, skip) || finding.One? {
          return Clash;
        }
        finding := One(Published(posts[i], r.value));
      }
      assert posts[..|posts|] == posts;
    }

    /** Publisher.verified. */
    method Verified(post: Post, a: Artifact) returns (check: Check)
      modifies mm`thread
      ensures mm.Receipts() == old(mm.Receipts())
      ensures mm.quiet ==> mm.thread == old(mm.thread) && !check.Unknown?
      ensures !check.Unknown? ==> (check.Yes? <==> IsVerified(mm.files, post, a))
      ensures !check.Unknown? ==>
                (check.Yes? <==> a.file in post.files && a.file in mm.files && mm.files[a.file] == post.id)
    {
      if a.file !in post.files {
        return No;
      }
      var info := mm.File(a.file);
      match info {
        case Missing => check := No;
        case NoAnswer => check := Unknown;
        case Linked(owner) => check := if owner == post.id then Yes else No;
      }
    }

    /** The check of all files of one post, as publishOne makes it twice. */
    method VerifiedAll(p: Published) returns (outcome: Outcome)
      modifies mm`thread
      ensures mm.Receipts() == old(mm.Receipts())
      ensures mm.quiet ==> mm.thread == old(mm.thread) && !outcome.Failure?
      ensures outcome.Done? || outcome.Upload? || outcome.Failure?
      ensures !outcome.Failure? ==> (outcome.Done? <==> AllVerified(mm.files, p))
    {
      for i := 0 to |p.receipt.attachments|
        invariant mm.Receipts() == old(mm.Receipts())
        invariant mm.quiet ==> mm.thread == old(mm.thread)
        invariant forall j :: 0 <= j < i ==> IsVerified(mm.files, p.post, p.receipt.attachments[j])
      {
        var check := Verified(p.post, p.receipt.attachments[i]);
        if check.Unknown? {
          return Failure;
        }
        if check.No? {
          return Upload;
        }
      }
      return Done;
    }

    /** Publisher.NoticeExists. */
    method NoticeExists(kind: MessageKey, run: RunKey) returns (exists_: bool)
      ensures exists_ <==> Notice(Seen(), kind, run)
      ensures exists_ <==>
              exists p, r ::
                p in posts && Bears(scope, p, r) && r.message == kind && r.run == run && r.hash == Sha256(p.message)
    {
      NoticeExactly(scope, posts, kind, run);
      hide Mine, Notice, IsNotice;
      NoNotice(scope, kind, run);
      assert posts[..0] == [];
      for i := 0 to |posts|
        invariant !Notice(Mine(scope, posts[..i]), kind, run)
      {
        assert posts[..i + 1] == posts[..i] + [posts[i]];
        MineAppend(scope, posts[..i], posts[i]);
        var r := Receipted(scope, posts[i]);
        if r.Some? && IsNotice(Published(posts[i], r.value), kind, run) {
          MinePrefix(scope, posts, i + 1);
          NoticeIn(Mine(scope, posts), Mine(scope, posts[..i + 1]), Published(posts[i], r.value), kind, run);
          return true;
        }
        OneMore(Mine(scope, posts[..i]), Mine(scope, posts[..i + 1]), kind, run);
      }
      assert posts[..|posts|] == posts;
      return false;
    }

    /** Among the posts seen, one with this identity is not this run's. */
    ghost predicate Foreign(run: RunKey, id: Id)
      reads this
    {
      exists p :: p in posts && p.id == id && forall r :: Bears(scope, p, r) ==> r.run != run
    }

    /** The file is attached to a post that is not this run's: one among those seen, or another one, which the server
        says is there. */
    ghost predicate Taken(run: RunKey, a: Artifact, asked: Option<bool>)
      reads this, mm
    {
      && a.file in mm.files && mm.files[a.file] != 0
      && (Foreign(run, mm.files[a.file])
          || ((forall p :: p in posts ==> p.id != mm.files[a.file]) && asked == Some(true)))
    }

    /** The file is gone, or attached to a post of this run or to one that is not there any more. */
    ghost predicate Lost(run: RunKey, a: Artifact, asked: Option<bool>)
      reads this, mm
    {
      || a.file !in mm.files
      || (mm.files[a.file] != 0 && !Foreign(run, mm.files[a.file])
           && ((forall p :: p in posts ==> p.id != mm.files[a.file]) ==> asked == Some(false)))
    }

    /** The files that publishOne may attach: all present and attached nowhere yet. `asked` is what the server said of
        the post that the file in question is attached to, where it was asked. */
    method Attachable(part: Part) returns (outcome: Outcome, ids: seq<Id>, ghost asked: Option<bool>)
      modifies mm`thread
      ensures mm.Receipts() == old(mm.Receipts())
      ensures mm.quiet && AllFree(mm.files, part) ==> outcome.Done?
      ensures mm.quiet ==> !outcome.Failure?
      ensures part.receipt.attachments == [] ==> outcome.Done?
      ensures mm.quiet && (forall a :: a in part.receipt.attachments ==> Free(mm.files, a.file)) ==> !outcome.Conflict?
      ensures outcome.Done? ==> |ids| == |part.receipt.attachments|
      ensures outcome.Done? ==> forall i :: 0 <= i < |ids| ==>
                ids[i] == part.receipt.attachments[i].file && ids[i] in mm.files && mm.files[ids[i]] == 0
      ensures outcome.Conflict? ==> exists a :: a in part.receipt.attachments && Taken(part.receipt.run, a, asked)
      ensures outcome.Upload? ==> exists a :: a in part.receipt.attachments && Lost(part.receipt.run, a, asked)
    {
      ids, asked := [], None;
      for i := 0 to |part.receipt.attachments|
        invariant mm.Receipts() == old(mm.Receipts())
        invariant |ids| == i
        invariant forall j :: 0 <= j < i ==>
                    ids[j] == part.receipt.attachments[j].file && ids[j] in mm.files && mm.files[ids[j]] == 0
      {
        var a := part.receipt.attachments[i];
        assert a in part.receipt.attachments;
        var info := mm.File(a.file);
        if info.NoAnswer? {
          return Failure, [], None;
        }
        if info.Linked? && info.post != 0 {
          var linked := false;
          for j := 0 to |posts|
            modifies {}
            invariant linked <==> exists k :: 0 <= k < j && posts[k].id == info.post
            invariant forall k :: 0 <= k < j && posts[k].id == info.post ==>
                        exists r :: Bears(scope, posts[k], r) && r.run == part.receipt.run
          {
            if posts[j].id == info.post {
              var r := Receipted(scope, posts[j]);
              ReceiptedIs(scope, posts[j], r);
              if r.None? || r.value.run != part.receipt.run {
                assert posts[j] in posts && Foreign(part.receipt.run, info.post);
                assert Taken(part.receipt.run, a, asked);
                return Conflict, [], asked;
              }
              linked := true;
            }
          }
          if !linked {
            var live := mm.Lookup(info.post);
            if live.None? {
              return Failure, [], None;
            }
            asked := live;
            if live.value {
              assert Taken(part.receipt.run, a, asked);
              return Conflict, [], asked;
            }
          }
        }
        if info.Missing? || info.post != 0 {
          assert Lost(part.receipt.run, a, asked);
          return Upload, [], asked;
        }
        ids := ids + [a.file];
      }
      return Done, ids, asked;
    }

    /** What publishing a part keeps, whatever the server does: no receipt twice, no later part first, nothing posted
        outside the part, no file link lost. */
    twostate predicate Kept(own: Owner)
      reads this, mm
    {
      && scope == mm.scope
      && mm.Clean()
      && Adds(old(mm.Receipts()), mm.Receipts(), own)
      && Links(old(mm.files), mm.files)
    }

    twostate predicate Still()
      reads this, mm
    {
      mm.thread == old(mm.thread) && mm.files == old(mm.files) && posts == old(posts)
    }

    /** The part may be posted now: the part before it is there. */
    ghost predicate InTurn(part: Part)
      reads this
    {
      part.receipt.part > 0 ==> Holding(Seen(), KeyOf(part.receipt).(part := part.receipt.part - 1)) != []
    }

    /** The create call and its outcome in the attempt's own list. */
    method CreatePost(part: Part, ids: seq<Id>) returns (ok: bool)
      requires Synced() && InTurn(part) && Holding(Seen(), KeyOf(part.receipt)) == []
      modifies this`posts, mm`thread, mm`files
      ensures Kept(Exactly(KeyOf(part.receipt)))
      ensures ok ==> Find(Seen(), part, skip).Absent? || (Synced() && PostedAs(part.receipt))
      ensures mm.quiet && WellFormed(scope, part) ==>
                ok && Synced() && Find(Seen(), part, skip).One? &&
                Moves(old(mm.files), mm.files, ids, Find(Seen(), part, skip).found.post)
      ensures ids == [] ==> mm.files == old(mm.files)
    {
      ghost var before := Seen();
      hide Orderly, Adds, Links, Holding, Written, Shown, Mine, Moves;
      LinksNone(mm.files);
      var created, commit := mm.Create(part.text, ids, part.receipt);
      ghost var shown := if commit.Some? then Shown(scope, commit.value) else [];
      if commit.Some? {
        ShownIs(scope, commit.value, part);
      }
      MovesNothing(old(mm.files), mm.files, ids, commit);
      ShownKeeps(before, shown, part);
      assert mm.Receipts() == before + shown;
      ok := created.Some?;
      if ok {
        PostsAppend(scope, posts, created.value);
        posts := posts + [created.value];
        assert Seen() == before || (Seen() == before + shown && shown != []);
        NewPartFound(Seen(), before, shown, part, skip);
      }
    }

    /** One visible post has this receipt's key, and its receipt is this one. */
    ghost predicate PostedAs(r: Receipt)
      reads this
    {
      exists p :: Holding(Seen(), KeyOf(r)) == [p] && p.receipt == r
    }

    /** What a new post records: the receipt as given, without its files when they are given up. */
    ghost function Recorded(r: Receipt): Receipt
      reads this
    {
      if skip then r.(attachments := []) else r
    }

    /** The part was posted with some of its files, or nothing changed. */
    ghost predicate PostedOrNot(before: seq<Published>, files: map<Id, Id>, part: Part)
      reads this, mm
    {
      match Find(Seen(), part, false)
      case One(found) => found.receipt == part.receipt && Moves(files, mm.files, FilesOf(part), found.post)
      case _ => Seen() == before && mm.files == files
    }

    method PublishOne(part: Part) returns (outcome: Outcome)
      requires Synced() && InTurn(part)
      modifies this`posts, mm`thread, mm`files
      ensures Kept(Exactly(KeyOf(part.receipt)))
      ensures !outcome.Failure? ==> Synced()
      ensures outcome.Done? ==> Whole(Seen(), mm.files, part, skip)
      ensures !outcome.Failure? && Find(Seen(), part, skip).One? && Find(old(Seen()), part, skip).Absent? ==>
                PostedAs(Recorded(part.receipt))
      ensures !Find(old(Seen()), part, skip).Absent? ==>
                mm.Receipts() == old(mm.Receipts()) && mm.files == old(mm.files) && posts == old(posts)
      ensures mm.quiet && Whole(old(Seen()), old(mm.files), part, skip) ==> outcome.Done? && Still()
      ensures mm.quiet && WellFormed(scope, part) && Find(old(Seen()), part, skip).Absent? &&
                (skip || AllFree(old(mm.files), part)) ==>
                Find(Seen(), part, skip).One? &&
                    (outcome.Done? || (outcome.Upload? && !skip && part.receipt.attachments != []))
      ensures mm.quiet && WellFormed(scope, part) ==> Responds(outcome, part, skip)
      ensures mm.quiet && WellFormed(scope, part) && !skip && Find(old(Seen()), part, false).One? ==> !outcome.Conflict?
      ensures mm.quiet && WellFormed(scope, part) && !skip && Find(old(Seen()), part, false).Absent? &&
                (forall a :: a in part.receipt.attachments ==> Free(old(mm.files), a.file)) ==>
                !outcome.Conflict? && PostedOrNot(old(Seen()), old(mm.files), part)
      ensures skip || part.receipt.attachments == [] ==> mm.files == old(mm.files)
      ensures part.receipt.attachments == [] ==> !outcome.Upload?
    {
      hide Adds, Links, Orderly, Mine;
      AddsNone(Seen(), Exactly(KeyOf(part.receipt)));
      LinksNone(mm.files);
      var finding := FindPart(part);
      if finding.Clash? {
        return Conflict;
      }
      if finding.One? {
        if skip {
          return Done;
        }
        outcome := VerifiedAll(finding.found);
        return;
      }
      var sent := if skip then part.(receipt := part.receipt.(attachments := [])) else part;
      var ids: seq<Id>;
      ghost var asked;
      outcome, ids, asked := Attachable(sent);
      if !outcome.Done? {
        return;
      }
      var ok := CreatePost(sent, ids);
      if !ok {
        return Failure;
      }
      finding := FindPart(part);
      match finding {
        case Clash => outcome := Conflict;
        case Absent => outcome := Failure;
        case One(found) => outcome := VerifiedAll(found);
      }
    }

    /** Publisher.Publish: the part itself, or repairs for those of its files that are not attached. The self-call
        meets a posted part, so there is at most one. */
    method Publish(part: Part) returns (outcome: Outcome)
      requires Synced() && InTurn(part)
      modifies this`posts, mm`thread, mm`files
      ensures Kept(OfPart(KeyOf(part.receipt)))
      ensures !outcome.Failure? ==> Synced()
      ensures outcome.Done? ==> Delivered(Seen(), mm.files, part, skip)
      ensures outcome.Done? && Find(old(Seen()), part, skip).Absent? ==> PostedAs(Recorded(part.receipt))
      ensures mm.quiet && Delivered(old(Seen()), old(mm.files), part, skip) ==> outcome.Done? && Still()
      ensures mm.quiet && WellFormed(scope, part) && !Find(old(Seen()), part, skip).Clash? &&
                (skip || part.receipt.attachments == []) ==>
                outcome.Done?
      ensures mm.quiet && WellFormed(scope, part) ==> Responds(outcome, part, skip)
      ensures mm.quiet && WellFormed(scope, part) && !skip && FilesOpen(old(Seen()), old(mm.files), part) ==>
                !outcome.Conflict? && !Find(Seen(), part, true).Clash?
      ensures part.receipt.attachments == [] ==> mm.files == old(mm.files) && !outcome.Upload?
      decreases if Find(Seen(), part, skip).Absent? then 1 else 0
    {
      AddsNone(Seen(), OfPart(KeyOf(part.receipt)));
      LinksNone(mm.files);
      hide Links, Orderly, Mine, FilesOpen;
      var finding := FindPart(part);
      if finding.Clash? {
        return Conflict;
      }
      if finding.One? {
        if skip {
          return Done;
        }
        outcome := PublishRepairs(part, finding.found);
        return;
      }
      outcome := PublishOne(part);
      AddsWiden(old(mm.Receipts()), mm.Receipts(), Exactly(KeyOf(part.receipt)), OfPart(KeyOf(part.receipt)));
      if outcome.Upload? {
        label posted:
        finding := FindPart(part);
        if finding.Clash? {
          return Conflict;
        }
        if finding.One? {
          if mm.quiet && WellFormed(scope, part) && !skip && FilesOpen(old(Seen()), old(mm.files), part) {
            PostedIsOpen(old(Seen()), Seen(), old(mm.files), mm.files, part, finding.found);
          }
          outcome := Publish(part);
          assert outcome.Done? ==>
              Holding(Seen(), KeyOf(part.receipt)) == Holding(old@posted(Seen()), KeyOf(part.receipt));
          AddsTrans(old(mm.Receipts()), old@posted(mm.Receipts()), mm.Receipts(), OfPart(KeyOf(part.receipt)));
          LinksTrans(old(mm.files), old@posted(mm.files), mm.files);
        }
      }
    }

    /** The loop of Publish over the files of a posted part. */
    method PublishRepairs(part: Part, found: Published) returns (outcome: Outcome)
      requires Synced() && !skip && Find(Seen(), part, false) == One(found)
      modifies this`posts, mm`thread, mm`files
      ensures Kept(OfPart(KeyOf(part.receipt)))
      ensures !outcome.Failure? ==> Synced()
      ensures outcome.Done? ==> Delivered(Seen(), mm.files, part, false)
      ensures mm.quiet && Delivered(old(Seen()), old(mm.files), part, false) ==> outcome.Done? && Still()
      ensures found.receipt.attachments == [] ==> outcome.Done? && mm.files == old(mm.files)
      ensures mm.quiet && WellFormed(scope, part) ==> !outcome.Failure?
      ensures mm.quiet && WellFormed(scope, part) && FilesOpen(old(Seen()), old(mm.files), part) ==> !outcome.Conflict?
    {
      ghost var own := OfPart(KeyOf(part.receipt));
      AddsNone(Seen(), own);
      FoundMeans(Seen(), part, found);
      var files := found.receipt.attachments;
      ghost var open := mm.quiet && WellFormed(scope, part) && FilesOpen(Seen(), mm.files, part);
      ghost var replay := mm.quiet && Delivered(Seen(), mm.files, part, false);
      DeliveredMeans(Seen(), mm.files, part, found);
      hide Repairable, FilesOpen, FileDelivered, Delivered, Links, Adds, Orderly, RepairedOnly, Mine, Find, WellFormed,
        DistinctFiles;
      LinksNone(mm.files);
      if open {
        OpenMeans(Seen(), mm.files, part, found);
      }
      for i := 0 to |files|
        invariant Synced() && Kept(own)
        invariant Find(Seen(), part, false) == One(found)
        invariant FilesDelivered(Seen(), mm.files, found, part, i)
        invariant replay ==> Still() && FilesDelivered(Seen(), mm.files, found, part, |files|)
        invariant files == [] ==> mm.files == old(mm.files)
        invariant open ==> mm.quiet && forall j :: i <= j < |files| ==> Repairable(Seen(), mm.files, found, part, j)
      {
        label before:
        if replay {
          assert FileDelivered(Seen(), mm.files, found, part, i);
        }
        outcome := RepairFile(part, found, i);
        AddsTrans(old(mm.Receipts()), old@before(mm.Receipts()), mm.Receipts(), own);
        LinksTrans(old(mm.files), old@before(mm.files), mm.files);
        if !outcome.Done? {
          return;
        }
        FoundMeans(old@before(Seen()), part, found);
        OneMoreDelivered(old@before(Seen()), Seen(), old@before(mm.files), mm.files, own, found, part, i);
        if open {
          OthersRepairable(old@before(Seen()), Seen(), old@before(mm.files), mm.files, found, part, i);
        }
      }
      DeliveredMeans(Seen(), mm.files, part, found);
      return Done;
    }

    /** One pass of that loop. */
    method RepairFile(part: Part, found: Published, i: nat) returns (outcome: Outcome)
      requires Synced() && !skip && Find(Seen(), part, false) == One(found)
      requires i < |found.receipt.attachments|
      modifies this`posts, mm`thread, mm`files
      ensures Kept(OfPart(KeyOf(part.receipt)))
      ensures !outcome.Failure? ==> Synced()
      ensures Find(mm.Receipts(), part, false) == One(found)
      ensures outcome.Done? ==> FileDelivered(Seen(), mm.files, found, part, i)
      ensures mm.quiet && FileDelivered(old(Seen()), old(mm.files), found, part, i) ==> outcome.Done? && Still()
      ensures mm.quiet && WellFormed(scope, part) ==> !outcome.Failure?
      ensures mm.quiet && WellFormed(scope, part) && Repairable(old(Seen()), old(mm.files), found, part, i) ==>
                !outcome.Conflict? &&
                    (outcome.Done? ==> RepairedOnly(old(Seen()), Seen(), old(mm.files), mm.files, found, part, i))
    {
      hide Adds, Links, Orderly, Mine, Owns;
      ghost var own := OfPart(KeyOf(part.receipt));
      AddsNone(Seen(), own);
      HoldingKeys(Seen(), KeyOf(part.receipt));
      var check := Verified(found.post, found.receipt.attachments[i]);
      LinksNone(mm.files);
      if check.Unknown? {
        return Failure;
      }
      if check.Yes? {
        AddsNone(Seen(), Exactly(KeyOf(RepairPart(part, i, found.receipt.attachments[i].id).receipt)));
        return Done;
      }
      var repair := RepairPart(part, i, found.receipt.attachments[i].id);
      outcome := PublishOne(repair);
      RepairAdds(old(mm.Receipts()), mm.Receipts(), part, i, found.receipt.attachments[i].id);
      assert FilesOf(repair) == [part.receipt.attachments[i].file];
    }
  }
}
