/** Composing one input for the agent from a thread (buildMessages, internal/conversation/context.go:234-578). */
module Selection {
  import opened Collections
  import opened Thread
  import opened Context
  import opened LinkedWindow

  datatype Origin = InThread | Reference | InLinked

  // One agent-visible item: a post, a notice about context left out, or text saved from an undelivered clarification.
  datatype Item = PostItem(post: Id, origin: Origin) | Notice | Saved(text: string)

  // A rejected clarification that is sent again.
  datatype Transfer = Transfer(
    anchor: Id, triggers: seq<Id>, context: seq<Id>, versions: map<Id, nat>, files: seq<Id>, texts: seq<string>)

  // What the builder reads: the thread and the agent's history, the configuration, and the chat server's answers.
  datatype Inputs = Inputs(
    posts: seq<Post>, known: set<Id>, context: set<Id>, versions: map<Id, nat>, initial: bool,
    bot: Id, root: Id, channel: Id, since: int, window: nat, now: int,
    budget: nat, half: nat, linksEnabled: bool, maxLinks: nat, maxPosts: nat, maxPerPost: nat,
    isTrigger: Post -> bool, cost: Post -> nat, length: Item -> nat, links: Post -> seq<Id>,
    lookup: map<Id, Post>, threads: map<Id, seq<Post>>, attached: map<Id, seq<Id>>,
    fits: (seq<Item>, seq<Id>) -> bool, transfer: Option<Transfer>)

  /** The thread reader's guarantees. */
  ghost predicate Fetched(inp: Inputs) {
    && InOrder(inp.posts) && DistinctIds(inp.posts)
    && inp.maxPosts >= 2
    && forall id :: id in inp.threads ==> DistinctIds(inp.threads[id]) && Has(inp.threads[id], id)
  }

  /** The server lists no file for a post that the post does not have. */
  predicate FilesHonest(inp: Inputs, p: Post) {
    p.id in inp.attached ==> forall f :: f in inp.attached[p.id] ==> f in p.files
  }

  ghost predicate ServerHonest(inp: Inputs) {
    && (forall p :: p in inp.posts ==> FilesHonest(inp, p))
    && (forall id :: id in inp.lookup ==> FilesHonest(inp, inp.lookup[id]))
    && forall id :: id in inp.threads ==> forall p :: p in inp.threads[id] ==> FilesHonest(inp, p)
  }

  function IdsOf(posts: seq<Post>): seq<Id> {
    if posts == [] then [] else IdsOf(posts[..|posts| - 1]) + [posts[|posts| - 1].id]
  }

  // --- triggers ---

  predicate IsCandidate(inp: Inputs, p: Post) {
    && !p.deleted && p.user != inp.bot && !p.system && p.created >= inp.since && p.id !in inp.known
    && inp.isTrigger(p)
  }

  function Candidates(inp: Inputs, posts: seq<Post>): seq<Post> {
    if posts == [] then []
    else Candidates(inp, posts[..|posts| - 1]) + if IsCandidate(inp, posts[|posts| - 1]) then [posts[|posts| - 1]]
        else []
  }

  function UpTo(posts: seq<Post>, end: int): seq<Post> {
    if posts == [] then []
    else UpTo(posts[..|posts| - 1], end) + if posts[|posts| - 1].created <= end then [posts[|posts| - 1]] else []
  }

  /** The triggers of the batch window that the first candidate opens. */
  function Window(inp: Inputs): seq<Post> {
    var candidates := Candidates(inp, inp.posts);
    if candidates == [] then [] else UpTo(candidates, candidates[0].created + inp.window)
  }

  lemma {:induction false} CandidatesShape(inp: Inputs, posts: seq<Post>)
    requires InOrder(posts) && DistinctIds(posts)
    ensures InOrder(Candidates(inp, posts)) && DistinctIds(Candidates(inp, posts))
    ensures forall p :: p in Candidates(inp, posts) <==> p in posts && IsCandidate(inp, p)
  {
    if posts != [] {
      var front := posts[..|posts| - 1];
      assert posts == front + [posts[|posts| - 1]];
      CandidatesShape(inp, front);
      forall p | p in front ensures Before(p, posts[|posts| - 1]) && p.id != posts[|posts| - 1].id {
        var k :| 0 <= k < |front| && front[k] == p;
      }
    }
  }

  lemma {:induction false} UpToShape(posts: seq<Post>, end: int)
    requires InOrder(posts) && DistinctIds(posts)
    ensures InOrder(UpTo(posts, end)) && DistinctIds(UpTo(posts, end))
    ensures forall p :: p in UpTo(posts, end) <==> p in posts && p.created <= end
  {
    if posts != [] {
      var front := posts[..|posts| - 1];
      assert posts == front + [posts[|posts| - 1]];
      UpToShape(front, end);
      forall p | p in front ensures Before(p, posts[|posts| - 1]) && p.id != posts[|posts| - 1].id {
        var k :| 0 <= k < |front| && front[k] == p;
      }
    }
  }

  // --- the same, read off the posts ---

  /** A post of a user that asks for the agent and that no accepted input owns. */
  ghost predicate Asks(inp: Inputs, p: Post) {
    && inp.isTrigger(p) && p.id !in inp.known
    && !p.deleted && p.user != inp.bot && !p.system && p.created >= inp.since
  }

  ghost predicate FirstAsks(inp: Inputs, k: int) {
    0 <= k < |inp.posts| && Asks(inp, inp.posts[k]) && forall j :: 0 <= j < k ==> !Asks(inp, inp.posts[j])
  }

  ghost predicate NobodyAsks(inp: Inputs) {
    forall p :: p in inp.posts ==> !Asks(inp, p)
  }

  /** The window that the first asking post opens has not closed yet. */
  ghost predicate StillOpen(inp: Inputs) {
    exists k :: FirstAsks(inp, k) && inp.window > 0 && inp.now < inp.posts[k].created + inp.window
  }

  /** These are the first asking posts in thread order, none created after the window that the first one opens; `at`
      says where they are. */
  ghost predicate AreFirstAsks(inp: Inputs, triggers: seq<Id>, at: seq<nat>) {
    && |at| == |triggers| > 0 && at[0] < |inp.posts|
    && (forall i :: 0 <= i < |at| ==>
          && at[i] < |inp.posts| && Asks(inp, inp.posts[at[i]]) && triggers[i] == inp.posts[at[i]].id
          && inp.posts[at[i]].created <= inp.posts[at[0]].created + inp.window)
    && (forall i, j :: 0 <= i < j < |at| ==> at[i] < at[j])
    && forall k :: 0 <= k < at[|at| - 1] && Asks(inp, inp.posts[k]) ==> k in at
  }

  /** A batch is for the first asking posts, a transfer for the triggers it repeats. */
  ghost predicate IsFor(inp: Inputs, triggers: seq<Id>) {
    match inp.transfer
    case None => exists at :: AreFirstAsks(inp, triggers, at)
    case Some(t) => triggers == t.triggers
  }

  /** Where the candidates are. */
  lemma {:induction false} CandidatesAt(inp: Inputs, posts: seq<Post>) returns (at: seq<nat>)
    ensures |at| == |Candidates(inp, posts)|
    ensures forall i :: 0 <= i < |at| ==> at[i] < |posts| && posts[at[i]] == Candidates(inp, posts)[i]
    ensures forall i, j :: 0 <= i < j < |at| ==> at[i] < at[j]
    ensures forall k :: 0 <= k < |posts| ==> (Asks(inp, posts[k]) <==> k in at)
  {
    at := [];
    if posts != [] {
      var n := |posts| - 1;
      at := CandidatesAt(inp, posts[..n]);
      forall k | 0 <= k < n ensures Asks(inp, posts[k]) <==> k in at {
        assert posts[..n][k] == posts[k];
      }
      if IsCandidate(inp, posts[n]) {
        at := at + [n];
      }
    }
  }

  /** In a thread in order, the posts up to a time come first. */
  lemma {:induction false} UpToIsPrefix(posts: seq<Post>, end: int) returns (m: nat)
    requires InOrder(posts)
    ensures m <= |posts| && UpTo(posts, end) == posts[..m]
    ensures forall i :: 0 <= i < |posts| ==> (posts[i].created <= end <==> i < m)
  {
    if posts == [] {
      m := 0;
    } else {
      var n := |posts| - 1;
      m := UpToIsPrefix(posts[..n], end);
      forall i | 0 <= i < n ensures posts[i].created <= posts[n].created && (posts[i].created <= end <==> i < m) {
        assert Before(posts[i], posts[n]) && posts[..n][i] == posts[i];
      }
      hide InOrder;
      if posts[n].created <= end {
        assert m == n;
        m := n + 1;
        assert posts == posts[..n] + [posts[n]];
      } else {
        assert posts[..n][..m] == posts[..m];
      }
    }
  }

  lemma {:induction false} IdsAt(posts: seq<Post>)
    ensures |IdsOf(posts)| == |posts| && forall i :: 0 <= i < |posts| ==> IdsOf(posts)[i] == posts[i].id
  {
    if posts != [] {
      IdsAt(posts[..|posts| - 1]);
    }
  }

  /** The first of the asking posts, as far as the window allows. */
  lemma FirstAsksAt(inp: Inputs, all: seq<nat>, candidates: seq<Post>, count: nat)
    requires 0 < count <= |all| == |candidates|
    requires forall i :: 0 <= i < |all| ==> all[i] < |inp.posts| && inp.posts[all[i]] == candidates[i]
    requires forall i, j :: 0 <= i < j < |all| ==> all[i] < all[j]
    requires forall k :: 0 <= k < |inp.posts| ==> (Asks(inp, inp.posts[k]) <==> k in all)
    requires forall i :: 0 <= i < count ==> candidates[i].created <= candidates[0].created + inp.window
    ensures AreFirstAsks(inp, IdsOf(candidates[..count]), all[..count])
  {
    hide Asks;
    IdsAt(candidates[..count]);
    var at, triggers := all[..count], IdsOf(candidates[..count]);
    forall i | 0 <= i < count
      ensures at[i] < |inp.posts| && Asks(inp, inp.posts[at[i]]) && triggers[i] == inp.posts[at[i]].id
      ensures inp.posts[at[i]].created <= inp.posts[at[0]].created + inp.window
    {
      assert at[i] == all[i] && all[i] in all && at[0] == all[0];
    }
    forall k | 0 <= k < at[count - 1] && Asks(inp, inp.posts[k]) ensures k in at {
      var i :| 0 <= i < |all| && all[i] == k;
      assert i < count;
      assert at[i] == k;
    }
  }

  /** The first triggers of the window are the first asking posts. */
  lemma WindowAsks(inp: Inputs, count: nat) returns (at: seq<nat>)
    requires Fetched(inp) && 0 < count <= |Window(inp)|
    ensures AreFirstAsks(inp, IdsOf(Window(inp)[..count]), at)
  {
    CandidatesShape(inp, inp.posts);
    var all := CandidatesAt(inp, inp.posts);
    var candidates := Candidates(inp, inp.posts);
    hide Candidates, IsCandidate, Asks, AreFirstAsks, DistinctIds;
    var m := UpToIsPrefix(candidates, candidates[0].created + inp.window);
    assert Window(inp)[..count] == candidates[..count];
    FirstAsksAt(inp, all, candidates, count);
    at := all[..count];
  }

  /** Whether anything asks, and when the window closes that the first asking post opens. */
  lemma WindowOpens(inp: Inputs)
    requires Fetched(inp)
    ensures Candidates(inp, inp.posts) == [] <==> forall p :: p in inp.posts ==> !Asks(inp, p)
    ensures forall k :: FirstAsks(inp, k) ==>
              Candidates(inp, inp.posts) != [] && Candidates(inp, inp.posts)[0] == inp.posts[k]
  {
    var all := CandidatesAt(inp, inp.posts);
    var candidates := Candidates(inp, inp.posts);
    hide Candidates, Asks, InOrder, DistinctIds;
    if candidates != [] {
      assert all[0] in all && Asks(inp, inp.posts[all[0]]);
    }
    forall k | FirstAsks(inp, k) ensures candidates != [] && candidates[0] == inp.posts[k] {
      var i :| 0 <= i < |all| && all[i] == k;
      assert all[0] <= all[i];
    }
  }

  // --- what may accompany the first triggers ---

  /** Posts that the builder never writes for a transfer: pending triggers, and posts frozen in the saved text. */
  predicate IsPending(inp: Inputs, p: Id) {
    inp.transfer.Some? && exists q :: q in inp.posts && q.id == p && IsCandidate(inp, q)
  }

  predicate IsFrozen(inp: Inputs, p: Id) {
    && inp.transfer.Some? && p in inp.transfer.value.versions
    && !(p in inp.versions && inp.versions[p] == inp.transfer.value.versions[p])
  }

  predicate IsEligible(inp: Inputs, p: Post, end: Option<int>, next: Option<Post>, mandatory: set<Id>) {
    && !IsFrozen(inp, p.id) && !IsPending(inp, p.id) && !p.deleted
    && (match next
        case Some(t) => p.created < t.created || (p.created == t.created && p.id < t.id)
        case None => end.Some? ==> p.created <= end.value)
    && (inp.initial || p.user != inp.bot)
    && (inp.initial || p.id !in inp.context || p.id in mandatory)
  }

  function Eligible(
    inp: Inputs, posts: seq<Post>, end: Option<int>, next: Option<Post>, mandatory: set<Id>): seq<Post>
  {
    if posts == [] then []
    else
      Eligible(inp, posts[..|posts| - 1], end, next, mandatory)
      + if IsEligible(inp, posts[|posts| - 1], end, next, mandatory) then [posts[|posts| - 1]] else []
  }

  lemma {:induction false} EligibleShape(
    inp: Inputs, posts: seq<Post>, end: Option<int>, next: Option<Post>, mandatory: set<Id>)
    requires DistinctIds(posts)
    ensures DistinctIds(Eligible(inp, posts, end, next, mandatory))
    ensures forall p :: p in Eligible(inp, posts, end, next, mandatory) <==>
              p in posts && IsEligible(inp, p, end, next, mandatory)
  {
    hide IsEligible;
    if posts != [] {
      var front := posts[..|posts| - 1];
      assert posts == front + [posts[|posts| - 1]];
      EligibleShape(inp, front, end, next, mandatory);
      assert DistinctIds(front);
      forall p | p in front ensures p.id != posts[|posts| - 1].id {
        var k :| 0 <= k < |front| && front[k] == p;
      }
    }
  }

  // --- the draft ---

  /** Every post at most once. */
  ghost predicate PostsOnce(items: seq<Item>) {
    forall i, j :: 0 <= i < j < |items| && items[i].PostItem? && items[j].PostItem? ==> items[i].post != items[j].post
  }

  ghost predicate FilesOnce(files: seq<Id>) {
    forall i, j :: 0 <= i < j < |files| ==> files[i] != files[j]
  }

  /** The files of a post that are new, each once. */
  function Unseen(attached: seq<Id>, seen: set<Id>): seq<Id> {
    if attached == [] then []
    else
      var front, last := attached[..|attached| - 1], attached[|attached| - 1];
      Unseen(front, seen) + if last in seen || last in front then [] else [last]
  }

  /** Those of them beyond the limit per post. */
  function Excess(attached: seq<Id>, seen: set<Id>, limit: nat): set<Id> {
    if attached == [] then {}
    else
      var front, last := attached[..|attached| - 1], attached[|attached| - 1];
      Excess(front, seen, limit) + if last in seen || last in front || |front| < limit then {} else {last}
  }

  /** The loop over the files that the server lists for a post. */
  method CollectFiles(attached: seq<Id>, own: seq<Id>, seen: set<Id>, limit: nat)
    returns (ok: bool, found: seq<Id>, excess: set<Id>)
    ensures (forall f :: f in attached ==> f in own) ==> ok
    ensures ok ==> found == Unseen(attached, seen) && excess == Excess(attached, seen, limit)
  {
    found, excess := [], {};
    for i := 0 to |attached|
      invariant found == Unseen(attached[..i], seen) && excess == Excess(attached[..i], seen, limit)
    {
      var f := attached[i];
      assert attached[..i + 1][..i] == attached[..i];
      if f !in own {
        return false, found, excess;
      }
      if f !in seen && f !in attached[..i] {
        found := found + [f];
        excess := if i >= limit then excess + {f} else excess;
      }
    }
    assert attached[..|attached|] == attached;
    ok := true;
  }

  lemma {:induction false} FilesAppend(files: seq<Id>, fileSeen: set<Id>, attached: seq<Id>)
    requires FilesValid(files, fileSeen)
    ensures FilesValid(files + Unseen(attached, fileSeen), fileSeen + set f | f in attached)
  {
    if attached == [] {
      assert files + [] == files;
    } else {
      var front, last := attached[..|attached| - 1], attached[|attached| - 1];
      FilesAppend(files, fileSeen, front);
      assert attached == front + [last];
      UnseenIsNew(front, fileSeen);
      var before := files + Unseen(front, fileSeen);
      if last !in fileSeen && last !in front {
        assert last !in before;
        assert files + Unseen(attached, fileSeen) == before + [last];
      } else {
        assert files + Unseen(attached, fileSeen) == before;
      }
    }
  }

  lemma {:induction false} UnseenIsNew(attached: seq<Id>, seen: set<Id>)
    ensures forall f :: f in Unseen(attached, seen) <==> f in attached && f !in seen
  {
    if attached != [] {
      UnseenIsNew(attached[..|attached| - 1], seen);
      assert attached == attached[..|attached| - 1] + [attached[|attached| - 1]];
    }
  }

  /** What remains to be fetched of one post is within the limit. */
  lemma {:induction false} ExcessLimits(attached: seq<Id>, seen: set<Id>, limit: nat)
    ensures forall f :: f in Excess(attached, seen, limit) ==> f in attached
    ensures |Unseen(attached, seen)| <= |attached|
    ensures |Unseen(attached, seen)| <= limit + |Excess(attached, seen, limit)|
  {
    if attached != [] {
      var front, last := attached[..|attached| - 1], attached[|attached| - 1];
      ExcessLimits(front, seen, limit);
      assert attached == front + [last];
      if last !in seen && last !in front && |front| >= limit {
        assert |Excess(front, seen, limit) + {last}| == |Excess(front, seen, limit)| + 1;
      }
    }
  }

  /** A file is listed for the first time at this place. */
  ghost predicate IsNewAt(attached: seq<Id>, seen: set<Id>, f: Id, i: nat)
    requires i < |attached|
  {
    attached[i] == f && f !in attached[..i] && f !in seen
  }

  /** They are the new ones that the server lists after that many. */
  lemma {:induction false} ExcessExactly(attached: seq<Id>, seen: set<Id>, limit: nat)
    ensures forall f :: f in Excess(attached, seen, limit) <==>
              exists i :: limit <= i < |attached| && IsNewAt(attached, seen, f, i)
  {
    if attached != [] {
      var n := |attached| - 1;
      ExcessExactly(attached[..n], seen, limit);
      forall f, i | 0 <= i < n ensures IsNewAt(attached[..n], seen, f, i) <==> IsNewAt(attached, seen, f, i) {
        assert attached[..n][..i] == attached[..i];
      }
      forall f ensures IsNewAt(attached, seen, f, n) <==> f == attached[n] && f !in seen && f !in attached[..n] {
      }
      hide IsNewAt;
    }
  }

  // --- what the envelope records of the items ---

  /** Thread posts other than the triggers. */
  function ContextOf(items: seq<Item>, mandatory: set<Id>): seq<Id> {
    if items == [] then []
    else
      var last := items[|items| - 1];
      ContextOf(items[..|items| - 1], mandatory)
      + if last.PostItem? && last.origin != InLinked && last.post !in mandatory then [last.post] else []
  }

  lemma {:induction false} ContextExactly(items: seq<Item>, mandatory: set<Id>)
    ensures forall id :: id in ContextOf(items, mandatory) <==>
              id !in mandatory && exists i ::
                0 <= i < |items| && items[i].PostItem? && items[i].post == id && items[i].origin != InLinked
  {
    if items != [] {
      var n := |items| - 1;
      ContextExactly(items[..n], mandatory);
      assert forall i :: 0 <= i < n ==> items[..n][i] == items[i];
    }
  }

  function ShownPosts(items: seq<Item>): set<Id> {
    set i | 0 <= i < |items| && items[i].PostItem? :: items[i].post
  }

  /** A transfer keeps what its envelope records of the posts frozen in the saved text. */
  function FrozenContext(inp: Inputs): seq<Id> {
    if inp.transfer.Some? then Frozen(inp, inp.transfer.value.context) else []
  }

  function Frozen(inp: Inputs, ids: seq<Id>): seq<Id> {
    if ids == [] then []
    else Frozen(inp, ids[..|ids| - 1]) + if IsFrozen(inp, ids[|ids| - 1]) then [ids[|ids| - 1]] else []
  }

  function FrozenVersions(inp: Inputs): map<Id, nat> {
    if inp.transfer.Some? then map id | id in inp.transfer.value.versions &&
        IsFrozen(inp, id) :: inp.transfer.value.versions[id]
    else map[]
  }

  /** The saved text holds the post in a version that the agent has not read otherwise. */
  ghost predicate HeldBack(inp: Inputs, t: Transfer, id: Id) {
    id in t.versions && (id in inp.versions ==> inp.versions[id] != t.versions[id])
  }

  /** Exactly those posts stay in the envelope of a transfer, at the versions it records. */
  lemma FrozenExactly(inp: Inputs)
    ensures inp.transfer.None? ==> FrozenContext(inp) == [] && FrozenVersions(inp) == map[]
    ensures inp.transfer.Some? ==>
              var t := inp.transfer.value;
              && (forall id :: id in FrozenContext(inp) <==> id in t.context && HeldBack(inp, t, id))
              && (forall id :: id in FrozenVersions(inp) <==> HeldBack(inp, t, id))
              && forall id :: id in FrozenVersions(inp) ==> FrozenVersions(inp)[id] == t.versions[id]
  {
    if inp.transfer.Some? {
      FrozenIds(inp, inp.transfer.value.context);
    }
  }

  lemma {:induction false} FrozenIds(inp: Inputs, ids: seq<Id>)
    ensures forall id :: id in Frozen(inp, ids) <==> id in ids && IsFrozen(inp, id)
  {
    if ids != [] {
      var n := |ids| - 1;
      FrozenIds(inp, ids[..n]);
      assert ids == ids[..n] + [ids[n]];
    }
  }

  ghost predicate Grows(a: map<Id, nat>, b: map<Id, nat>) {
    forall id :: id in a ==> id in b && b[id] == a[id]
  }

  lemma OneMoreItem(inp: Inputs, items: seq<Item>, item: Item, mandatory: set<Id>)
    ensures Length(inp, items + [item]) == Length(inp, items) + inp.length(item)
    ensures ContextOf(items + [item], mandatory) ==
            ContextOf(items, mandatory)
            + (if item.PostItem? && item.origin != InLinked && item.post !in mandatory then [item.post] else [])
    ensures ShownPosts(items + [item]) == ShownPosts(items) + if item.PostItem? then {item.post} else {}
  {
    assert (items + [item])[..|items|] == items;
    assert forall i :: 0 <= i < |items| ==> (items + [item])[i] == items[i];
    assert (items + [item])[|items|] == item;
  }

  /** The bytes of the items. */
  function Length(inp: Inputs, items: seq<Item>): nat {
    if items == [] then 0 else Length(inp, items[..|items| - 1]) + inp.length(items[|items| - 1])
  }

  lemma {:induction false} LengthAdds(inp: Inputs, a: seq<Item>, b: seq<Item>)
    ensures Length(inp, a + b) == Length(inp, a) + Length(inp, b)
  {
    if b == [] {
      assert a + b == a;
    } else {
      assert (a + b)[..|a + b| - 1] == a + b[..|b| - 1];
      LengthAdds(inp, a, b[..|b| - 1]);
    }
  }

  /** Everything shown is marked as seen, once, and nothing pending is shown. */
  ghost predicate ItemsValid(inp: Inputs, items: seq<Item>, seen: set<Id>) {
    && PostsOnce(items)
    && (forall i :: 0 <= i < |items| && items[i].PostItem? ==>
          items[i].post in seen && !IsPending(inp, items[i].post) && !IsFrozen(inp, items[i].post))
    && forall id :: IsFrozen(inp, id) ==> id in seen
  }

  ghost predicate FilesValid(files: seq<Id>, fileSeen: set<Id>) {
    FilesOnce(files) && forall f :: f in files ==> f in fileSeen
  }

  /** What the envelope records is what the items show. */
  ghost predicate RecordsValid(
    inp: Inputs, items: seq<Item>, mandatory: set<Id>, context: seq<Id>, versions: map<Id, nat>, seen: set<Id>,
        total: nat)
  {
    && total == Length(inp, SavedOf(inp)) + Length(inp, items)
    && context == FrozenContext(inp) + ContextOf(items, mandatory)
    && versions.Keys == FrozenVersions(inp).Keys + ShownPosts(items) && versions.Keys <= seen
  }

  lemma ItemAppends(inp: Inputs, items: seq<Item>, seen: set<Id>, item: Item)
    requires ItemsValid(inp, items, seen)
    requires item.PostItem? ==> item.post in seen && !IsPending(inp, item.post) && !IsFrozen(inp, item.post)
    requires item.PostItem? ==> item.post !in ShownPosts(items)
    ensures ItemsValid(inp, items + [item], seen)
  {
    hide IsPending, IsFrozen;
    forall i | 0 <= i < |items| && items[i].PostItem? ensures items[i].post in ShownPosts(items) {
    }
  }

  lemma RecordAppends(
    inp: Inputs, items: seq<Item>, mandatory: set<Id>, context: seq<Id>, versions: map<Id, nat>, seen: set<Id>,
        total: nat,
    item: Item, version: nat)
    requires RecordsValid(inp, items, mandatory, context, versions, seen, total) &&
              (item.PostItem? ==> item.post in seen)
    ensures var shown := item.PostItem? && item.origin != InLinked && item.post !in mandatory;
            RecordsValid(inp, items + [item], mandatory, if shown then context + [item.post] else context,
                         if item.PostItem? then versions[item.post := version] else versions, seen,
                             total + inp.length(item))
  {
    OneMoreItem(inp, items, item, mandatory);
    hide ContextOf, ShownPosts, Length, FrozenContext, FrozenVersions;
  }

  /** Marking one more post as seen. */
  lemma SeenGrows(
    inp: Inputs, items: seq<Item>, mandatory: set<Id>, context: seq<Id>, versions: map<Id, nat>, seen: set<Id>,
                  total: nat, id: Id)
    requires ItemsValid(inp, items, seen) && RecordsValid(inp, items, mandatory, context, versions, seen, total)
    ensures ItemsValid(inp, items, seen + {id}) &&
              RecordsValid(inp, items, mandatory, context, versions, seen + {id}, total)
    ensures forall p :: p in ShownPosts(items) || IsFrozen(inp, p) ==> p in seen
    ensures forall p :: p in versions ==> p in seen
  {
    hide IsPending, Length, ContextOf;
  }

  class Draft {
    var items: seq<Item>
    var files: seq<Id>
    var seen: set<Id>
    var fileSeen: set<Id>
    var limited: set<Id> // files listed without being fetched, their post having too many
    var total: nat
    var context: seq<Id>        // thread posts shown besides the triggers
    var versions: map<Id, nat>  // of every post shown
    const mandatory: set<Id>

    /** Everything listed is marked as seen, and nothing pending is listed. */
    ghost predicate Valid(inp: Inputs)
      reads this
    {
      && ItemsValid(inp, items, seen)
      && FilesValid(files, fileSeen)
      && RecordsValid(inp, items, mandatory, context, versions, seen, total)
    }

    constructor (inp: Inputs, mandatory: set<Id>)
      requires inp.transfer.Some? ==> FilesOnce(inp.transfer.value.files)
      ensures Valid(inp) && items == [] && this.mandatory == mandatory && versions == FrozenVersions(inp)
      ensures limited == {} && (inp.transfer.None? ==> seen == {} && files == [])
      ensures inp.transfer.Some? ==> files == inp.transfer.value.files && forall id :: id in seen <==> IsFrozen(inp, id)
      ensures forall f :: f in fileSeen ==> f in files
    {
      items, limited := [], {};
      this.mandatory := mandatory;
      context, versions := FrozenContext(inp), FrozenVersions(inp);
      if inp.transfer.Some? {
        total := Length(inp, SavedItems(inp.transfer.value.texts));
        files := inp.transfer.value.files;
        seen := set id | id in inp.transfer.value.versions && IsFrozen(inp, id);
        fileSeen := set f | f in inp.transfer.value.files;
      } else {
        files, seen, fileSeen, total := [], {}, {}, 0;
      }
    }

    /** appendMessage. */
    method Append(inp: Inputs, item: Item, version: nat := 0)
      requires Valid(inp)
      requires item.PostItem? ==> item.post in seen && !IsPending(inp, item.post) && !IsFrozen(inp, item.post)
      requires item.PostItem? ==> item.post !in versions && item.post !in ShownPosts(items)
      modifies this`items, this`total, this`context, this`versions
      ensures Valid(inp) && items == old(items) + [item]
      ensures versions == if item.PostItem? then old(versions)[item.post := version] else old(versions)
    {
      hide ItemsValid, RecordsValid, FilesValid, ShownPosts, IsPending, IsFrozen;
      ItemAppends(inp, items, seen, item);
      RecordAppends(inp, items, mandatory, context, versions, seen, total, item, version);
      items := items + [item];
      total := total + inp.length(item);
      if item.PostItem? {
        versions := versions[item.post := version];
        context := if item.origin != InLinked && item.post !in mandatory then context + [item.post] else context;
      }
    }

    /** The files of a post, each listed once over the whole input; false when the server names one that is not its
        own. */
    method ListFiles(inp: Inputs, p: Post) returns (ok: bool)
      requires Valid(inp)
      modifies this`files, this`fileSeen, this`limited
      ensures Valid(inp) && old(files) <= files
      ensures p.files == [] || p.id !in inp.attached ==>
                ok && files == old(files) && limited == old(limited) && fileSeen == old(fileSeen)
      ensures FilesHonest(inp, p) ==> ok
      ensures ok && p.files != [] && p.id in inp.attached ==>
                && files == old(files) + Unseen(inp.attached[p.id], old(fileSeen))
                && limited == old(limited) + Excess(inp.attached[p.id], old(fileSeen), inp.maxPerPost)
                && fileSeen == old(fileSeen) + set f | f in inp.attached[p.id]
    {
      if p.files == [] || p.id !in inp.attached {
        return true;
      }
      var attached := inp.attached[p.id];
      hide Unseen, Excess, ItemsValid, RecordsValid, FilesValid;
      var found, excess;
      ok, found, excess := CollectFiles(attached, p.files, fileSeen, inp.maxPerPost);
      if ok {
        FilesAppend(files, fileSeen, attached);
        files := files + found;
        limited := limited + excess;
        fileSeen := fileSeen + set f | f in attached;
      }
    }

    /** The closure `write`. */
    method Write(inp: Inputs, p: Post, origin: Origin) returns (ok: bool)
      requires Valid(inp)
      modifies this
      ensures Valid(inp) && old(seen) <= seen && old(files) <= files
      ensures ok ==> items == if p.id in old(seen) ||
                IsPending(inp, p.id) then old(items) else old(items) + [PostItem(p.id, origin)]
      ensures ok ==> seen == if IsPending(inp, p.id) then old(seen) else old(seen) + {p.id}
      ensures old(items) <= items && Grows(old(versions), versions)
      ensures ok ==> versions == if p.id in old(seen) ||
                IsPending(inp, p.id) then old(versions) else old(versions)[p.id := p.version]
      ensures ok && p.id !in old(seen) && !IsPending(inp, p.id) && p.files != [] && p.id in inp.attached ==>
                && files == old(files) + Unseen(inp.attached[p.id], old(fileSeen))
                && limited == old(limited) + Excess(inp.attached[p.id], old(fileSeen), inp.maxPerPost)
                && fileSeen == old(fileSeen) + set f | f in inp.attached[p.id]
      ensures ok && (p.id in old(seen) || IsPending(inp, p.id) || p.files == [] || p.id !in inp.attached) ==>
                files == old(files) && limited == old(limited) && fileSeen == old(fileSeen)
      ensures FilesHonest(inp, p) ==> ok
    {
      SeenGrows(inp, items, mandatory, context, versions, seen, total, p.id);
      if p.id in seen || IsPending(inp, p.id) {
        return true;
      }
      hide ItemsValid, RecordsValid, FilesValid, ShownPosts, IsPending, IsFrozen;
      seen := seen + {p.id};
      ok := ListFiles(inp, p);
      if ok {
        Append(inp, PostItem(p.id, origin), p.version);
      }
    }
  }

  // --- linked posts ---

  /** The permalinks of the posts as they come. */
  ghost function LinksOf(inp: Inputs, posts: seq<Post>): seq<Id> {
    if posts == [] then [] else LinksOf(inp, posts[..|posts| - 1]) + inp.links(posts[|posts| - 1])
  }

  /** The first place of each of them, in order, is where this list has it. */
  ghost predicate AtFirst(all: seq<Id>, ids: seq<Id>, at: seq<nat>) {
    && |at| == |ids|
    && (forall k :: 0 <= k < |at| ==> at[k] < |all| && all[at[k]] == ids[k] && ids[k] !in all[..at[k]])
    && (forall j, k :: 0 <= j < k < |at| ==> at[j] < at[k])
    && forall id :: id in all <==> id in ids
  }

  /** The different links of the chosen posts, in order. */
  ghost predicate AreLinks(inp: Inputs, posts: seq<Post>, ids: seq<Id>) {
    exists at: seq<nat> :: AtFirst(LinksOf(inp, posts), ids, at)
  }

  lemma AtFirstStep(all: seq<Id>, ids: seq<Id>, at: seq<nat>, id: Id)
    requires AtFirst(all, ids, at)
    ensures if id in ids then AtFirst(all + [id], ids, at) else AtFirst(all + [id], ids + [id], at + [|all|])
  {
    assert forall k :: 0 <= k < |at| ==> (all + [id])[..at[k]] == all[..at[k]];
    assert (all + [id])[..|all|] == all;
  }

  /** The permalinks of the chosen posts, each once, in order. */
  method CollectLinks(inp: Inputs, chosen: seq<Post>) returns (ids: seq<Id>)
    ensures AreLinks(inp, chosen, ids)
  {
    ids := [];
    ghost var at: seq<nat> := [];
    for i := 0 to |chosen|
      invariant AtFirst(LinksOf(inp, chosen[..i]), ids, at)
    {
      var found := inp.links(chosen[i]);
      ghost var before := LinksOf(inp, chosen[..i]);
      assert chosen[..i + 1][..i] == chosen[..i];
      assert before + found[..0] == before;
      for j := 0 to |found|
        invariant AtFirst(before + found[..j], ids, at)
      {
        hide AtFirst;
        assert before + found[..j + 1] == (before + found[..j]) + [found[j]];
        AtFirstStep(before + found[..j], ids, at, found[j]);
        if found[j] !in ids {
          ids, at := ids + [found[j]], at + [|before + found[..j]|];
        }
      }
      assert found[..|found|] == found;
    }
    assert chosen[..|chosen|] == chosen;
  }

  /** What has been marked as seen is shown, or held by saved text. */
  ghost predicate Tracked(inp: Inputs, items: seq<Item>, seen: set<Id>) {
    forall id :: id in seen ==> Told(inp, items, id)
  }

  ghost predicate Told(inp: Inputs, items: seq<Item>, id: Id) {
    IsFrozen(inp, id) || id in ShownPosts(items)
  }

  lemma ToldIsSeen(inp: Inputs, items: seq<Item>, seen: set<Id>)
    requires ItemsValid(inp, items, seen) && Tracked(inp, items, seen)
    ensures forall id :: id in seen <==> Told(inp, items, id)
  {
    hide IsFrozen, IsPending, PostsOnce;
  }

  lemma TrackedGrows(inp: Inputs, items: seq<Item>, seen: set<Id>, more: seq<Item>, id: Id)
    requires Tracked(inp, items, seen)
    ensures Tracked(inp, items + more, seen)
    ensures id in ShownPosts(more) || id in seen ==> Tracked(inp, items + more, seen + {id})
  {
    ShownAppend(items, more);
    hide IsFrozen, ShownPosts;
  }

  /** What the budget leaves for links beside these items. */
  ghost function Room(inp: Inputs, budget: nat, items: seq<Item>): int {
    (if budget < inp.half then budget else inp.half) - Length(inp, SavedOf(inp)) - Length(inp, items)
  }

  /** What is left of it after the posts around a linked one, which itself has been allowed for. */
  ghost function Left(inp: Inputs, selection: seq<Post>, target: Id, room: int): int {
    if selection == [] then room
    else LeftBy(inp, selection[|selection| - 1], target, Left(inp, selection[..|selection| - 1], target, room))
  }

  ghost function LeftBy(inp: Inputs, p: Post, target: Id, left: int): int {
    if p.id != target && inp.cost(p) <= left then left - inp.cost(p) else left
  }

  ghost function Brought(inp: Inputs, before: seq<Item>, p: Post, target: Id, left: int): seq<Item> {
    if p.id != target && inp.cost(p) > left then [Notice]
    else if p.deleted || IsPending(inp, p.id) || Told(inp, before, p.id) then []
    else [PostItem(p.id, InLinked)]
  }

  /** What these posts bring: each that is the target or fits, unless it is deleted, waits for another batch or has been
      told. */
  ghost function Linked(inp: Inputs, before: seq<Item>, selection: seq<Post>, target: Id, room: int): seq<Item> {
    if selection == [] then []
    else
      var front, p := selection[..|selection| - 1], selection[|selection| - 1];
      var items := Linked(inp, before, front, target, room);
      items + Brought(inp, before + items, p, target, Left(inp, front, target, room))
  }

  /** The linked post goes in before its neighbours, and they stay within what the budget leaves. */
  lemma {:induction false} LinkedFits(inp: Inputs, before: seq<Item>, selection: seq<Post>, target: Id, room: int)
    ensures Left(inp, selection, target, room) <= room
    ensures Left(inp, selection, target, room) < room ==> Left(inp, selection, target, room) >= 0
    ensures forall p :: p in selection && p.id == target && !p.deleted && !IsPending(inp, target) ==>
              Told(inp, before + Linked(inp, before, selection, target, room), target)
    ensures forall id :: id in ShownPosts(Linked(inp, before, selection, target, room)) ==>
              exists p :: p in selection && p.id == id && !p.deleted && !IsPending(inp, id)
                && (id == target || inp.cost(p) <= room)
  {
    if selection != [] {
      var front, p := selection[..|selection| - 1], selection[|selection| - 1];
      assert selection == front + [p];
      LinkedFits(inp, before, front, target, room);
      var items, all := Linked(inp, before, front, target, room), Linked(inp, before, selection, target, room);
      var last := all[|items|..];
      assert all == items + last && before + all == (before + items) + last;
      ShownAppend(items, last);
      ShownAppend(before + items, last);
      ShownOne(p.id);
      hide IsPending, IsFrozen, ShownPosts;
      forall id | id in ShownPosts(all)
        ensures exists q :: q in selection && q.id == id && !q.deleted && !IsPending(inp, id)
                  && (id == target || inp.cost(q) <= room) {
        if id in ShownPosts(items) {
          var q :| q in front && q.id == id && !q.deleted && !IsPending(inp, id) &&
              (id == target || inp.cost(q) <= room);
          assert q in selection;
        } else {
          assert p in selection;
        }
      }
    }
  }

  lemma ShownOne(id: Id)
    ensures ShownPosts([]) == {} && ShownPosts([Notice]) == {} && ShownPosts([PostItem(id, InLinked)]) == {id}
  {
    assert [PostItem(id, InLinked)][0] == PostItem(id, InLinked);
  }

  /** The window around a linked post (linkedSelection). */
  ghost predicate IsWindow(inp: Inputs, p: Post, linked: seq<Post>, selection: seq<Post>) {
    var root := if p.root == 0 then p.id else p.root;
    exists indices ::
      && IsSelection(linked, selection, indices) && Nearest(linked, p.id, root, indices)
      && |selection| == (if inp.maxPosts < |linked| then inp.maxPosts else |linked|)
      && Has(selection, p.id) && (Has(linked, root) ==> Has(selection, root))
  }

  /** What one link brings, beside what is there: a notice when it cannot be read or does not fit, a post of this thread
      itself, or the posts around it in its own thread. */
  ghost predicate LinkStep(inp: Inputs, budget: nat, id: Id, before: seq<Item>, more: seq<Item>) {
    if id !in inp.lookup || inp.lookup[id].deleted then more == [Notice]
    else
      var p, room := inp.lookup[id], Room(inp, budget, before);
      var known := !inp.initial && p.id in inp.versions && inp.versions[p.id] == p.version;
      if p.channel == inp.channel && (if p.root == 0 then p.id else p.root) == inp.root then
        more == if Told(inp, before, p.id) then []
                else if !known && inp.cost(p) > room then [Notice]
                else if IsPending(inp, p.id) then []
                else [PostItem(p.id, if known then Reference else InThread)]
      else if inp.cost(p) > room || p.id !in inp.threads then more == [Notice]
      else
        exists selection ::
          && IsWindow(inp, p, inp.threads[p.id], selection)
          && more == Linked(inp, before, selection, p.id, room - inp.cost(p))
  }

  /** One link after the other. */
  ghost predicate LinkSteps(inp: Inputs, budget: nat, ids: seq<Id>, start: seq<Item>, items: seq<Item>) {
    if ids == [] then items == start
    else
      exists mid: seq<Item> ::
        && LinkSteps(inp, budget, ids[..|ids| - 1], start, mid)
        && mid <= items && LinkStep(inp, budget, ids[|ids| - 1], mid, items[|mid|..])
  }

  lemma LinkStepsMore(inp: Inputs, budget: nat, ids: seq<Id>, k: nat, start: seq<Item>, mid: seq<Item>, more: seq<Item>)
    requires k < |ids| && LinkSteps(inp, budget, ids[..k], start, mid) && LinkStep(inp, budget, ids[k], mid, more)
    ensures LinkSteps(inp, budget, ids[..k + 1], start, mid + more)
  {
    hide LinkStep;
    assert ids[..k + 1][..k] == ids[..k];
    assert (mid + more)[|mid|..] == more;
  }

  /** The posts around one link to another thread. */
  method WriteLinked(inp: Inputs, draft: Draft, p: Post, linked: seq<Post>, allowed: nat)
    returns (ok: bool, ghost selection: seq<Post>)
    requires draft.Valid(inp) && inp.maxPosts >= 2 && Tracked(inp, draft.items, draft.seen)
    requires DistinctIds(linked) && Has(linked, p.id)
    modifies draft
    ensures (forall q :: q in linked ==> FilesHonest(inp, q)) ==> ok
    ensures draft.Valid(inp) && old(draft.files) <= draft.files && Grows(old(draft.versions), draft.versions)
    ensures ok ==> Tracked(inp, draft.items, draft.seen) && IsWindow(inp, p, linked, selection)
    ensures ok ==> draft.items ==
                     old(draft.items)
                     + Linked(inp, old(draft.items), selection, p.id, allowed - old(draft.total) - inp.cost(p))
  {
    hide *;
    TargetEnds(linked, p.id, RootOf(p), inp.maxPosts);
    var posts, indices := LinkedSelection(linked, p.id, RootOf(p), inp.maxPosts);
    selection := posts;
    WindowIs(inp, p, linked, posts, indices);
    SelectionMembers(linked, posts, indices);
    ok := WriteSelection(inp, draft, posts, p.id, allowed - draft.total - inp.cost(p));
  }

  lemma TargetEnds(linked: seq<Post>, target: Id, root: Id, limit: int)
    requires Has(linked, target)
    ensures Ends(linked, target, root, limit)
  {
    hide Has;
  }

  lemma SelectionMembers(linked: seq<Post>, selection: seq<Post>, indices: seq<nat>)
    requires IsSelection(linked, selection, indices)
    ensures forall p :: p in selection ==> p in linked
  {
    forall p | p in selection ensures p in linked {
      var k :| 0 <= k < |selection| && selection[k] == p;
      assert linked[indices[k]] == p;
    }
  }

  lemma WindowIs(inp: Inputs, p: Post, linked: seq<Post>, selection: seq<Post>, indices: seq<nat>)
    requires IsSelection(linked, selection, indices) && Nearest(linked, p.id, RootOf(p), indices)
    requires |selection| == Min(inp.maxPosts, |linked|) && Has(selection, p.id)
    requires Has(linked, RootOf(p)) ==> Has(selection, RootOf(p))
    ensures IsWindow(inp, p, linked, selection)
  {
    hide IsSelection, Nearest, Has;
  }

  /** The posts one after the other. */
  method WriteSelection(inp: Inputs, draft: Draft, posts: seq<Post>, target: Id, room: int) returns (ok: bool)
    requires draft.Valid(inp) && Tracked(inp, draft.items, draft.seen)
    modifies draft
    ensures (forall q :: q in posts ==> FilesHonest(inp, q)) ==> ok
    ensures draft.Valid(inp) && old(draft.files) <= draft.files && Grows(old(draft.versions), draft.versions)
    ensures ok ==> Tracked(inp, draft.items, draft.seen)
    ensures ok ==> draft.items == old(draft.items) + Linked(inp, old(draft.items), posts, target, room)
  {
    hide IsFrozen, IsPending, ItemsValid, RecordsValid, FilesValid, ShownPosts, Told, Tracked, Linked, Left, LeftBy,
      Brought;
    var remaining: int := room;
    ghost var before := draft.items;
    LinkedNone(inp, before, posts, target, room);
    assert before + [] == before;
    for i := 0 to |posts|
      invariant draft.Valid(inp) && old(draft.files) <= draft.files && Grows(old(draft.versions), draft.versions)
      invariant Tracked(inp, draft.items, draft.seen)
      invariant remaining == Left(inp, posts[..i], target, room)
      invariant draft.items == before + Linked(inp, before, posts[..i], target, room)
    {
      LinkedNext(inp, before, posts, i, target, room);
      ok, remaining := WriteNeighbour(inp, draft, posts[i], target, remaining);
      if !ok {
        return;
      }
    }
    assert posts[..|posts|] == posts;
    ok := true;
  }

  lemma LinkedNone(inp: Inputs, before: seq<Item>, selection: seq<Post>, target: Id, room: int)
    ensures Left(inp, selection[..0], target, room) == room && Linked(inp, before, selection[..0], target, room) == []
  {
  }

  lemma LinkedNext(inp: Inputs, before: seq<Item>, selection: seq<Post>, i: nat, target: Id, room: int)
    requires i < |selection|
    ensures var p, left := selection[i], Left(inp, selection[..i], target, room);
            var items := Linked(inp, before, selection[..i], target, room);
            && Left(inp, selection[..i + 1], target, room) == LeftBy(inp, p, target, left)
            && before + Linked(inp, before, selection[..i + 1], target, room) ==
               before + items + Brought(inp, before + items, p, target, left)
  {
    assert selection[..i + 1][..i] == selection[..i];
  }

  /** What a post brings, by what is marked as seen. */
  lemma BroughtIs(inp: Inputs, items: seq<Item>, seen: set<Id>, p: Post, target: Id, left: int)
    requires ItemsValid(inp, items, seen) && Tracked(inp, items, seen)
    ensures Brought(inp, items, p, target, left) ==
            if p.id != target && inp.cost(p) > left then [Notice]
            else if p.deleted || IsPending(inp, p.id) || p.id in seen then [] else [PostItem(p.id, InLinked)]
    ensures LeftBy(inp, p, target, left) ==
            if p.id != target && inp.cost(p) <= left then left - inp.cost(p) else left
    ensures Tracked(inp, items + [Notice], seen)
  {
    ToldIsSeen(inp, items, seen);
    TrackedGrows(inp, items, seen, [Notice], 0);
    hide IsFrozen, IsPending, ItemsValid, Tracked, Told;
  }

  /** One pass of it. */
  method WriteNeighbour(inp: Inputs, draft: Draft, p: Post, target: Id, remaining: int) returns (ok: bool, left: int)
    requires draft.Valid(inp) && Tracked(inp, draft.items, draft.seen)
    modifies draft
    ensures FilesHonest(inp, p) ==> ok
    ensures draft.Valid(inp) && old(draft.files) <= draft.files && Grows(old(draft.versions), draft.versions)
    ensures ok ==> Tracked(inp, draft.items, draft.seen) && left == LeftBy(inp, p, target, remaining)
    ensures ok ==> draft.items == old(draft.items) + Brought(inp, old(draft.items), p, target, remaining)
  {
    hide *;
    ghost var items, seen := draft.items, draft.seen;
    DraftParts(inp, draft);
    BroughtIs(inp, items, seen, p, target, remaining);
    GrowsSame(draft.versions);
    left := remaining;
    if p.id != target {
      if inp.cost(p) > left {
        draft.Append(inp, Notice);
        return true, left;
      }
      left := left - inp.cost(p);
    }
    ok := true;
    if !p.deleted {
      ok := draft.Write(inp, p, InLinked);
      if ok {
        Written(inp, items, seen, draft.items, draft.seen, p.id, InLinked);
      }
    }
  }

  /** A post that has been written is tracked. */
  lemma Written(
    inp: Inputs, before: seq<Item>, seen: set<Id>, after: seq<Item>, now: set<Id>, id: Id, origin: Origin)
    requires Tracked(inp, before, seen)
    requires after == if id in seen || IsPending(inp, id) then before else before + [PostItem(id, origin)]
    requires now == if IsPending(inp, id) then seen else seen + {id}
    ensures Tracked(inp, after, now)
  {
    var more := if id in seen || IsPending(inp, id) then [] else [PostItem(id, origin)];
    assert before + more == after;
    TrackedGrows(inp, before, seen, more, id);
    hide IsFrozen, Tracked, Told, IsPending;
    assert more != [] ==> id in ShownPosts(more) by {
      assert more != [] ==> more[0].PostItem? && more[0].post == id;
    }
  }

  /** The loop over the links: nothing it writes repeats a post or a file, and nothing pending comes in through it. */
  method WriteLinks(inp: Inputs, draft: Draft, chosen: seq<Post>, budget: nat) returns (ok: bool, ghost ids: seq<Id>)
    requires draft.Valid(inp) && Fetched(inp) && Tracked(inp, draft.items, draft.seen)
    modifies draft
    ensures draft.Valid(inp) && old(draft.files) <= draft.files && Grows(old(draft.versions), draft.versions)
    ensures ServerHonest(inp) ==> ok
    ensures AreLinks(inp, chosen, ids)
    ensures ok ==> Tracked(inp, draft.items, draft.seen)
    ensures ok ==> LinkSteps(inp, budget, if |ids| < inp.maxLinks then ids else ids[..inp.maxLinks],
                             old(draft.items), draft.items)
  {
    var links := CollectLinks(inp, chosen);
    ids := links;
    hide IsFrozen, IsPending, ItemsValid, RecordsValid, FilesValid, ShownPosts, Told, Tracked, AreLinks, LinkStep,
      LinkSteps;
    var n := if |links| < inp.maxLinks then |links| else inp.maxLinks;
    NoLinkSteps(inp, budget, links, draft.items);
    for i := 0 to n
      invariant draft.Valid(inp) && old(draft.files) <= draft.files && Grows(old(draft.versions), draft.versions)
      invariant Tracked(inp, draft.items, draft.seen)
      invariant LinkSteps(inp, budget, links[..i], old(draft.items), draft.items)
    {
      ghost var before := draft.items;
      ghost var more;
      ok, more := WriteLink(inp, draft, links[i], budget);
      if !ok {
        return;
      }
      LinkStepsMore(inp, budget, links, i, old(draft.items), before, more);
    }
    assert links[..|links|] == links;
    ok := true;
  }

  lemma NoLinkSteps(inp: Inputs, budget: nat, ids: seq<Id>, items: seq<Item>)
    ensures LinkSteps(inp, budget, ids[..0], items, items)
  {
  }

  /** One pass of it. */
  method WriteLink(inp: Inputs, draft: Draft, id: Id, budget: nat) returns (ok: bool, ghost more: seq<Item>)
    requires draft.Valid(inp) && Fetched(inp) && Tracked(inp, draft.items, draft.seen)
    modifies draft
    ensures draft.Valid(inp) && old(draft.files) <= draft.files && Grows(old(draft.versions), draft.versions)
    ensures ServerHonest(inp) ==> ok
    ensures ok ==> Tracked(inp, draft.items, draft.seen)
    ensures ok ==> draft.items == old(draft.items) + more && LinkStep(inp, budget, id, old(draft.items), more)
  {
    hide *;
    ghost var items, seen := draft.items, draft.seen;
    TrackedGrows(inp, items, seen, [Notice], 0);
    RoomIs(inp, draft, budget);
    FetchedMeans(inp);
    if ServerHonest(inp) {
      HonestMeans(inp);
    }
    GrowsSame(draft.versions);
    LinkIs(inp, budget, id, items);
    var allowed := if budget < inp.half then budget else inp.half;
    more := [Notice];
    if id !in inp.lookup || inp.lookup[id].deleted {
      draft.Append(inp, Notice);
      return true, more;
    }
    var p := inp.lookup[id];
    var root := RootOf(p);
    if p.channel == inp.channel && root == inp.root {
      ok, more := WriteHere(inp, draft, p, allowed);
      return;
    }
    if inp.cost(p) > allowed - draft.total || p.id !in inp.threads {
      draft.Append(inp, Notice);
      return true, more;
    }
    ghost var selection, room := [], allowed - draft.total - inp.cost(p);
    ok, selection := WriteLinked(inp, draft, p, inp.threads[p.id], allowed);
    more := Linked(inp, items, selection, p.id, room);
  }

  lemma FetchedMeans(inp: Inputs)
    requires Fetched(inp)
    ensures inp.maxPosts >= 2
    ensures forall id :: id in inp.threads ==> DistinctIds(inp.threads[id]) && Has(inp.threads[id], id)
  {
  }

  lemma HonestMeans(inp: Inputs)
    requires ServerHonest(inp)
    ensures forall id :: id in inp.lookup ==> FilesHonest(inp, inp.lookup[id])
    ensures forall id, q :: id in inp.threads && q in inp.threads[id] ==> FilesHonest(inp, q)
  {
  }

  lemma DraftParts(inp: Inputs, draft: Draft)
    requires draft.Valid(inp)
    ensures ItemsValid(inp, draft.items, draft.seen) && FilesValid(draft.files, draft.fileSeen)
    ensures RecordsValid(inp, draft.items, draft.mandatory, draft.context, draft.versions, draft.seen, draft.total)
  {
    hide ItemsValid, FilesValid, RecordsValid;
  }

  lemma GrowsSame(versions: map<Id, nat>)
    ensures Grows(versions, versions)
  {
  }

  /** What a link brings, case by case. */
  lemma LinkIs(inp: Inputs, budget: nat, id: Id, before: seq<Item>)
    ensures id !in inp.lookup || inp.lookup[id].deleted ==> LinkStep(inp, budget, id, before, [Notice])
    ensures id in inp.lookup && !inp.lookup[id].deleted ==>
              var p, room := inp.lookup[id], Room(inp, budget, before);
              var known := !inp.initial && p.id in inp.versions && inp.versions[p.id] == p.version;
              if p.channel == inp.channel && RootOf(p) == inp.root then
                LinkStep(inp, budget, id, before,
                         if Told(inp, before, p.id) then []
                         else if !known && inp.cost(p) > room then [Notice]
                         else if IsPending(inp, p.id) then []
                         else [PostItem(p.id, if known then Reference else InThread)])
              else if inp.cost(p) > room || p.id !in inp.threads then LinkStep(inp, budget, id, before, [Notice])
              else forall selection :: IsWindow(inp, p, inp.threads[p.id], selection) ==>
                LinkStep(inp, budget, id, before, Linked(inp, before, selection, p.id, room - inp.cost(p)))
  {
    hide IsWindow, Linked, Room, Told, IsPending;
  }

  /** A link to a post of this thread. */
  method WriteHere(inp: Inputs, draft: Draft, p: Post, allowed: nat) returns (ok: bool, ghost more: seq<Item>)
    requires draft.Valid(inp) && Tracked(inp, draft.items, draft.seen)
    modifies draft
    ensures FilesHonest(inp, p) ==> ok
    ensures draft.Valid(inp) && old(draft.files) <= draft.files && Grows(old(draft.versions), draft.versions)
    ensures ok ==> Tracked(inp, draft.items, draft.seen)
    ensures ok ==>
              var known := !inp.initial && p.id in inp.versions && inp.versions[p.id] == p.version;
              && draft.items == old(draft.items) + more
              && more == if Told(inp, old(draft.items), p.id) then []
                         else if !known && inp.cost(p) > allowed - old(draft.total) then [Notice]
                         else if IsPending(inp, p.id) then []
                         else [PostItem(p.id, if known then Reference else InThread)]
  {
    hide *;
    ghost var items, seen := draft.items, draft.seen;
    DraftParts(inp, draft);
    ToldIsSeen(inp, items, seen);
    TrackedGrows(inp, items, seen, [Notice], 0);
    GrowsSame(draft.versions);
    ok, more := true, [];
    if p.id !in draft.seen {
      var origin := if !inp.initial && p.id in inp.versions &&
          inp.versions[p.id] == p.version then Reference else InThread;
      if origin != Reference && inp.cost(p) > allowed - draft.total {
        draft.Append(inp, Notice);
        more := [Notice];
        return;
      }
      ok := draft.Write(inp, p, origin);
      more := if IsPending(inp, p.id) then [] else [PostItem(p.id, origin)];
      if ok {
        Written(inp, items, seen, draft.items, draft.seen, p.id, origin);
      }
    }
  }

  lemma RoomIs(inp: Inputs, draft: Draft, budget: nat)
    requires draft.Valid(inp)
    ensures Room(inp, budget, draft.items) == (if budget < inp.half then budget else inp.half) - draft.total
  {
    hide ItemsValid, FilesValid, ShownPosts, ContextOf;
  }

  // --- one attempt ---

  function ThreadItems(chosen: seq<Post>): (items: seq<Item>)
    ensures |items| == |chosen|
    ensures forall i :: 0 <= i < |chosen| ==> items[i] == PostItem(chosen[i].id, InThread)
  {
    if chosen == [] then [] else ThreadItems(chosen[..|chosen| - 1]) + [PostItem(chosen[|chosen| - 1].id, InThread)]
  }

  function SavedItems(texts: seq<string>): (items: seq<Item>)
    ensures |items| == |texts|
    ensures forall i :: 0 <= i < |texts| ==> items[i] == Saved(texts[i])
  {
    if texts == [] then [] else SavedItems(texts[..|texts| - 1]) + [Saved(texts[|texts| - 1])]
  }

  function SavedOf(inp: Inputs): seq<Item> {
    if inp.transfer.Some? then SavedItems(inp.transfer.value.texts) else []
  }

  // The files in `limited` are named in the input and not fetched.
  datatype Batch = Batch(
    triggers: seq<Id>, items: seq<Item>, files: seq<Id>, limited: set<Id>, context: seq<Id>, versions: map<Id, nat>)

  /** What an input for the first `count` triggers looks like: optional context first, then thread posts in order, all
      from before the first trigger left out and the chosen triggers among them, then any saved text. */
  ghost predicate IsInput(
    inp: Inputs, triggers: seq<Post>, end: Option<int>, count: nat, batch: Batch, front: seq<Item>, chosen: seq<Post>)
    requires 0 < count <= |triggers|
  {
    && batch.items == front + ThreadItems(chosen) + SavedOf(inp)
    && PostsOnce(batch.items) && FilesOnce(batch.files)
    && (forall i :: 0 <= i < |batch.items| && batch.items[i].PostItem? ==>
          !IsPending(inp, batch.items[i].post) && !IsFrozen(inp, batch.items[i].post))
    && InOrder(chosen)
    && batch.context == FrozenContext(inp) + ContextOf(ThreadItems(chosen) + front, Mandatory(triggers, count))
    && batch.versions.Keys == FrozenVersions(inp).Keys + ShownPosts(batch.items)
    && (forall p :: p in chosen ==> p.id in batch.versions && batch.versions[p.id] == p.version)
    && (forall p :: p in chosen ==>
         p in inp.posts && IsEligible(inp, p, end, Next(triggers, count), Mandatory(triggers, count)))
    && (match inp.transfer
        case Some(t) => batch.triggers == t.triggers && t.files <= batch.files
        case None =>
          && batch.triggers == IdsOf(triggers[..count])
          && forall p :: p in triggers[..count] ==> p in chosen)
  }

  /** The thread posts are those that the selection takes of all that may be shown, at this budget. */
  ghost predicate IsSelected(
    inp: Inputs, triggers: seq<Post>, end: Option<int>, count: nat, budget: nat, chosen: seq<Post>)
    requires count <= |triggers|
  {
    var required := Mandatory(triggers, count);
    var offered := Eligible(inp, inp.posts, end, Next(triggers, count), required);
    && Indices(offered, Order(offered, required, inp.root))
    && chosen == Chosen(offered, Greedy(offered, Order(offered, required, inp.root), required, inp.cost, budget))
  }

  /** What may be shown, read off the posts: nothing deleted, nothing that waits for a later batch, and beyond the
      triggers themselves neither the agent's own posts nor what it has read, unless it starts afresh. A transfer shows
      neither pending triggers nor posts that its saved text holds in another version than was delivered. */
  ghost predicate MayShow(inp: Inputs, p: Post, end: Option<int>, next: Option<Post>, required: set<Id>) {
    && !p.deleted
    && (inp.initial || (p.user != inp.bot && (p.id in inp.context ==> p.id in required)))
    && (next.Some? ==>
          p.created < next.value.created || (p.created == next.value.created && p.id < next.value.id))
    && (next.None? && end.Some? ==> p.created <= end.value)
    && (inp.transfer.Some? ==>
          && (forall q :: q in inp.posts && q.id == p.id ==> !Asks(inp, q))
          && (p.id in inp.transfer.value.versions ==>
                p.id in inp.versions && inp.versions[p.id] == inp.transfer.value.versions[p.id]))
  }

  lemma OfferedExactly(inp: Inputs, end: Option<int>, next: Option<Post>, required: set<Id>)
    requires Fetched(inp)
    ensures var offered := Eligible(inp, inp.posts, end, next, required);
            && InOrder(offered) && DistinctIds(offered)
            && forall p :: p in offered <==> p in inp.posts && MayShow(inp, p, end, next, required)
  {
    EligibleShape(inp, inp.posts, end, next, required);
    EligibleInOrder(inp, inp.posts, end, next, required);
    forall p: Post ensures IsEligible(inp, p, end, next, required) <==> MayShow(inp, p, end, next, required) {
      assert IsPending(inp, p.id) <==>
        inp.transfer.Some? && exists q :: q in inp.posts && q.id == p.id && Asks(inp, q);
    }
  }

  function Next(triggers: seq<Post>, count: nat): Option<Post> {
    if count < |triggers| then Some(triggers[count]) else None
  }

  function Mandatory(triggers: seq<Post>, count: nat): set<Id>
    requires count <= |triggers|
  {
    set p | p in triggers[..count] :: p.id
  }

  /** Choosing keeps the order of the thread. */
  lemma {:induction false} ChosenInOrder(posts: seq<Post>, ids: set<Id>)
    requires InOrder(posts)
    ensures InOrder(Chosen(posts, ids))
  {
    if posts != [] {
      var front := posts[..|posts| - 1];
      assert posts == front + [posts[|posts| - 1]];
      ChosenInOrder(front, ids);
      ChosenMembers(front, ids);
      forall p | p in front ensures Before(p, posts[|posts| - 1]) {
        var k :| 0 <= k < |front| && front[k] == p;
      }
      forall k | 0 <= k < |Chosen(front, ids)| ensures Before(Chosen(front, ids)[k], posts[|posts| - 1]) {
        assert Chosen(front, ids)[k] in Chosen(front, ids);
      }
    }
  }

  lemma {:induction false} EligibleInOrder(
    inp: Inputs, posts: seq<Post>, end: Option<int>, next: Option<Post>, mandatory: set<Id>)
    requires InOrder(posts) && DistinctIds(posts)
    ensures InOrder(Eligible(inp, posts, end, next, mandatory))
  {
    hide IsEligible;
    if posts != [] {
      var front := posts[..|posts| - 1];
      assert posts == front + [posts[|posts| - 1]];
      EligibleInOrder(inp, front, end, next, mandatory);
      EligibleShape(inp, front, end, next, mandatory);
      forall p | p in front ensures Before(p, posts[|posts| - 1]) {
        var k :| 0 <= k < |front| && front[k] == p;
      }
      var r := Eligible(inp, front, end, next, mandatory);
      forall k | 0 <= k < |r| ensures Before(r[k], posts[|posts| - 1]) {
        assert r[k] in r;
      }
    }
  }

  /** The triggers a batch may take: candidates of the thread within the window, or the stand-in of a transfer. */
  ghost predicate AreTriggers(inp: Inputs, triggers: seq<Post>, end: Option<int>) {
    && InOrder(triggers) && DistinctIds(triggers)
    && (inp.transfer.None? ==>
          forall t :: t in triggers ==> t in inp.posts && IsCandidate(inp, t) && (end.Some? ==> t.created <= end.value))
    && (inp.transfer.Some? ==> |triggers| == 1)
  }

  /** A chosen trigger is eligible. */
  lemma TriggerIsEligible(inp: Inputs, triggers: seq<Post>, end: Option<int>, count: nat, t: Post)
    requires AreTriggers(inp, triggers, end) && inp.transfer.None? && 0 < count <= |triggers| && t in triggers[..count]
    ensures IsEligible(inp, t, end, Next(triggers, count), Mandatory(triggers, count))
  {
    var k :| 0 <= k < count && triggers[k] == t;
    assert t in triggers;
  }

  method CollectEligible(inp: Inputs, end: Option<int>, next: Option<Post>, mandatory: set<Id>)
    returns (eligible: seq<Post>)
    ensures eligible == Eligible(inp, inp.posts, end, next, mandatory)
  {
    hide IsEligible;
    eligible := [];
    for i := 0 to |inp.posts|
      invariant eligible == Eligible(inp, inp.posts[..i], end, next, mandatory)
    {
      assert inp.posts[..i + 1][..i] == inp.posts[..i];
      if IsEligible(inp, inp.posts[i], end, next, mandatory) {
        eligible := eligible + [inp.posts[i]];
      }
    }
    assert inp.posts[..|inp.posts|] == inp.posts;
  }

  /** The posts of the thread that go along, before anything is written. */
  method ChooseContext(inp: Inputs, triggers: seq<Post>, end: Option<int>, count: nat, budget: nat)
    returns (chosen: seq<Post>, omitted: bool)
    requires Fetched(inp) && 0 < count <= |triggers| && AreTriggers(inp, triggers, end)
    ensures InOrder(chosen) && DistinctIds(chosen)
    ensures forall p :: p in chosen ==>
              p in inp.posts && IsEligible(inp, p, end, Next(triggers, count), Mandatory(triggers, count))
    ensures inp.transfer.None? ==> forall t :: t in triggers[..count] ==> t in chosen
    ensures IsSelected(inp, triggers, end, count, budget, chosen)
    ensures omitted <==> chosen != Eligible(inp, inp.posts, end, Next(triggers, count), Mandatory(triggers, count))
  {
    var next, mandatory := Next(triggers, count), Mandatory(triggers, count);
    var eligible := CollectEligible(inp, end, next, mandatory);
    EligibleShape(inp, inp.posts, end, next, mandatory);
    EligibleInOrder(inp, inp.posts, end, next, mandatory);
    ghost var ids;
    chosen, ids := InitialContext(eligible, mandatory, inp.root, inp.cost, budget);
    omitted := |chosen| < |eligible|;
    ChosenAll(eligible, ids);
    ChosenInOrder(eligible, ids);
    ChosenDistinct(eligible, ids);
    ChosenMembers(eligible, ids);
    if inp.transfer.None? {
      forall t | t in triggers[..count] ensures t in chosen {
        TriggerIsEligible(inp, triggers, end, count, t);
        assert t in triggers && t in eligible && t.id in mandatory;
      }
    }
  }

  lemma {:induction false} ChosenAll(posts: seq<Post>, ids: set<Id>)
    ensures |Chosen(posts, ids)| <= |posts|
    ensures |Chosen(posts, ids)| == |posts| ==> Chosen(posts, ids) == posts
  {
    if posts != [] {
      ChosenAll(posts[..|posts| - 1], ids);
      assert posts == posts[..|posts| - 1] + [posts[|posts| - 1]];
    }
  }

  lemma {:induction false} ChosenDistinct(posts: seq<Post>, ids: set<Id>)
    requires DistinctIds(posts)
    ensures DistinctIds(Chosen(posts, ids))
  {
    if posts != [] {
      var front := posts[..|posts| - 1];
      assert posts == front + [posts[|posts| - 1]];
      ChosenDistinct(front, ids);
      ChosenMembers(front, ids);
      var r := Chosen(front, ids);
      forall k | 0 <= k < |r| ensures r[k].id != posts[|posts| - 1].id {
        assert r[k] in r && r[k] in front;
        var j :| 0 <= j < |front| && front[j] == r[k];
      }
    }
  }

  /** The files that the server lists for the post are in the request. */
  ghost predicate FilesIn(inp: Inputs, p: Post, files: seq<Id>) {
    p.files != [] && p.id in inp.attached ==> forall f :: f in inp.attached[p.id] ==> f in files
  }

  lemma FilesInStep(
    inp: Inputs, p: Post, files: seq<Id>, fileSeen: set<Id>, more: seq<Id>, now: set<Id>, posts: seq<Post>)
    requires forall f :: f in fileSeen ==> f in files
    requires forall q :: q in posts ==> FilesIn(inp, q, files)
    requires if p.files == [] || p.id !in inp.attached then more == files && now == fileSeen
             else more == files + Unseen(inp.attached[p.id], fileSeen)
                  && now == fileSeen + set f | f in inp.attached[p.id]
    ensures forall f :: f in now ==> f in more
    ensures forall q :: q in posts + [p] ==> FilesIn(inp, q, more)
  {
    if p.files != [] && p.id in inp.attached {
      UnseenIsNew(inp.attached[p.id], fileSeen);
    }
  }

  lemma FilesInGrows(inp: Inputs, posts: seq<Post>, files: seq<Id>, more: seq<Id>)
    requires files <= more && forall p :: p in posts ==> FilesIn(inp, p, files)
    ensures forall p :: p in posts ==> FilesIn(inp, p, more)
  {
  }

  /** Writing the chosen posts first gives one item each, in order. */
  method WriteThread(inp: Inputs, draft: Draft, chosen: seq<Post>) returns (ok: bool)
    requires draft.Valid(inp) && draft.items == [] && DistinctIds(chosen)
    requires forall p :: p in chosen ==> !IsPending(inp, p.id) && p.id !in draft.seen
    requires Tracked(inp, draft.items, draft.seen) && forall f :: f in draft.fileSeen ==> f in draft.files
    modifies draft
    ensures draft.Valid(inp) && old(draft.files) <= draft.files
    ensures ok ==> draft.items == ThreadItems(chosen) && Tracked(inp, draft.items, draft.seen)
    ensures ok ==> forall p :: p in chosen ==> FilesIn(inp, p, draft.files)
    ensures ok ==> forall p :: p in chosen ==> p.id in draft.versions && draft.versions[p.id] == p.version
    ensures (forall p :: p in chosen ==> FilesHonest(inp, p)) ==> ok
  {
    hide *;
    NothingWritten(inp, chosen, draft.items, draft.seen, draft.files, draft.fileSeen, draft.versions);
    for i := 0 to |chosen|
      invariant draft.Valid(inp) && old(draft.files) <= draft.files
      invariant WrittenTo(inp, chosen, i, draft.items, draft.seen, draft.files, draft.fileSeen, draft.versions)
    {
      assert chosen[i] in chosen;
      ghost var items, seen, files, fileSeen, versions := draft.items, draft.seen, draft.files, draft.fileSeen,
          draft.versions;
      NextUnseen(inp, chosen, i, items, seen, files, fileSeen, versions);
      ok := draft.Write(inp, chosen[i], InThread);
      if !ok {
        return;
      }
      WrittenStep(inp, chosen, i, items, seen, files, fileSeen, versions, draft.items, draft.seen, draft.files,
                  draft.fileSeen, draft.versions);
    }
    AllWritten(inp, chosen, draft.items, draft.seen, draft.files, draft.fileSeen, draft.versions);
    ok := true;
  }

  /** What writing the first i of the posts leaves. */
  ghost predicate WrittenTo(
    inp: Inputs, chosen: seq<Post>, i: nat, items: seq<Item>, seen: set<Id>, files: seq<Id>, fileSeen: set<Id>,
    versions: map<Id, nat>)
    requires i <= |chosen|
  {
    && items == ThreadItems(chosen[..i]) && Tracked(inp, items, seen)
    && (forall f :: f in fileSeen ==> f in files)
    && (forall p :: p in chosen[..i] ==> FilesIn(inp, p, files))
    && (forall p :: p in chosen[..i] ==> p.id in versions && versions[p.id] == p.version)
    && forall j :: i <= j < |chosen| ==> chosen[j].id !in seen
  }

  lemma NothingWritten(
    inp: Inputs, chosen: seq<Post>, items: seq<Item>, seen: set<Id>, files: seq<Id>, fileSeen: set<Id>,
    versions: map<Id, nat>)
    requires items == [] && Tracked(inp, items, seen) && forall f :: f in fileSeen ==> f in files
    requires forall p :: p in chosen ==> p.id !in seen
    ensures WrittenTo(inp, chosen, 0, items, seen, files, fileSeen, versions)
  {
    hide Tracked;
    assert forall j :: 0 <= j < |chosen| ==> chosen[j] in chosen;
  }

  lemma NextUnseen(
    inp: Inputs, chosen: seq<Post>, i: nat, items: seq<Item>, seen: set<Id>, files: seq<Id>, fileSeen: set<Id>,
    versions: map<Id, nat>)
    requires i < |chosen| && WrittenTo(inp, chosen, i, items, seen, files, fileSeen, versions)
    ensures chosen[i].id !in seen
  {
  }

  lemma WrittenStep(
    inp: Inputs, chosen: seq<Post>, i: nat, items: seq<Item>, seen: set<Id>, files: seq<Id>, fileSeen: set<Id>,
    versions: map<Id, nat>, now: seq<Item>, told: set<Id>, more: seq<Id>, listed: set<Id>, recorded: map<Id, nat>)
    requires i < |chosen| && WrittenTo(inp, chosen, i, items, seen, files, fileSeen, versions) && DistinctIds(chosen)
    requires var p := chosen[i];
             && !IsPending(inp, p.id) && now == items + [PostItem(p.id, InThread)] && told == seen + {p.id}
             && recorded == versions[p.id := p.version]
             && if p.files == [] || p.id !in inp.attached then more == files && listed == fileSeen
                else more == files + Unseen(inp.attached[p.id], fileSeen)
                     && listed == fileSeen + set f | f in inp.attached[p.id]
    ensures WrittenTo(inp, chosen, i + 1, now, told, more, listed, recorded)
  {
    var p := chosen[i];
    hide IsPending, IsFrozen, Tracked, FilesIn, Unseen;
    FilesInStep(inp, p, files, fileSeen, more, listed, chosen[..i]);
    assert chosen[..i + 1] == chosen[..i] + [p] && chosen[..i + 1][..i] == chosen[..i];
    Written(inp, items, seen, now, told, p.id, InThread);
  }

  lemma AllWritten(
    inp: Inputs, chosen: seq<Post>, items: seq<Item>, seen: set<Id>, files: seq<Id>, fileSeen: set<Id>,
    versions: map<Id, nat>)
    requires WrittenTo(inp, chosen, |chosen|, items, seen, files, fileSeen, versions)
    ensures items == ThreadItems(chosen) && Tracked(inp, items, seen)
    ensures forall p :: p in chosen ==> FilesIn(inp, p, files) && p.id in versions && versions[p.id] == p.version
  {
    hide Tracked, FilesIn;
    assert chosen[..|chosen|] == chosen;
  }

  /** Moving the thread behind the optional context, and the saved text behind both, repeats nothing. */
  lemma ReorderedOnce(items: seq<Item>, n: nat, saved: seq<Item>)
    requires n <= |items| && PostsOnce(items) && forall i :: 0 <= i < |saved| ==> saved[i].Saved?
    ensures PostsOnce(items[n..] + items[..n] + saved)
  {
    var m := |items| - n;
    var r := items[n..] + items[..n] + saved;
    forall i | 0 <= i < |items| ensures r[i] == items[if i < m then n + i else i - m] {
    }
    forall i, j | 0 <= i < j < |r| && r[i].PostItem? && r[j].PostItem? ensures r[i].post != r[j].post {
      assert j < |items| && i < |items|;
    }
  }

  /** One attempt with a number of triggers and a budget. */
  method Attempt(inp: Inputs, triggers: seq<Post>, end: Option<int>, count: nat, budget: nat)
    returns (ok: bool, batch: Batch, ghost front: seq<Item>, ghost chosen: seq<Post>)
    requires Fetched(inp) && 0 < count <= |triggers| && AreTriggers(inp, triggers, end)
    requires inp.transfer.Some? ==> FilesOnce(inp.transfer.value.files)
    ensures ok ==> IsInput(inp, triggers, end, count, batch, front, chosen)
    ensures ok ==> IsFront(inp, triggers, end, count, budget, chosen, front)
    ensures ok ==> forall p :: p in chosen ==> FilesIn(inp, p, batch.files)
    ensures IsSelected(inp, triggers, end, count, budget, chosen)
    ensures ServerHonest(inp) ==> ok
  {
    hide *;
    batch, front := Batch([], [], [], {}, [], map[]), [];
    var context, omitted := ChooseContext(inp, triggers, end, count, budget);
    chosen := context;
    var draft := new Draft(inp, Mandatory(triggers, count));
    ContextIsUnseen(inp, triggers, end, count, context);
    NothingIsTracked(inp, draft.items, draft.seen);
    var threadCount;
    ok, threadCount := Fill(inp, draft, context, omitted, budget);
    if !ok {
      return;
    }
    front := draft.items[threadCount..];
    assert draft.items == ThreadItems(chosen) + front;
    FrontIs(inp, triggers, end, count, budget, chosen, omitted, front);
    batch := Batch(if inp.transfer.Some? then inp.transfer.value.triggers else IdsOf(triggers[..count]),
                   draft.items[threadCount..] + draft.items[..threadCount] + SavedOf(inp), draft.files, draft.limited,
                   draft.context, draft.versions);
    DraftParts(inp, draft);
    DraftMeans(inp, draft.items, draft.mandatory, draft.context, draft.versions, draft.seen, draft.total, draft.files,
        draft.fileSeen);
    Assembles(inp, triggers, end, count, batch, draft.items, threadCount, chosen);
  }

  /** What comes before the thread's posts. */
  ghost predicate IsFront(
    inp: Inputs, triggers: seq<Post>, end: Option<int>, count: nat, budget: nat, chosen: seq<Post>, front: seq<Item>)
    requires count <= |triggers|
  {
    var offered := Eligible(inp, inp.posts, end, Next(triggers, count), Mandatory(triggers, count));
    IsDraft(inp, chosen, chosen != offered, budget, ThreadItems(chosen) + front)
  }

  lemma FrontIs(
    inp: Inputs, triggers: seq<Post>, end: Option<int>, count: nat, budget: nat, chosen: seq<Post>, omitted: bool,
    front: seq<Item>)
    requires count <= |triggers| && IsDraft(inp, chosen, omitted, budget, ThreadItems(chosen) + front)
    requires omitted <==> chosen != Eligible(inp, inp.posts, end, Next(triggers, count), Mandatory(triggers, count))
    ensures IsFront(inp, triggers, end, count, budget, chosen, front)
  {
    hide IsDraft;
  }

  lemma NothingIsTracked(inp: Inputs, items: seq<Item>, seen: set<Id>)
    requires forall id :: id in seen ==> IsFrozen(inp, id)
    ensures Tracked(inp, items, seen)
  {
  }

  /** The batch made of a draft is an input. */
  lemma Assembles(
    inp: Inputs, triggers: seq<Post>, end: Option<int>, count: nat, batch: Batch, items: seq<Item>, n: nat,
        chosen: seq<Post>)
    requires 0 < count <= |triggers| && n <= |items| && items[..n] == ThreadItems(chosen)
    requires batch.items == items[n..] + items[..n] + SavedOf(inp)
    requires PostsOnce(items) && FilesOnce(batch.files) && InOrder(chosen)
    requires forall i :: 0 <= i < |items| && items[i].PostItem? ==>
              !IsPending(inp, items[i].post) && !IsFrozen(inp, items[i].post)
    requires batch.context == FrozenContext(inp) + ContextOf(items, Mandatory(triggers, count))
    requires batch.versions.Keys == FrozenVersions(inp).Keys + ShownPosts(items)
    requires forall p :: p in chosen ==>
               && p in inp.posts && IsEligible(inp, p, end, Next(triggers, count), Mandatory(triggers, count))
               && p.id in batch.versions && batch.versions[p.id] == p.version
    requires inp.transfer.Some? ==>
              batch.triggers == inp.transfer.value.triggers && inp.transfer.value.files <= batch.files
    requires inp.transfer.None? ==>
               batch.triggers == IdsOf(triggers[..count]) && forall p :: p in triggers[..count] ==> p in chosen
    ensures IsInput(inp, triggers, end, count, batch, items[n..], chosen)
  {
    hide IsEligible, IsPending, IsFrozen, PostsOnce, FilesOnce, InOrder, ContextOf, ShownPosts, FrozenContext,
        FrozenVersions, IdsOf;
    ReorderedRecords(items, n, inp);
    ReorderedOnce(items, n, SavedOf(inp));
    ReorderedAllowed(inp, items, n, SavedOf(inp));
  }

  lemma DraftMeans(
    inp: Inputs, items: seq<Item>, mandatory: set<Id>, context: seq<Id>, versions: map<Id, nat>, seen: set<Id>,
        total: nat,
    files: seq<Id>, fileSeen: set<Id>)
    requires ItemsValid(inp, items, seen) && FilesValid(files, fileSeen)
    requires RecordsValid(inp, items, mandatory, context, versions, seen, total)
    ensures PostsOnce(items) && FilesOnce(files)
    ensures forall i :: 0 <= i < |items| && items[i].PostItem? ==>
              !IsPending(inp, items[i].post) && !IsFrozen(inp, items[i].post)
    ensures context == FrozenContext(inp) + ContextOf(items, mandatory)
    ensures versions.Keys == FrozenVersions(inp).Keys + ShownPosts(items)
  {
  }

  lemma ContextIsUnseen(inp: Inputs, triggers: seq<Post>, end: Option<int>, count: nat, context: seq<Post>)
    requires count <= |triggers|
    requires forall p :: p in context ==> IsEligible(inp, p, end, Next(triggers, count), Mandatory(triggers, count))
    ensures forall p :: p in context ==> !IsPending(inp, p.id) && !IsFrozen(inp, p.id)
  {
  }

  /** The thread posts first, then the optional context, which the batch shows before them. */
  method Fill(inp: Inputs, draft: Draft, context: seq<Post>, omitted: bool, budget: nat)
    returns (ok: bool, threadCount: nat)
    requires draft.Valid(inp) && draft.items == [] && Fetched(inp) && DistinctIds(context)
    requires forall p :: p in context ==> !IsPending(inp, p.id) && p.id !in draft.seen
    requires forall p :: p in context ==> p in inp.posts
    requires Tracked(inp, draft.items, draft.seen) && forall f :: f in draft.fileSeen ==> f in draft.files
    modifies draft
    ensures draft.Valid(inp) && old(draft.files) <= draft.files
    ensures ok ==> forall p :: p in context ==> FilesIn(inp, p, draft.files)
    ensures ok ==> threadCount <= |draft.items| && draft.items[..threadCount] == ThreadItems(context)
    ensures ok ==> IsDraft(inp, context, omitted, budget, draft.items)
    ensures ok ==> forall p :: p in context ==> p.id in draft.versions && draft.versions[p.id] == p.version
    ensures ServerHonest(inp) ==> ok
  {
    hide IsPending, IsFrozen, ItemsValid, RecordsValid, FilesValid, Tracked, Told, LinkSteps, AreLinks, ShownPosts,
      FilesIn;
    ok := WriteThread(inp, draft, context);
    threadCount := |draft.items|;
    if !ok {
      return;
    }
    ghost var items, seen, files := draft.items, draft.seen, draft.files;
    if omitted {
      draft.Append(inp, Notice);
      TrackedGrows(inp, items, seen, [Notice], 0);
    }
    ghost var start := draft.items;
    assert start == ThreadItems(context) + if omitted then [Notice] else [];
    if inp.linksEnabled {
      ghost var ids;
      ok, ids := WriteLinks(inp, draft, context, budget);
      if ok {
        LinksExtend(inp, budget, if |ids| < inp.maxLinks then ids else ids[..inp.maxLinks], start, draft.items);
        FilesInGrows(inp, context, files, draft.files);
      }
    }
  }

  /** What an attempt writes before it is put in order: the thread's posts, a notice when some are left out, and what
      the links bring if they are followed. */
  ghost predicate IsDraft(inp: Inputs, chosen: seq<Post>, omitted: bool, budget: nat, items: seq<Item>) {
    var start := ThreadItems(chosen) + if omitted then [Notice] else [];
    if inp.linksEnabled then
      exists ids ::
        && AreLinks(inp, chosen, ids)
        && LinkSteps(inp, budget, if |ids| < inp.maxLinks then ids else ids[..inp.maxLinks], start, items)
    else items == start
  }

  lemma {:induction false} LinksExtend(inp: Inputs, budget: nat, ids: seq<Id>, start: seq<Item>, items: seq<Item>)
    requires LinkSteps(inp, budget, ids, start, items)
    ensures start <= items
  {
    hide LinkStep;
    if ids != [] {
      var mid :| LinkSteps(inp, budget, ids[..|ids| - 1], start, mid) && mid <= items &&
          LinkStep(inp, budget, ids[|ids| - 1], mid, items[|mid|..]);
      LinksExtend(inp, budget, ids[..|ids| - 1], start, mid);
    }
  }

  /** Reordering shows the same posts. */
  lemma ReorderedRecords(items: seq<Item>, n: nat, inp: Inputs)
    requires n <= |items|
    ensures items == items[..n] + items[n..]
    ensures ShownPosts(items[n..] + items[..n] + SavedOf(inp)) == ShownPosts(items)
  {
    ShownAppend(items[n..], items[..n]);
    ShownAppend(items[..n], items[n..]);
    ShownAppend(items[n..] + items[..n], SavedOf(inp));
    assert items == items[..n] + items[n..];
  }

  lemma ShownAppend(a: seq<Item>, b: seq<Item>)
    ensures ShownPosts(a + b) == ShownPosts(a) + ShownPosts(b)
  {
    forall id | id in ShownPosts(a) + ShownPosts(b) ensures id in ShownPosts(a + b) {
      if id in ShownPosts(a) {
        var i :| 0 <= i < |a| && a[i].PostItem? && a[i].post == id;
        assert (a + b)[i] == a[i];
      } else {
        var i :| 0 <= i < |b| && b[i].PostItem? && b[i].post == id;
        assert (a + b)[|a| + i] == b[i];
      }
    }
  }

  lemma ReorderedAllowed(inp: Inputs, items: seq<Item>, n: nat, saved: seq<Item>)
    requires n <= |items| && forall i :: 0 <= i < |saved| ==> saved[i].Saved?
    requires forall i :: 0 <= i < |items| && items[i].PostItem? ==>
              !IsPending(inp, items[i].post) && !IsFrozen(inp, items[i].post)
    ensures forall i :: 0 <= i < |items[n..] + items[..n] + saved| && (items[n..] + items[..n] + saved)[i].PostItem? ==>
              !IsPending(inp, (items[n..] + items[..n] + saved)[i].post) &&
                  !IsFrozen(inp, (items[n..] + items[..n] + saved)[i].post)
  {
    hide IsPending, IsFrozen;
    var m := |items| - n;
    var r := items[n..] + items[..n] + saved;
    forall i | 0 <= i < |items| ensures r[i] == items[if i < m then n + i else i - m] {
    }
  }

  // --- the whole search ---

  datatype Result = Nothing | Failed | Built(batch: Batch, tooLarge: bool)

  /** The stand-in that opens the window of a transfer. */
  function StandIn(inp: Inputs, t: Transfer): Post {
    Post(t.anchor, 0, 0, inp.now, 0, false, false, [], 0)
  }

  function TriggersFor(inp: Inputs): seq<Post> {
    match inp.transfer
    case Some(t) => [StandIn(inp, t)]
    case None => Window(inp)
  }

  function EndFor(inp: Inputs): Option<int> {
    var candidates := Candidates(inp, inp.posts);
    if inp.transfer.Some? || candidates == [] then None else Some(candidates[0].created + inp.window)
  }

  lemma TriggersAreTriggers(inp: Inputs)
    requires Fetched(inp)
    ensures AreTriggers(inp, TriggersFor(inp), EndFor(inp))
    ensures inp.transfer.None? ==> (TriggersFor(inp) == [] <==> Candidates(inp, inp.posts) == [])
  {
    CandidatesShape(inp, inp.posts);
    var candidates := Candidates(inp, inp.posts);
    if inp.transfer.None? && candidates != [] {
      UpToShape(candidates, candidates[0].created + inp.window);
      assert candidates[0] in candidates;
      assert candidates[0] in TriggersFor(inp);
    }
  }

  method CollectCandidates(inp: Inputs) returns (candidates: seq<Post>)
    ensures candidates == Candidates(inp, inp.posts)
  {
    candidates := [];
    for i := 0 to |inp.posts|
      invariant candidates == Candidates(inp, inp.posts[..i])
    {
      assert inp.posts[..i + 1][..i] == inp.posts[..i];
      if IsCandidate(inp, inp.posts[i]) {
        candidates := candidates + [inp.posts[i]];
      }
    }
    assert inp.posts[..|inp.posts|] == inp.posts;
  }

  method CollectWindow(posts: seq<Post>, end: int) returns (triggers: seq<Post>)
    ensures triggers == UpTo(posts, end)
  {
    triggers := [];
    for i := 0 to |posts|
      invariant triggers == UpTo(posts[..i], end)
    {
      assert posts[..i + 1][..i] == posts[..i];
      if posts[i].created <= end {
        triggers := triggers + [posts[i]];
      }
    }
    assert posts[..|posts|] == posts;
  }

  // One attempt of the search and what it gave.
  datatype Try = Try(count: nat, budget: nat, batch: Batch, front: seq<Item>, chosen: seq<Post>)

  ghost predicate IsTry(inp: Inputs, t: Try) {
    && 0 < t.count <= |TriggersFor(inp)|
    && IsInput(inp, TriggersFor(inp), EndFor(inp), t.count, t.batch, t.front, t.chosen)
    && IsSelected(inp, TriggersFor(inp), EndFor(inp), t.count, t.budget, t.chosen)
    && IsFront(inp, TriggersFor(inp), EndFor(inp), t.count, t.budget, t.chosen, t.front)
    && forall p :: p in t.chosen ==> FilesIn(inp, p, t.batch.files)
  }

  ghost predicate Follows(inp: Inputs, t: Try, next: Try) {
    if t.budget > 0 then next.count == t.count && next.budget == t.budget / 2
    else next.count == t.count - 1 && next.budget == inp.budget
  }

  /** The search begins with all triggers and the whole budget, halves the budget down to nothing before it gives up a
      trigger, and goes on only from an input that does not fit. */
  ghost predicate Descends(inp: Inputs, tried: seq<Try>) {
    && (forall i :: 0 <= i < |tried| ==> IsTry(inp, tried[i]))
    && (tried != [] ==> tried[0].count == |TriggersFor(inp)| && tried[0].budget == inp.budget)
    && (forall i :: 0 <= i < |tried| - 1 ==>
          Follows(inp, tried[i], tried[i + 1]) && !inp.fits(tried[i].batch.items, tried[i].batch.files))
  }

  /** The next attempt continues the search. */
  ghost predicate Continues(inp: Inputs, tried: seq<Try>, count: nat, budget: nat) {
    if tried == [] then
      count == |TriggersFor(inp)| && budget == inp.budget
    else
      var last := tried[|tried| - 1];
      && !inp.fits(last.batch.items, last.batch.files)
      && Follows(inp, last, Try(count, budget, last.batch, [], []))
  }

  lemma DescendsStep(inp: Inputs, tried: seq<Try>, t: Try)
    requires Descends(inp, tried) && IsTry(inp, t) && Continues(inp, tried, t.count, t.budget)
    ensures Descends(inp, tried + [t])
  {
    hide IsTry;
    forall i | 0 <= i < |tried| ensures (tried + [t])[i] == tried[i] {
    }
  }

  /** buildMessages: the first attempt of the search that fits; the last one, a single trigger without budget, is
      returned even when it does not fit. */
  method BuildMessages(inp: Inputs) returns (result: Result, ghost tried: seq<Try>)
    requires Fetched(inp) && (inp.transfer.Some? ==> FilesOnce(inp.transfer.value.files))
    ensures result.Nothing? <==> inp.transfer.None? && (NobodyAsks(inp) || StillOpen(inp))
    ensures result.Built? ==> IsFor(inp, result.batch.triggers)
    ensures Descends(inp, tried)
    ensures result.Built? ==>
              && tried != [] && tried[|tried| - 1].batch == result.batch
              && (result.tooLarge <==> !inp.fits(result.batch.items, result.batch.files))
              && (result.tooLarge ==> tried[|tried| - 1].count == 1 && tried[|tried| - 1].budget == 0)
    ensures ServerHonest(inp) ==> !result.Failed?
  {
    hide *;
    tried := [];
    NothingTried(inp);
    TriggersAreTriggers(inp);
    var ready, triggers, end := CollectTriggers(inp);
    if !ready {
      result := Nothing;
      return;
    }
    result, tried := Search(inp, triggers, end);
    if result.Built? {
      BuiltIsFor(inp, tried, result.batch);
    }
  }

  /** Its beginning: what the batch is for, unless nothing asks or the window has not closed. */
  method CollectTriggers(inp: Inputs) returns (ready: bool, triggers: seq<Post>, end: Option<int>)
    requires Fetched(inp)
    ensures ready <==> inp.transfer.Some? || !(NobodyAsks(inp) || StillOpen(inp))
    ensures ready ==> triggers == TriggersFor(inp) && end == EndFor(inp) && triggers != []
  {
    hide *;
    NothingExactly(inp);
    TriggersAre(inp);
    if inp.transfer.Some? {
      triggers, end := [StandIn(inp, inp.transfer.value)], None;
    } else {
      var candidates := CollectCandidates(inp);
      if candidates == [] {
        return false, [], None;
      }
      var last := candidates[0].created + inp.window;
      if inp.window > 0 && inp.now < last {
        return false, [], None;
      }
      triggers := CollectWindow(candidates, last);
      end := Some(last);
    }
    ready := true;
  }

  /** Its two loops. */
  method Search(inp: Inputs, triggers: seq<Post>, end: Option<int>) returns (result: Result, ghost tried: seq<Try>)
    requires Fetched(inp) && (inp.transfer.Some? ==> FilesOnce(inp.transfer.value.files))
    requires triggers == TriggersFor(inp) != [] && end == EndFor(inp) && AreTriggers(inp, triggers, end)
    ensures !result.Nothing? && Descends(inp, tried)
    ensures result.Built? ==>
              && tried != [] && tried[|tried| - 1].batch == result.batch
              && (result.tooLarge <==> !inp.fits(result.batch.items, result.batch.files))
              && (result.tooLarge ==> tried[|tried| - 1].count == 1 && tried[|tried| - 1].budget == 0)
    ensures ServerHonest(inp) ==> !result.Failed?
  {
    tried := [];
    NothingTried(inp);
    hide IsInput, IsSelected, AreTriggers, Fetched, ServerHonest, Descends, TriggersFor, EndFor, FilesOnce;
    var n := |triggers|;
    while n > 0
      invariant 0 < n <= |triggers|
      invariant Descends(inp, tried) && Continues(inp, tried, n, inp.budget)
    {
      var budget, more := inp.budget, true;
      while more
        invariant more || n > 1
        invariant Descends(inp, tried)
        invariant if more then Continues(inp, tried, n, budget) else Continues(inp, tried, n - 1, inp.budget)
        decreases budget, more
      {
        var ok, batch;
        ghost var front, chosen;
        ok, batch, front, chosen := Attempt(inp, triggers, end, n, budget);
        if !ok {
          result := Failed;
          return;
        }
        DescendsStep(inp, tried, Try(n, budget, batch, front, chosen));
        tried := tried + [Try(n, budget, batch, front, chosen)];
        if inp.fits(batch.items, batch.files) {
          result := Built(batch, false);
          return;
        }
        if budget > 0 {
          budget := budget / 2;
        } else if n == 1 {
          result := Built(batch, true);
          return;
        } else {
          more := false;
        }
      }
      n := n - 1;
    }
    assert false;
  }

  lemma TriggersAre(inp: Inputs)
    requires Fetched(inp)
    ensures var candidates := Candidates(inp, inp.posts);
            && (inp.transfer.Some? ==> TriggersFor(inp) == [StandIn(inp, inp.transfer.value)] && EndFor(inp) == None)
            && (inp.transfer.None? && candidates != [] ==>
                  && TriggersFor(inp) == UpTo(candidates, candidates[0].created + inp.window) != []
                  && EndFor(inp) == Some(candidates[0].created + inp.window))
  {
    TriggersAreTriggers(inp);
  }

  lemma NothingExactly(inp: Inputs)
    requires Fetched(inp)
    ensures var candidates := Candidates(inp, inp.posts);
            && (candidates == [] <==> NobodyAsks(inp))
            && (candidates != [] ==>
                  (inp.window > 0 && inp.now < candidates[0].created + inp.window <==> StillOpen(inp)))
  {
    WindowOpens(inp);
    WindowIsOpen(inp);
    hide Candidates, Asks, FirstAsks;
    var candidates := Candidates(inp, inp.posts);
    if candidates != [] {
      var k :| FirstAsks(inp, k);
    }
  }

  lemma BuiltIsFor(inp: Inputs, tried: seq<Try>, batch: Batch)
    requires Fetched(inp) && Descends(inp, tried) && tried != [] && tried[|tried| - 1].batch == batch
    ensures IsFor(inp, batch.triggers)
  {
    assert IsTry(inp, tried[|tried| - 1]);
    hide Fetched, Descends, IsTry, IsFor;
    TryTriggers(inp, tried[|tried| - 1]);
  }

  /** What an attempt submits for. */
  lemma TryTriggers(inp: Inputs, t: Try)
    requires Fetched(inp) && IsTry(inp, t)
    ensures IsFor(inp, t.batch.triggers)
  {
    hide Fetched, AreFirstAsks, Window;
    if inp.transfer.None? {
      var at := WindowAsks(inp, t.count);
    }
  }

  /** What an attempt chooses from: all that may be shown, up to the next trigger if one is left for a later batch, else
      up to the end of the window, which a transfer does not have. */
  lemma TryOffers(inp: Inputs, t: Try) returns (offered: seq<Post>, end: Option<int>, next: Option<Post>)
    requires Fetched(inp) && IsTry(inp, t)
    ensures var required := RequiredFor(inp, t);
            && InOrder(offered) && DistinctIds(offered)
            && (forall p :: p in offered <==> p in inp.posts && MayShow(inp, p, end, next, required))
            && Indices(offered, Order(offered, required, inp.root))
            && t.chosen == Chosen(offered, Greedy(offered, Order(offered, required, inp.root), required, inp.cost,
                                                  t.budget))
    ensures inp.transfer.Some? ==> end == None && next == None
    ensures inp.transfer.None? ==> forall k :: FirstAsks(inp, k) ==> end == Some(inp.posts[k].created + inp.window)
    ensures inp.transfer.None? && next.Some? ==>
              next.value in inp.posts && Asks(inp, next.value) && next.value.id !in t.batch.triggers
  {
    end, next := EndFor(inp), Next(TriggersFor(inp), t.count);
    EndExactly(inp);
    RequiredAre(inp, t);
    TryMeans(inp, t);
    hide *;
    NextExactly(inp, t);
    offered := SelectedFrom(inp, TriggersFor(inp), end, t.count, t.budget, t.chosen);
  }

  lemma SelectedFrom(
    inp: Inputs, triggers: seq<Post>, end: Option<int>, count: nat, budget: nat, chosen: seq<Post>)
    returns (offered: seq<Post>)
    requires Fetched(inp) && count <= |triggers| && IsSelected(inp, triggers, end, count, budget, chosen)
    ensures var required, next := Mandatory(triggers, count), Next(triggers, count);
            && InOrder(offered) && DistinctIds(offered)
            && (forall p :: p in offered <==> p in inp.posts && MayShow(inp, p, end, next, required))
            && Indices(offered, Order(offered, required, inp.root))
            && chosen == Chosen(offered, Greedy(offered, Order(offered, required, inp.root), required, inp.cost,
                                                budget))
  {
    var required, next := Mandatory(triggers, count), Next(triggers, count);
    offered := Eligible(inp, inp.posts, end, next, required);
    OfferedExactly(inp, end, next, required);
  }

  lemma NextExactly(inp: Inputs, t: Try)
    requires Fetched(inp) && IsTry(inp, t)
    ensures 0 < t.count <= |TriggersFor(inp)|
    ensures var next := Next(TriggersFor(inp), t.count);
            && (inp.transfer.Some? ==> next == None)
            && (inp.transfer.None? && next.Some? ==>
                  next.value in inp.posts && Asks(inp, next.value) && next.value.id !in t.batch.triggers)
  {
    TryMeans(inp, t);
    if inp.transfer.None? && t.count < |TriggersFor(inp)| {
      NextAsks(inp, t);
    }
  }

  /** A transfer sets no limit of time, a window the one that its first asking post opens. */
  lemma EndExactly(inp: Inputs)
    requires Fetched(inp)
    ensures inp.transfer.Some? ==> EndFor(inp) == None
    ensures inp.transfer.None? ==>
              forall k :: FirstAsks(inp, k) ==> EndFor(inp) == Some(inp.posts[k].created + inp.window)
  {
    WindowOpens(inp);
    hide Candidates, Asks, FirstAsks, Fetched;
  }

  /** The posts that an attempt must show: its triggers, or the anchor of the transfer. */
  ghost function RequiredFor(inp: Inputs, t: Try): set<Id> {
    match inp.transfer
    case Some(transfer) => {transfer.anchor}
    case None => set id | id in t.batch.triggers
  }

  lemma TryMeans(inp: Inputs, t: Try)
    requires IsTry(inp, t)
    ensures 0 < t.count <= |TriggersFor(inp)|
    ensures inp.transfer.None? ==> t.batch.triggers == IdsOf(TriggersFor(inp)[..t.count])
    ensures inp.transfer.Some? ==> TriggersFor(inp) == [StandIn(inp, inp.transfer.value)]
    ensures IsSelected(inp, TriggersFor(inp), EndFor(inp), t.count, t.budget, t.chosen)
  {
    hide IsSelected, PostsOnce, FilesOnce, IsPending, IsFrozen, IsEligible, InOrder, FrozenContext, ContextOf,
      FrozenVersions, ShownPosts, SavedOf, ThreadItems, Window, EndFor, IdsOf;
  }

  lemma RequiredAre(inp: Inputs, t: Try)
    requires IsTry(inp, t)
    ensures 0 < t.count <= |TriggersFor(inp)| && RequiredFor(inp, t) == Mandatory(TriggersFor(inp), t.count)
  {
    TryMeans(inp, t);
    hide IsTry, Window, IdsOf;
    var triggers := TriggersFor(inp);
    SameIds(triggers[..t.count]);
    if inp.transfer.Some? {
      assert triggers[..t.count] == triggers;
    }
  }

  lemma SameIds(posts: seq<Post>)
    ensures (set id | id in IdsOf(posts)) == set p | p in posts :: p.id
  {
    IdsAt(posts);
    var ids := IdsOf(posts);
    forall id ensures id in ids <==> exists p :: p in posts && p.id == id {
      if id in ids {
        var i :| 0 <= i < |ids| && ids[i] == id;
        assert posts[i] in posts;
      }
      if p :| p in posts && p.id == id {
        var i :| 0 <= i < |posts| && posts[i] == p;
        assert ids[i] in ids;
      }
    }
  }

  /** The next trigger is one, and in no batch before it. */
  lemma NextAsks(inp: Inputs, t: Try)
    requires Fetched(inp) && IsTry(inp, t) && inp.transfer.None? && t.count < |TriggersFor(inp)|
    ensures var next := TriggersFor(inp)[t.count];
            next in inp.posts && Asks(inp, next) && next.id !in t.batch.triggers
  {
    hide *;
    var triggers := TriggersFor(inp);
    TriggersAreTriggers(inp);
    TryMeans(inp, t);
    TriggerAsks(inp, triggers, EndFor(inp), t.count);
    NotBefore(triggers, t.count);
  }

  lemma TriggerAsks(inp: Inputs, triggers: seq<Post>, end: Option<int>, i: nat)
    requires AreTriggers(inp, triggers, end) && inp.transfer.None? && i < |triggers|
    ensures DistinctIds(triggers) && triggers[i] in inp.posts && Asks(inp, triggers[i])
  {
    hide InOrder, DistinctIds;
    assert triggers[i] in triggers;
  }

  lemma NotBefore(posts: seq<Post>, n: nat)
    requires DistinctIds(posts) && n < |posts|
    ensures posts[n].id !in IdsOf(posts[..n])
  {
    IdsAt(posts[..n]);
  }

  /** Something asks exactly when some post is the first to. */
  lemma WindowIsOpen(inp: Inputs)
    ensures (exists p :: p in inp.posts && Asks(inp, p)) <==> exists k :: FirstAsks(inp, k)
  {
    hide Asks;
    if p :| p in inp.posts && Asks(inp, p) {
      var k :| 0 <= k < |inp.posts| && inp.posts[k] == p;
      FirstExists(inp, k);
    }
  }

  lemma {:induction false} FirstExists(inp: Inputs, k: nat)
    requires k < |inp.posts| && Asks(inp, inp.posts[k])
    ensures exists f :: FirstAsks(inp, f)
    decreases k
  {
    hide Asks;
    if j :| 0 <= j < k && Asks(inp, inp.posts[j]) {
      FirstExists(inp, j);
    } else {
      assert FirstAsks(inp, k);
    }
  }

  lemma NothingTried(inp: Inputs)
    ensures Descends(inp, [])
  {
  }

  // --- what that means ---

  /** The batch is the beginning of the window: its triggers in order, each shown with its text, and no trigger left for
      later among the thread posts shown. */
  lemma PrefixOfWindow(inp: Inputs, count: nat, batch: Batch, front: seq<Item>, chosen: seq<Post>)
    requires Fetched(inp) && inp.transfer.None? && 0 < count <= |Window(inp)|
    requires IsInput(inp, TriggersFor(inp), EndFor(inp), count, batch, front, chosen)
    ensures batch.triggers == IdsOf(Window(inp)[..count])
    ensures forall i :: 0 <= i < count ==> PostItem(Window(inp)[i].id, InThread) in batch.items
    ensures forall i :: count <= i < |Window(inp)| ==> Window(inp)[i] !in chosen
  {
    hide ContextOf, ShownPosts, FrozenContext, FrozenVersions, PostsOnce, FilesOnce, IsPending, IsFrozen;
    TriggersAreTriggers(inp);
    var window := Window(inp);
    forall i | 0 <= i < count ensures PostItem(window[i].id, InThread) in batch.items {
      assert window[..count][i] == window[i] && window[i] in window[..count];
      var k :| 0 <= k < |chosen| && chosen[k] == window[i];
      assert batch.items[|front| + k] == ThreadItems(chosen)[k];
    }
    forall i | count <= i < |window| ensures window[i] !in chosen {
      assert i == count || Before(window[count], window[i]);
    }
  }

  /** A transfer ends with exactly its saved text, keeps its triggers and files, and shows no post that waits as a
      trigger or that the saved text already holds. */
  lemma TransferKept(inp: Inputs, t: Transfer, batch: Batch, front: seq<Item>, chosen: seq<Post>)
    requires inp.transfer == Some(t)
    requires IsInput(inp, TriggersFor(inp), EndFor(inp), 1, batch, front, chosen)
    ensures |batch.items| >= |t.texts| && batch.items[|batch.items| - |t.texts|..] == SavedItems(t.texts)
    ensures batch.triggers == t.triggers && t.files <= batch.files
    ensures forall p :: p in inp.posts && Asks(inp, p) ==>
              forall i :: 0 <= i < |batch.items| && batch.items[i].PostItem? ==> batch.items[i].post != p.id
  {
  }
}
