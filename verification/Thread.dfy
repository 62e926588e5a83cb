/** Reading a whole thread page by page (Client.Thread and Sort, internal/mattermost/client.go:215-222 and 272-334). */
module Thread {
  import opened Collections

  type Id = nat // 0 is the empty string of the source

  // `version` stands for the edit time and content digest of the post.
  datatype Post = Post(
    id: Id, root: Id, channel: Id, created: int, user: Id, deleted: bool, system: bool, files: seq<Id>, version: nat)

  // One answer of the thread request: the posts in any order, the length of the listed order, and the flag if given.
  datatype Page = Page(posts: seq<Post>, order: nat, hasNext: Option<bool>)

  function RootOf(p: Post): Id {
    if p.root == 0 then p.id else p.root
  }

  // --- order ---

  predicate Before(a: Post, b: Post) {
    a.created < b.created || (a.created == b.created && a.id <= b.id)
  }

  ghost predicate InOrder(posts: seq<Post>) {
    forall i, j :: 0 <= i < j < |posts| ==> Before(posts[i], posts[j])
  }

  /** Oldest first, and by identity among those of one instant. */
  ghost predicate OldestFirst(posts: seq<Post>) {
    forall i, j :: 0 <= i < j < |posts| ==>
      posts[i].created <= posts[j].created && (posts[i].created == posts[j].created ==> posts[i].id <= posts[j].id)
  }

  lemma InOrderExactly(posts: seq<Post>)
    ensures InOrder(posts) <==> OldestFirst(posts)
  {
    assert InOrder(posts) ==> forall i, j :: 0 <= i < j < |posts| ==> Before(posts[i], posts[j]);
  }

  ghost predicate DistinctIds(posts: seq<Post>) {
    forall i, j :: 0 <= i < j < |posts| ==> posts[i].id != posts[j].id
  }

  ghost predicate Has(posts: seq<Post>, id: Id) {
    exists p :: p in posts && p.id == id
  }

  function Inserted(posts: seq<Post>, p: Post): seq<Post> {
    if posts == [] || Before(posts[|posts| - 1], p) then posts + [p]
    else Inserted(posts[..|posts| - 1], p) + [posts[|posts| - 1]]
  }

  function Sort(posts: seq<Post>): seq<Post> {
    if posts == [] then [] else Inserted(Sort(posts[..|posts| - 1]), posts[|posts| - 1])
  }

  lemma {:induction false} InsertedSorts(posts: seq<Post>, p: Post)
    requires InOrder(posts)
    ensures InOrder(Inserted(posts, p)) && multiset(Inserted(posts, p)) == multiset(posts) + multiset{p}
  {
    if posts != [] && !Before(posts[|posts| - 1], p) {
      var front, last := posts[..|posts| - 1], posts[|posts| - 1];
      assert posts == front + [last];
      InsertedSorts(front, p);
      var r := Inserted(front, p);
      forall k | 0 <= k < |r| ensures Before(r[k], last) {
        assert r[k] in multiset(r);
        assert r[k] in front || r[k] == p;
      }
    }
  }

  lemma {:induction false} SortSorts(posts: seq<Post>)
    ensures InOrder(Sort(posts)) && multiset(Sort(posts)) == multiset(posts)
  {
    if posts != [] {
      SortSorts(posts[..|posts| - 1]);
      InsertedSorts(Sort(posts[..|posts| - 1]), posts[|posts| - 1]);
      assert posts == posts[..|posts| - 1] + [posts[|posts| - 1]];
    }
  }

  lemma SameFirst(a: seq<Post>, b: seq<Post>)
    requires InOrder(a) && InOrder(b) && DistinctIds(a) && multiset(a) == multiset(b) && a != [] && b != []
    ensures a[0] == b[0]
  {
    SameMembers(a, b);
    assert a[0] in b && b[0] in a;
    var x, y := a[0], b[0];
    var i :| 0 <= i < |b| && b[i] == x;
    var j :| 0 <= j < |a| && a[j] == y;
    assert i == 0 || Before(y, x);
    assert j == 0 || Before(x, y);
  }

  /** Two orders of the same posts agree when identities are distinct, so it does not matter how they are sorted. */
  lemma {:induction false} OrderIsUnique(a: seq<Post>, b: seq<Post>)
    requires InOrder(a) && InOrder(b) && DistinctIds(a) && multiset(a) == multiset(b)
    ensures a == b
  {
    assert |multiset(a)| == |a| && |multiset(b)| == |b|;
    if a != [] {
      SameFirst(a, b);
      Tails(a, b);
      OrderIsUnique(a[1..], b[1..]);
      assert a == [a[0]] + a[1..] && b == [b[0]] + b[1..];
    }
  }

  lemma Tails(a: seq<Post>, b: seq<Post>)
    requires a != [] && b != [] && a[0] == b[0] && multiset(a) == multiset(b)
    ensures multiset(a[1..]) == multiset(b[1..])
  {
    assert a == [a[0]] + a[1..] && b == [b[0]] + b[1..];
    assert multiset(a[1..]) == multiset(a) - multiset{a[0]} && multiset(b[1..]) == multiset(b) - multiset{b[0]};
  }

  // --- pagination ---

  /** What the pages so far have given: every post once, all of this thread. */
  ghost predicate Collected(result: seq<Post>, seen: set<Id>, root: Id, channel: Id) {
    && (forall i :: 0 <= i < |result| ==>
         result[i].id in seen && RootOf(result[i]) == root && result[i].channel == channel)
    && DistinctIds(result)
    && forall id :: id in seen ==> Has(result, id)
  }

  lemma CollectedStep(result: seq<Post>, seen: set<Id>, root: Id, channel: Id, p: Post)
    requires Collected(result, seen, root, channel) && p.id !in seen && RootOf(p) == root && p.channel == channel
    ensures Collected(result + [p], seen + {p.id}, root, channel)
  {
    forall id | id in seen + {p.id} ensures Has(result + [p], id) {
      if id in seen {
        var q :| q in result && q.id == id;
        assert q in result + [p];
      } else {
        assert p in result + [p];
      }
    }
  }

  /** The loop over the posts of one page. */
  method TakePage(
    posts: seq<Post>, root: Id, channel: Id, cursor: Id, before: seq<Post>, known: set<Id>)
    returns (ok: bool, result: seq<Post>, seen: set<Id>, replies: nat, next: Id)
    requires Collected(before, known, root, channel)
    ensures ok ==> Collected(result, seen, root, channel) && known <= seen
    ensures ok ==> (forall p :: p in posts ==> p.id in seen) && (forall p :: p in result ==> p in before || p in posts)
    ensures ok <==> forall i :: 0 <= i < |posts| ==> RootOf(posts[i]) == root && posts[i].channel == channel
    ensures ok ==> (replies > 0 <==> exists p :: p in posts && p.id != root && p.id !in known)
    ensures ok ==> IsNext(posts, |posts|, root, cursor, next)
  {
    hide *;
    result, seen, replies, next := before, known, 0, cursor;
    NothingTaken(posts, root, channel, cursor, before, known);
    for i := 0 to |posts|
      invariant Taken(posts, i, root, channel, cursor, before, known, result, seen, replies, next)
      invariant forall j :: 0 <= j < i ==> RootOf(posts[j]) == root && posts[j].channel == channel
    {
      var p := posts[i];
      TakenStep(posts, i, root, channel, cursor, before, known, result, seen, replies, next);
      if RootOf(p) != root || p.channel != channel {
        ok := false;
        return;
      }
      if p.id !in seen {
        seen := seen + {p.id};
        result := result + [p];
        if p.id != root {
          replies := replies + 1;
        }
      }
      if p.id != root {
        next := p.id;
      }
    }
    TakenAll(posts, root, channel, cursor, before, known, result, seen, replies, next);
    ok := true;
  }

  /** What the first i posts of a page have added. */
  ghost predicate Taken(
    posts: seq<Post>, i: nat, root: Id, channel: Id, cursor: Id, before: seq<Post>, known: set<Id>, result: seq<Post>,
    seen: set<Id>, replies: nat, next: Id)
    requires i <= |posts|
  {
    && Collected(result, seen, root, channel) && known <= seen
    && (forall id :: id in seen ==> id in known || exists j :: 0 <= j < i && posts[j].id == id)
    && (replies > 0 <==> exists j :: 0 <= j < i && posts[j].id != root && posts[j].id !in known)
    && IsNext(posts, i, root, cursor, next)
    && (forall j :: 0 <= j < i ==> posts[j].id in seen)
    && forall p :: p in result ==> p in before || p in posts
  }

  lemma NothingTaken(posts: seq<Post>, root: Id, channel: Id, cursor: Id, before: seq<Post>, known: set<Id>)
    requires Collected(before, known, root, channel)
    ensures Taken(posts, 0, root, channel, cursor, before, known, before, known, 0, cursor)
  {
    hide Collected;
  }

  lemma TakenStep(
    posts: seq<Post>, i: nat, root: Id, channel: Id, cursor: Id, before: seq<Post>, known: set<Id>, result: seq<Post>,
    seen: set<Id>, replies: nat, next: Id)
    requires i < |posts| && Taken(posts, i, root, channel, cursor, before, known, result, seen, replies, next)
    ensures RootOf(posts[i]) == root && posts[i].channel == channel ==>
              var p := posts[i];
              var isNew := p.id !in seen;
              Taken(posts, i + 1, root, channel, cursor, before, known, if isNew then result + [p] else result,
                    if isNew then seen + {p.id} else seen, if isNew && p.id != root then replies + 1 else replies,
                    if p.id != root then p.id else next)
  {
    var p := posts[i];
    if RootOf(p) == root && p.channel == channel {
      if p.id !in seen {
        CollectedStep(result, seen, root, channel, p);
      }
      NextStep(posts, i, root, cursor, next);
      hide Collected, RootOf, IsNext;
    }
  }

  lemma NextStep(posts: seq<Post>, i: nat, root: Id, cursor: Id, next: Id)
    requires i < |posts| && IsNext(posts, i, root, cursor, next)
    ensures IsNext(posts, i + 1, root, cursor, if posts[i].id != root then posts[i].id else next)
  {
  }

  lemma TakenAll(
    posts: seq<Post>, root: Id, channel: Id, cursor: Id, before: seq<Post>, known: set<Id>, result: seq<Post>,
    seen: set<Id>, replies: nat, next: Id)
    requires Taken(posts, |posts|, root, channel, cursor, before, known, result, seen, replies, next)
    ensures Collected(result, seen, root, channel) && known <= seen
    ensures (forall p :: p in posts ==> p.id in seen) && (forall p :: p in result ==> p in before || p in posts)
    ensures replies > 0 <==> exists p :: p in posts && p.id != root && p.id !in known
    ensures IsNext(posts, |posts|, root, cursor, next)
  {
    hide Collected, IsNext;
    if p :| p in posts && p.id != root && p.id !in known {
      var j :| 0 <= j < |posts| && posts[j] == p;
    }
  }

  /** The last reply among the first n posts, or what it was before when there is none. */
  ghost predicate IsNext(posts: seq<Post>, n: nat, root: Id, cursor: Id, next: Id)
    requires n <= |posts|
  {
    || (next == cursor && forall j :: 0 <= j < n ==> posts[j].id == root)
    || exists j :: 0 <= j < n && posts[j].id == next && next != root && forall l :: j < l < n ==> posts[l].id == root
  }

  predicate IsLast(page: Page) {
    page.hasNext == Some(false) || (page.order < 200 && page.hasNext == None)
  }

  /** No page follows: the server says so, or says nothing and the page is not full. */
  ghost predicate IsEnd(page: Page) {
    match page.hasNext
    case Some(more) => !more
    case None => page.order < 200
  }

  /** The first n pages are read, and no other, because the last of them and no other is the end. */
  ghost predicate ReadToEnd(pages: seq<Option<Page>>, n: nat) {
    && 0 < n <= |pages| && (forall k :: 0 <= k < n ==> pages[k].Some?)
    && forall k :: 0 <= k < n ==> (IsEnd(pages[k].value) <==> k == n - 1)
  }

  ghost predicate OfThread(page: Page, root: Id, channel: Id) {
    forall p :: p in page.posts ==> (if p.root == 0 then p.id else p.root) == root && p.channel == channel
  }

  /** One of the first n pages lists the post. */
  ghost predicate Listed(pages: seq<Option<Page>>, n: nat, id: Id) {
    exists k, p :: 0 <= k < n && k < |pages| && pages[k].Some? && p in pages[k].value.posts && p.id == id
  }

  /** The latest reply of the page. */
  ghost predicate LastReply(page: Page, root: Id, id: Id) {
    exists p :: p in page.posts && p.id == id && id != root && forall q :: q in page.posts && q.id != root ==>
      q.created < p.created || (q.created == p.created && q.id <= p.id)
  }

  /** The page brings a reply that no page before it did, and ends with another one than the page before. */
  ghost predicate Advances(pages: seq<Option<Page>>, k: nat, root: Id)
    requires k < |pages| && forall j :: 0 <= j <= k ==> pages[j].Some?
  {
    && (exists p :: p in pages[k].value.posts && p.id != root && !Listed(pages, k, p.id))
    && (k > 0 ==> forall id :: LastReply(pages[k].value, root, id) ==> !LastReply(pages[k - 1].value, root, id))
  }

  /** All pages are of this thread, and each but the last one advances. */
  ghost predicate Readable(pages: seq<Option<Page>>, n: nat, root: Id, channel: Id) {
    && ReadToEnd(pages, n)
    && (forall k :: 0 <= k < n ==> OfThread(pages[k].value, root, channel))
    && forall k :: 0 <= k < n - 1 ==> Advances(pages, k, root)
  }

  /** So far none is the last. */
  ghost predicate Underway(pages: seq<Option<Page>>, n: nat, root: Id, channel: Id) {
    && n <= |pages|
    && (forall k :: 0 <= k < n ==> pages[k].Some? && !IsEnd(pages[k].value))
    && (forall k :: 0 <= k < n ==> OfThread(pages[k].value, root, channel))
    && forall k :: 0 <= k < n ==> Advances(pages, k, root)
  }

  lemma UnderwayStep(pages: seq<Option<Page>>, n: nat, root: Id, channel: Id)
    requires Underway(pages, n, root, channel) && n < |pages| && pages[n].Some?
    requires OfThread(pages[n].value, root, channel)
    ensures IsEnd(pages[n].value) ==> Readable(pages, n + 1, root, channel)
    ensures !IsEnd(pages[n].value) && Advances(pages, n, root) ==> Underway(pages, n + 1, root, channel)
  {
    hide OfThread, Advances, IsEnd;
  }

  /** What stops the reading stops every reading. */
  lemma Stuck(pages: seq<Option<Page>>, n: nat, root: Id, channel: Id)
    requires Underway(pages, n, root, channel)
    requires n < |pages| && pages[n].Some? ==>
               || !OfThread(pages[n].value, root, channel)
               || (!IsEnd(pages[n].value) && !Advances(pages, n, root))
    ensures forall m: nat :: !Readable(pages, m, root, channel)
  {
    hide OfThread, Advances, IsEnd;
    forall m: nat ensures Readable(pages, m, root, channel) ==> m > n {
      if Readable(pages, m, root, channel) {
        EndIsLater(pages, n, m, root, channel);
      }
    }
  }

  lemma EndIsLater(pages: seq<Option<Page>>, n: nat, m: nat, root: Id, channel: Id)
    requires Underway(pages, n, root, channel) && Readable(pages, m, root, channel)
    ensures m > n
  {
    hide OfThread, Advances, IsEnd;
    assert IsEnd(pages[m - 1].value);
  }

  lemma OnlyOneEnd(pages: seq<Option<Page>>, m: nat, n: nat, root: Id, channel: Id)
    requires Readable(pages, m, root, channel) && Readable(pages, n, root, channel)
    ensures m == n
  {
    hide OfThread, Advances, IsEnd;
    assert IsEnd(pages[m - 1].value) && IsEnd(pages[n - 1].value);
  }

  /** What the pages have given is what they list. */
  lemma SeenIsListed(posts: seq<Post>, seen: set<Id>, root: Id, channel: Id, pages: seq<Option<Page>>, n: nat)
    requires Collected(posts, seen, root, channel) && FromPages(posts, pages, n)
    ensures forall id :: id in seen <==> Listed(pages, n, id)
  {
    forall id ensures id in seen <==> Listed(pages, n, id) {
      if id in seen {
        var p :| p in posts && p.id == id;
        var k :| 0 <= k < n && pages[k].Some? && p in pages[k].value.posts;
      }
      if Listed(pages, n, id) {
        var k, p :| 0 <= k < n && k < |pages| && pages[k].Some? && p in pages[k].value.posts && p.id == id;
        var q :| q in posts && q.id == p.id;
        var i :| 0 <= i < |posts| && posts[i] == q;
      }
    }
  }

  /** The last reply of the sorted posts is the latest of the page. */
  lemma NextIsLast(page: Page, sorted: seq<Post>, root: Id, cursor: Id, next: Id)
    requires InOrder(sorted) && (forall p :: p in sorted <==> p in page.posts)
    requires IsNext(sorted, |sorted|, root, cursor, next)
    ensures (exists p :: p in page.posts && p.id != root) ==> LastReply(page, root, next)
    ensures (forall p :: p in page.posts ==> p.id == root) ==> next == cursor
  {
    if p :| p in page.posts && p.id != root {
      var l :| 0 <= l < |sorted| && sorted[l] == p;
      var j :| 0 <= j < |sorted| && sorted[j].id == next && next != root && forall l :: j < l < |sorted| ==>
          sorted[l].id == root;
      var last := sorted[j];
      forall q | q in page.posts && q.id != root
        ensures q.created < last.created || (q.created == last.created && q.id <= last.id) {
        var m :| 0 <= m < |sorted| && sorted[m] == q;
        assert m <= j;
      }
    }
  }

  lemma OneLastReply(page: Page, root: Id, a: Id, b: Id)
    requires LastReply(page, root, a) && LastReply(page, root, b)
    ensures a == b
  {
    var p :| p in page.posts && p.id == a && a != root && forall q :: q in page.posts && q.id != root ==>
        q.created < p.created || (q.created == p.created && q.id <= p.id);
    var r :| r in page.posts && r.id == b && b != root && forall q :: q in page.posts && q.id != root ==>
        q.created < r.created || (q.created == r.created && q.id <= r.id);
  }

  /** The reader's test for going on. */
  lemma AdvancesExactly(pages: seq<Option<Page>>, k: nat, root: Id, cursor: Id, next: Id, brings: bool)
    requires k < |pages| && forall j :: 0 <= j <= k ==> pages[j].Some?
    requires if k == 0 then cursor == root else LastReply(pages[k - 1].value, root, cursor)
    requires brings <==> exists p :: p in pages[k].value.posts && p.id != root && !Listed(pages, k, p.id)
    requires (exists p :: p in pages[k].value.posts && p.id != root) ==> LastReply(pages[k].value, root, next)
    ensures Advances(pages, k, root) <==> brings && next != cursor
    ensures brings ==> LastReply(pages[k].value, root, next)
  {
    if brings {
      hide LastReply, Listed;
      assert k == 0 ==> next != cursor by {
        ReplyIsNotRoot(pages[k].value, root, next);
      }
      forall id | LastReply(pages[k].value, root, id) ensures id == next {
        OneLastReply(pages[k].value, root, id, next);
      }
      if k > 0 {
        var before := pages[k - 1].value;
        forall id | LastReply(before, root, id) ensures id == cursor {
          OneLastReply(before, root, id, cursor);
        }
      }
    }
  }

  lemma ReplyIsNotRoot(page: Page, root: Id, id: Id)
    requires LastReply(page, root, id)
    ensures id != root
  {
  }

  /** The posts are those of the first n pages, none missing. */
  ghost predicate FromPages(posts: seq<Post>, pages: seq<Option<Page>>, n: nat) {
    && n <= |pages|
    && (forall k :: 0 <= k < n ==> pages[k].Some? && forall p :: p in pages[k].value.posts ==> Has(posts, p.id))
    && forall p :: p in posts ==> exists k :: 0 <= k < n && pages[k].Some? && p in pages[k].value.posts
  }

  lemma FromPagesStep(before: seq<Post>, after: seq<Post>, pages: seq<Option<Page>>, n: nat)
    requires FromPages(before, pages, n) && n < |pages| && pages[n].Some?
    requires forall p :: p in before ==> Has(after, p.id)
    requires forall p :: p in pages[n].value.posts ==> Has(after, p.id)
    requires forall p :: p in after ==> p in before || p in pages[n].value.posts
    ensures FromPages(after, pages, n + 1)
  {
    forall k | 0 <= k < n + 1 ensures forall p :: p in pages[k].value.posts ==> Has(after, p.id) {
      if k < n {
        forall p | p in pages[k].value.posts ensures Has(after, p.id) {
          var q :| q in before && q.id == p.id;
        }
      }
    }
  }

  /** The first page is the whole thread, the target in it. */
  ghost predicate OnePage(target: Option<Post>, pages: seq<Option<Page>>) {
    && target.Some? && pages != [] && pages[0].Some? && IsEnd(pages[0].value)
    && OfThread(pages[0].value, RootOf(target.value), target.value.channel)
    && (target.value.id == RootOf(target.value) || Has(pages[0].value.posts, target.value.id))
  }

  /** Client.Thread over any answers of the server: `target` and `root` are the posts it names first, `pages` the pages
      it returns one after the other (None for a failed request), `again` the root if it has to be asked for again. */
  method ReadThread(target: Option<Post>, rootPost: Option<Post>, pages: seq<Option<Page>>, again: Option<Post>)
    returns (result: Option<seq<Post>>, ghost read: nat, ghost listed: seq<Post>)
    requires target.Some? && again.Some? ==>
               again.value.id == if target.value.root == 0 then target.value.id else target.value.root
    ensures result.Some? ==>
              && target.Some?
              && InOrder(result.value) && OldestFirst(result.value) && DistinctIds(result.value)
              && var t := target.value;
                 var root := if t.root == 0 then t.id else t.root;
                 && Has(result.value, t.id) && Has(result.value, root)
                 && forall p :: p in result.value && p.id != root ==> p.root == root && p.channel == t.channel
    ensures result.Some? ==>
              && FromPages(listed, pages, read) && ReadToEnd(pages, read)
              && (forall p :: p in listed ==> p in result.value)
              && forall p :: p in result.value ==> p in listed || again == Some(p)
    ensures rootPost.Some? && again.Some? && OnePage(target, pages) ==> result.Some?
    ensures result.Some? <==>
              && target.Some? && rootPost.Some?
              && var t := target.value;
                 var root := if t.root == 0 then t.id else t.root;
                 exists n ::
                   && Readable(pages, n, root, t.channel)
                   && (Listed(pages, n, root) || again.Some?) && (t.id == root || Listed(pages, n, t.id))
  {
    hide *;
    OnePageIs(target, pages);
    read, listed := 0, [];
    if target.None? || rootPost.None? {
      return None, 0, [];
    }
    var root, channel := RootOf(target.value), target.value.channel;
    RootIs(target.value);
    var ok, posts, seen;
    ok, posts, seen, read := ReadPages(pages, root, channel);
    if !ok {
      return None, 0, [];
    }
    listed := posts;
    CollectedMeans(posts, seen, root, channel);
    SeenIsListed(posts, seen, root, channel, pages, read);
    ReadIsAll(pages, read, root, channel);
    if root !in seen {
      if again.None? {
        return None, 0, [];
      }
      AddRoot(posts, seen, root, channel, again.value);
      posts := posts + [again.value];
    }
    if target.value.id !in seen && target.value.id != root {
      return None, 0, [];
    }
    SortSorts(posts);
    InOrderExactly(Sort(posts));
    SameMembers(posts, Sort(posts));
    SortedIsDistinct(posts, Sort(posts));
    result := Some(Sort(posts));
  }

  lemma RootIs(p: Post)
    ensures RootOf(p) == if p.root == 0 then p.id else p.root
  {
  }

  lemma OnePageIs(target: Option<Post>, pages: seq<Option<Page>>)
    ensures OnePage(target, pages) ==>
              target.Some? &&
              var t := target.value;
              && Readable(pages, 1, RootOf(t), t.channel)
              && (t.id == RootOf(t) || Listed(pages, 1, t.id))
  {
  }

  lemma ReadIsAll(pages: seq<Option<Page>>, n: nat, root: Id, channel: Id)
    requires Readable(pages, n, root, channel)
    ensures n > 0 && ReadToEnd(pages, n) && forall m: nat :: Readable(pages, m, root, channel) ==> m == n
  {
    assert ReadToEnd(pages, n);
    hide Readable;
    forall m: nat | Readable(pages, m, root, channel) ensures m == n {
      OnlyOneEnd(pages, m, n, root, channel);
    }
  }

  /** Its loop over the pages. */
  method ReadPages(pages: seq<Option<Page>>, root: Id, channel: Id)
    returns (ok: bool, posts: seq<Post>, seen: set<Id>, ghost read: nat)
    ensures ok ==>
              && Collected(posts, seen, root, channel) && FromPages(posts, pages, read) && ReadToEnd(pages, read)
              && Readable(pages, read, root, channel)
    ensures ok <==> exists n :: Readable(pages, n, root, channel)
    ensures pages != [] && pages[0].Some? && IsEnd(pages[0].value) && OfThread(pages[0].value, root, channel) ==> ok
  {
    hide *;
    posts, seen, read := [], {}, 0;
    var cursor, number, more := root, 0, true;
    NothingRead(root, channel, pages);
    while more
      invariant number == read <= |pages| && Collected(posts, seen, root, channel) && FromPages(posts, pages, number)
      invariant more ==> Underway(pages, number, root, channel)
      invariant more ==> if number == 0 then cursor == root
                         else pages[number - 1].Some? && LastReply(pages[number - 1].value, root, cursor)
      invariant !more ==> Readable(pages, number, root, channel)
      decreases |pages| - number, more
    {
      if number == |pages| || pages[number].None? {
        Stuck(pages, number, root, channel);
        ok := false;
        return;
      }
      var page := pages[number].value;
      var replies, next;
      UnderwayMeans(pages, number, root, channel);
      ok, posts, seen, replies, next := ReadPage(pages, number, root, channel, cursor, posts, seen);
      if !ok {
        Stuck(pages, number, root, channel);
        return;
      }
      AdvancesExactly(pages, number, root, cursor, next, replies > 0);
      UnderwayStep(pages, number, root, channel);
      LastEnds(page);
      var last := IsLast(page);
      if last {
        more := false;
      } else if replies == 0 || next == cursor {
        Stuck(pages, number, root, channel);
        ok := false;
        return;
      } else {
        cursor := next;
      }
      number, read := number + 1, read + 1;
    }
    ReadableMeans(pages, read, root, channel);
    ok := true;
  }

  lemma LastEnds(page: Page)
    ensures IsLast(page) <==> IsEnd(page)
  {
  }

  lemma UnderwayMeans(pages: seq<Option<Page>>, n: nat, root: Id, channel: Id)
    requires Underway(pages, n, root, channel)
    ensures forall k :: 0 <= k < n ==> pages[k].Some?
  {
  }

  lemma ReadableMeans(pages: seq<Option<Page>>, n: nat, root: Id, channel: Id)
    requires Readable(pages, n, root, channel)
    ensures ReadToEnd(pages, n)
  {
  }

  /** One page, sorted and taken. */
  method ReadPage(
    pages: seq<Option<Page>>, number: nat, root: Id, channel: Id, cursor: Id, before: seq<Post>, known: set<Id>)
    returns (ok: bool, posts: seq<Post>, seen: set<Id>, replies: nat, next: Id)
    requires number < |pages| && pages[number].Some?
    requires Collected(before, known, root, channel) && FromPages(before, pages, number)
    ensures ok ==> Collected(posts, seen, root, channel) && FromPages(posts, pages, number + 1)
    ensures ok <==> OfThread(pages[number].value, root, channel)
    ensures ok ==>
              (replies > 0 <==>
                exists p :: p in pages[number].value.posts && p.id != root && !Listed(pages, number, p.id))
    ensures ok && (exists p :: p in pages[number].value.posts && p.id != root) ==>
              LastReply(pages[number].value, root, next)
  {
    hide *;
    var page := pages[number].value;
    SeenIsListed(before, known, root, channel, pages, number);
    SortSorts(page.posts);
    SameMembers(page.posts, Sort(page.posts));
    ok, posts, seen, replies, next := TakePage(Sort(page.posts), root, channel, cursor, before, known);
    if !ok {
      NotOfThread(Sort(page.posts), page, root, channel);
      return;
    }
    NextIsLast(page, Sort(page.posts), root, cursor, next);
    AllOfThread(Sort(page.posts), page, root, channel);
    CollectedHas(before, known, root, channel);
    assert forall p :: p in page.posts ==> p in Sort(page.posts);
    KeepsAll(before, posts, seen, root, channel);
    FromPagesStep(before, posts, pages, number);
  }

  lemma NothingRead(root: Id, channel: Id, pages: seq<Option<Page>>)
    ensures Collected([], {}, root, channel) && FromPages([], pages, 0) && Underway(pages, 0, root, channel)
    ensures pages != [] && pages[0].Some? && IsEnd(pages[0].value) && OfThread(pages[0].value, root, channel) ==>
              Readable(pages, 1, root, channel)
  {
  }

  lemma CollectedMeans(result: seq<Post>, seen: set<Id>, root: Id, channel: Id)
    requires Collected(result, seen, root, channel)
    ensures DistinctIds(result) && forall id :: id in seen ==> Has(result, id)
    ensures forall p :: p in result ==> RootOf(p) == root && p.channel == channel
    ensures forall p :: p in result && p.id != root ==> p.root == root
  {
  }

  lemma NotOfThread(sorted: seq<Post>, page: Page, root: Id, channel: Id)
    requires forall p :: p in sorted <==> p in page.posts
    requires !forall i :: 0 <= i < |sorted| ==> RootOf(sorted[i]) == root && sorted[i].channel == channel
    ensures !OfThread(page, root, channel)
  {
    var i :| 0 <= i < |sorted| && !(RootOf(sorted[i]) == root && sorted[i].channel == channel);
    assert sorted[i] in page.posts;
  }

  lemma AllOfThread(sorted: seq<Post>, page: Page, root: Id, channel: Id)
    requires forall p :: p in sorted <==> p in page.posts
    requires forall i :: 0 <= i < |sorted| ==> RootOf(sorted[i]) == root && sorted[i].channel == channel
    ensures OfThread(page, root, channel)
  {
    forall p | p in page.posts ensures RootOf(p) == root && p.channel == channel {
      var i :| 0 <= i < |sorted| && sorted[i] == p;
    }
  }

  lemma CollectedHas(result: seq<Post>, seen: set<Id>, root: Id, channel: Id)
    requires Collected(result, seen, root, channel)
    ensures forall p :: p in result ==> p.id in seen
  {
    forall p | p in result ensures p.id in seen {
      var i :| 0 <= i < |result| && result[i] == p;
    }
  }

  lemma KeepsAll(before: seq<Post>, after: seq<Post>, seen: set<Id>, root: Id, channel: Id)
    requires Collected(after, seen, root, channel) && forall p :: p in before ==> p.id in seen
    ensures forall p :: p in before ==> Has(after, p.id)
    ensures forall id :: id in seen ==> Has(after, id)
  {
  }

  lemma AddRoot(posts: seq<Post>, seen: set<Id>, root: Id, channel: Id, p: Post)
    requires Collected(posts, seen, root, channel) && root !in seen && p.id == root
    ensures DistinctIds(posts + [p]) && Has(posts + [p], root)
    ensures forall id :: id in seen ==> Has(posts + [p], id)
  {
    assert p in posts + [p];
    forall id | id in seen ensures Has(posts + [p], id) {
      var q :| q in posts && q.id == id;
      assert q in posts + [p];
    }
  }

  lemma SameMembers(a: seq<Post>, b: seq<Post>)
    requires multiset(a) == multiset(b)
    ensures forall p :: p in a <==> p in b
    ensures forall id :: Has(a, id) <==> Has(b, id)
  {
    forall p ensures p in a <==> p in b {
      assert p in a <==> p in multiset(a);
      assert p in b <==> p in multiset(b);
    }
  }

  /** Distinct identities are a matter of the multiset. */
  lemma SortedIsDistinct(a: seq<Post>, b: seq<Post>)
    requires multiset(a) == multiset(b) && DistinctIds(a)
    ensures DistinctIds(b)
  {
    forall i, j | 0 <= i < j < |b| ensures b[i].id != b[j].id {
      SameMembers(a, b);
      assert b[i] in b && b[j] in b;
      var k :| 0 <= k < |a| && a[k] == b[i];
      var l :| 0 <= l < |a| && a[l] == b[j];
      if k == l {
        Twice(b, i, j);
        Once(a, k);
      }
    }
  }

  lemma Twice(s: seq<Post>, i: nat, j: nat)
    requires i < j < |s| && s[i] == s[j]
    ensures multiset(s)[s[i]] >= 2
  {
    assert s == s[..j] + [s[j]] + s[j + 1..];
    assert s[..j][i] in s[..j];
    assert s[i] in multiset(s[..j]);
  }

  lemma {:induction false} Once(s: seq<Post>, k: nat)
    requires k < |s| && DistinctIds(s)
    ensures multiset(s)[s[k]] == 1
  {
    assert s == s[..k] + [s[k]] + s[k + 1..];
    assert s[k] !in s[..k] && s[k] !in s[k + 1..];
    assert s[k] !in multiset(s[..k]) && s[k] !in multiset(s[k + 1..]);
  }
}
