/** The posts shown around a linked one (linkedSelection, internal/conversation/context.go:580-611). */
module LinkedWindow {
  import opened Collections
  import opened Thread

  /** The closure `add`. */
  function Add(n: nat, limit: int, selected: set<nat>, i: int): (more: set<nat>)
    ensures selected <= more
  {
    if 0 <= i < n && |selected| < limit then selected + {i} else selected
  }

  /** One round of the last loop. */
  function Round(n: nat, limit: int, at: nat, selected: set<nat>, d: nat): (more: set<nat>)
    ensures selected <= more
  {
    Add(n, limit, Add(n, limit, selected, at - d), at + d)
  }

  function Min(a: int, b: int): int {
    if a < b then a else b
  }

  /** The loop can reach its bound: the target is there, or the bound leaves one post out, or there is no post, or the
      first post, which no distance reaches when the target is missing, is selected as the root. */
  ghost predicate Ends(posts: seq<Post>, target: Id, root: Id, limit: int) {
    Has(posts, target) || limit < |posts| || posts == [] || posts[0].id == root
  }

  ghost predicate Within(selected: set<nat>, n: nat, limit: int) {
    (forall i :: i in selected ==> i < n) && (|selected| <= limit || selected == {})
  }

  /** The position of the target, 0 when it is missing. */
  ghost predicate Position(posts: seq<Post>, target: Id, at: nat) {
    if Has(posts, target) then at < |posts| && posts[at].id == target else at == 0
  }

  /** The first two loops: the target, then the root. */
  method Anchors(posts: seq<Post>, target: Id, root: Id, limit: int) returns (at: nat, selected: set<nat>)
    requires DistinctIds(posts)
    ensures Position(posts, target, at) && Within(selected, |posts|, limit)
    ensures forall i :: i in selected ==> posts[i].id == target || posts[i].id == root
    ensures limit >= 1 && Has(posts, target) ==> at in selected
    ensures limit >= 2 || (limit >= 1 && !Has(posts, target)) ==>
              forall i :: 0 <= i < |posts| && posts[i].id == root ==> i in selected
  {
    at, selected := 0, {};
    var found := false;
    for i := 0 to |posts|
      invariant found <==> exists j :: 0 <= j < i && posts[j].id == target
      invariant if found then at < i && posts[at].id == target &&
                selected == Add(|posts|, limit, {}, at) else at == 0 && selected == {}
    {
      if posts[i].id == target {
        at, found := i, true;
        selected := Add(|posts|, limit, selected, i);
      }
    }
    assert found ==> posts[at] in posts;
    ghost var first := selected;
    var rooted := false;
    for i := 0 to |posts|
      invariant rooted <==> exists j :: 0 <= j < i && posts[j].id == root
      invariant !rooted ==> selected == first
      invariant rooted ==> exists j :: 0 <= j < i && posts[j].id == root && selected == Add(|posts|, limit, first, j)
    {
      if posts[i].id == root {
        rooted := true;
        selected := Add(|posts|, limit, selected, i);
      }
    }
  }

  /** What is selected after d rounds: everything nearer than d, and besides the anchors nothing farther. */
  ghost predicate Spread(n: nat, at: nat, anchors: set<nat>, selected: set<nat>, d: nat) {
    && (forall j: nat :: j < n && 0 < Distance(j, at) < d ==> j in selected)
    && (forall i :: i in selected && i !in anchors ==> Distance(i, at) < d)
  }

  function Distance(i: int, j: int): nat {
    if i < j then j - i else i - j
  }

  /** A set of positions below n with fewer than n elements misses one; with fewer than n - 1, one other than 0. */
  lemma {:induction false} Missing(selected: set<nat>, n: nat) returns (j: nat)
    requires (forall i :: i in selected ==> i < n) && |selected| < n
    ensures j < n && j !in selected
    ensures |selected| < n - 1 || 0 in selected ==> j != 0
  {
    if n - 1 !in selected && (n > 1 || 0 !in selected) {
      j := n - 1;
    } else {
      var rest := selected - {n - 1};
      assert selected == rest + {n - 1};
      j := Missing(rest, n - 1);
    }
  }

  lemma {:induction false} AtMost(selected: set<nat>, n: nat)
    requires forall i :: i in selected ==> i < n
    ensures |selected| <= n
  {
    if n == 0 {
      assert selected == {};
    } else {
      AtMost(selected - {n - 1}, n - 1);
      if n - 1 in selected {
        assert selected == (selected - {n - 1}) + {n - 1};
      } else {
        assert selected == selected - {n - 1};
      }
    }
  }

  lemma RoundSpreads(n: nat, limit: int, at: nat, anchors: set<nat>, selected: set<nat>, d: nat)
    requires d > 0 && Spread(n, at, anchors, selected, d) && Within(selected, n, limit)
    ensures Within(Round(n, limit, at, selected, d), n, limit)
    ensures |Round(n, limit, at, selected, d)| < limit ==>
              Spread(n, at, anchors, Round(n, limit, at, selected, d), d + 1)
    ensures forall i :: i in Round(n, limit, at, selected, d) && i !in anchors ==> Distance(i, at) < d + 1
  {
  }

  /** linkedSelection, where it ends: exactly as many posts as the limit and the thread allow, in thread order, the
      target among them, the root when there is room for two, and no other post nearer the target left out. */
  method LinkedSelection(posts: seq<Post>, target: Id, root: Id, limit: int)
    returns (result: seq<Post>, ghost indices: seq<nat>)
    requires DistinctIds(posts) && Ends(posts, target, root, limit)
    ensures limit >= 0 ==> |result| == Min(limit, |posts|)
    ensures limit < 0 ==> result == []
    ensures IsSelection(posts, result, indices)
    ensures limit >= 1 && Has(posts, target) ==> Has(result, target)
    ensures limit >= 2 && Has(posts, root) ==> Has(result, root)
    ensures Has(posts, target) && limit >= 1 ==> Nearest(posts, target, root, indices)
  {
    var n := |posts|;
    var at, selected := Anchors(posts, target, root, limit);
    ghost var anchors := selected;
    var d := 1;
    while |selected| < Min(limit, n)
      invariant d > 0 && Within(selected, n, limit) && anchors <= selected
      invariant |selected| < Min(limit, n) ==> Spread(n, at, anchors, selected, d)
      invariant forall i :: i in selected && i !in anchors ==> Distance(i, at) < d
      invariant forall j: nat :: j < n && 0 < Distance(j, at) < d - 1 ==> j in selected
      decreases n + 1 - d
    {
      InReach(posts, target, root, limit, at, anchors, selected, d);
      RoundSpreads(n, limit, at, anchors, selected, d);
      selected := Round(n, limit, at, selected, d);
      d := d + 1;
    }
    AtMost(selected, n);
    result, indices := Gather(posts, selected);
    if Has(posts, target) && limit >= 1 {
      NearestOf(posts, target, root, at, anchors, selected, indices, d);
    }
    if Has(posts, target) && limit >= 1 {
      assert posts[at].id == target && at in selected;
    }
    if limit >= 2 && Has(posts, root) {
      var p :| p in posts && p.id == root;
      var k :| 0 <= k < n && posts[k] == p;
      assert k in selected;
    }
  }

  /** While the bound is not reached, some post is still missing at this distance or farther. */
  lemma InReach(
    posts: seq<Post>, target: Id, root: Id, limit: int, at: nat, anchors: set<nat>, selected: set<nat>, d: nat)
    requires Ends(posts, target, root, limit) && Position(posts, target, at)
    requires Within(selected, |posts|, limit) && |selected| < Min(limit, |posts|) && anchors <= selected
    requires Spread(|posts|, at, anchors, selected, d)
    requires limit >= 1 && Has(posts, target) ==> at in anchors
    requires limit >= 2 || (limit >= 1 && !Has(posts, target)) ==>
              forall i :: 0 <= i < |posts| && posts[i].id == root ==> i in anchors
    ensures d <= |posts|
  {
    var j := Missing(selected, |posts|);
    assert Distance(j, at) >= d || j == at;
    if Has(posts, target) {
      assert j != at;
    } else {
      assert limit < |posts| || 0 in anchors;
      assert j != 0;
    }
  }

  /** The result is the posts at increasing positions. */
  ghost predicate IsSelection(posts: seq<Post>, result: seq<Post>, indices: seq<nat>) {
    && |indices| == |result|
    && (forall k :: 0 <= k < |result| ==> indices[k] < |posts| && result[k] == posts[indices[k]])
    && forall k, l :: 0 <= k < l < |indices| ==> indices[k] < indices[l]
  }

  /** No post left out is strictly nearer the target than a selected one other than the root. */
  ghost predicate Nearest(posts: seq<Post>, target: Id, root: Id, indices: seq<nat>) {
    forall at: nat, i, j: nat ::
      at < |posts| && posts[at].id == target && i in indices && i < |posts| && posts[i].id != root && j < |posts| &&
          j !in indices ==>
        Distance(i, at) <= Distance(j, at)
  }

  /** Sorting the positions and reading the posts. */
  method Gather(posts: seq<Post>, selected: set<nat>) returns (result: seq<Post>, ghost indices: seq<nat>)
    requires forall i :: i in selected ==> i < |posts|
    ensures IsSelection(posts, result, indices) && |result| == |selected|
    ensures forall i :: i in indices <==> i in selected
    ensures forall i :: i in selected ==> Has(result, posts[i].id)
  {
    result, indices := [], [];
    for i := 0 to |posts|
      invariant IsSelection(posts, result, indices)
      invariant forall k :: 0 <= k < |indices| ==> indices[k] < i
      invariant forall k :: k in indices <==> k in selected && k < i
    {
      if i in selected {
        result, indices := result + [posts[i]], indices + [i];
      }
    }
    SameSize(indices, selected);
    forall i | i in selected ensures Has(result, posts[i].id) {
      var k :| 0 <= k < |indices| && indices[k] == i;
      assert result[k] in result;
    }
  }

  lemma {:induction false} SameSize(indices: seq<nat>, selected: set<nat>)
    requires forall i :: i in indices <==> i in selected
    requires forall k, l :: 0 <= k < l < |indices| ==> indices[k] < indices[l]
    ensures |indices| == |selected|
  {
    if indices == [] {
      assert selected == {};
    } else {
      var last := indices[|indices| - 1];
      var front := indices[..|indices| - 1];
      assert indices == front + [last];
      SameSize(front, selected - {last});
    }
  }

  lemma NearestOf(
    posts: seq<Post>, target: Id, root: Id, at: nat, anchors: set<nat>, selected: set<nat>, indices: seq<nat>, d: nat)
    requires DistinctIds(posts) && at < |posts| && posts[at].id == target && d > 0
    requires forall i :: i in indices <==> i in selected
    requires forall i :: i in anchors ==> i < |posts| && (posts[i].id == target || posts[i].id == root)
    requires at in selected
    requires forall i :: i in selected && i !in anchors ==> Distance(i, at) < d
    requires forall j: nat :: j < |posts| && 0 < Distance(j, at) < d - 1 ==> j in selected
    ensures Nearest(posts, target, root, indices)
  {
  }

  /** Reading a linked thread and choosing from it: whatever pages the server returned, a thread that was read has a
      selection, and the linked post and its root are in it. */
  method ReadLinked(
    target: Option<Post>, rootPost: Option<Post>, pages: seq<Option<Page>>, again: Option<Post>, limit: int)
    returns (result: Option<seq<Post>>)
    requires target.Some? && again.Some? ==>
               again.value.id == if target.value.root == 0 then target.value.id else target.value.root
    requires limit >= 2
    ensures result.Some? ==> target.Some? && |result.value| <= limit
    ensures result.Some? ==> Has(result.value, target.value.id)
    ensures result.Some? ==> Has(result.value, if target.value.root == 0 then target.value.id else target.value.root)
  {
    var posts, _, _ := ReadThread(target, rootPost, pages, again);
    if posts.None? {
      return None;
    }
    var selection, _ := LinkedSelection(posts.value, target.value.id, RootOf(target.value), limit);
    result := Some(selection);
  }

  // --- where it does not end ---

  /** The selection after d rounds from these anchors. */
  function After(n: nat, limit: int, at: nat, anchors: set<nat>, d: nat): set<nat> {
    if d == 0 then anchors else Round(n, limit, at, After(n, limit, at, anchors, d - 1), d)
  }

  /** Otherwise no number of rounds reaches the bound: the first post stays out for ever. */
  lemma {:induction false} NeverEnds(posts: seq<Post>, target: Id, root: Id, limit: int, anchors: set<nat>, d: nat)
    requires !Ends(posts, target, root, limit)
    requires forall i :: i in anchors ==> i < |posts| && posts[i].id == root
    ensures 0 !in After(|posts|, limit, 0, anchors, d)
    ensures |After(|posts|, limit, 0, anchors, d)| < Min(limit, |posts|)
  {
    if d > 0 {
      NeverEnds(posts, target, root, limit, anchors, d - 1);
    }
    var all := After(|posts|, limit, 0, anchors, d);
    AfterWithin(|posts|, limit, anchors, d);
    Proper(all, |posts|);
  }

  lemma {:induction false} AfterWithin(n: nat, limit: int, anchors: set<nat>, d: nat)
    requires forall i :: i in anchors ==> i < n
    ensures forall i :: i in After(n, limit, 0, anchors, d) ==> i < n
  {
    if d > 0 {
      AfterWithin(n, limit, anchors, d - 1);
    }
  }

  lemma {:induction false} Proper(s: set<nat>, n: nat)
    requires 0 !in s && n > 0 && forall i :: i in s ==> i < n
    ensures |s| < n
  {
    if n > 1 {
      Proper(s - {n - 1}, n - 1);
      if n - 1 in s {
        assert s == (s - {n - 1}) + {n - 1};
      } else {
        assert s == s - {n - 1};
      }
    } else {
      assert s == {};
    }
  }
}
