/** Which posts of the thread accompany a batch (initialContext, internal/conversation/context.go:172-208). */
module Context {
  import opened Thread

  /** The posts with an identity in the set, in order. */
  function Chosen(posts: seq<Post>, ids: set<Id>): seq<Post> {
    if posts == [] then []
    else Chosen(posts[..|posts| - 1], ids) + if posts[|posts| - 1].id in ids then [posts[|posts| - 1]] else []
  }

  function Cost(posts: seq<Post>, cost: Post -> nat): nat {
    if posts == [] then 0 else Cost(posts[..|posts| - 1], cost) + cost(posts[|posts| - 1])
  }

  /** A selection holds what must be there, and beyond that no more than the budget. */
  ghost predicate Affordable(
    posts: seq<Post>, ids: set<Id>, required: set<Id>, cost: Post -> nat, budget: nat, used: nat)
  {
    && (forall id :: id in ids ==> exists p :: p in posts && p.id == id)
    && used == Cost(Chosen(posts, ids), cost)
    && used <= budget + Cost(Chosen(posts, ids * required), cost)
  }

  lemma {:induction false} ChosenSame(posts: seq<Post>, a: set<Id>, b: set<Id>)
    requires forall p :: p in posts ==> (p.id in a <==> p.id in b)
    ensures Chosen(posts, a) == Chosen(posts, b)
  {
    if posts != [] {
      ChosenSame(posts[..|posts| - 1], a, b);
    }
  }

  /** Selecting one more post adds its cost. */
  lemma {:induction false} ChosenAdds(posts: seq<Post>, ids: set<Id>, i: nat, cost: Post -> nat)
    requires DistinctIds(posts) && i < |posts| && posts[i].id !in ids
    ensures Cost(Chosen(posts, ids + {posts[i].id}), cost) == Cost(Chosen(posts, ids), cost) + cost(posts[i])
  {
    var last := |posts| - 1;
    var front := posts[..last];
    if i < last {
      ChosenAdds(front, ids, i, cost);
      CostAppend(Chosen(front, ids), posts[last], cost);
      CostAppend(Chosen(front, ids + {posts[i].id}), posts[last], cost);
      assert front[i] == posts[i];
    } else {
      ChosenSame(front, ids, ids + {posts[i].id});
      CostAppend(Chosen(front, ids), posts[last], cost);
    }
  }

  lemma CostAppend(posts: seq<Post>, p: Post, cost: Post -> nat)
    ensures Cost(posts + [p], cost) == Cost(posts, cost) + cost(p)
    ensures posts + [] == posts
  {
    assert (posts + [p])[..|posts|] == posts;
  }

  lemma {:induction false} ChosenMembers(posts: seq<Post>, ids: set<Id>)
    ensures forall p :: p in Chosen(posts, ids) <==> p in posts && p.id in ids
  {
    if posts != [] {
      ChosenMembers(posts[..|posts| - 1], ids);
      assert posts == posts[..|posts| - 1] + [posts[|posts| - 1]];
    }
  }

  // --- the order of preference ---

  /** Required posts and the root, in thread order. */
  function Firsts(posts: seq<Post>, n: nat, required: set<Id>, root: Id): seq<nat>
    requires n <= |posts|
  {
    if n == 0 then []
    else Firsts(posts, n - 1, required, root) + if posts[n - 1].id in required ||
        posts[n - 1].id == root then [n - 1] else []
  }

  function Range(lo: nat, hi: nat): seq<nat> {
    if lo >= hi then [] else Range(lo, hi - 1) + [hi - 1]
  }

  function Low(i: nat): nat {
    if i < 3 then 0 else i - 3
  }

  function High(i: nat, n: nat): nat {
    if i + 4 < n then i + 4 else n
  }

  /** The three posts before and after each required one. */
  function Around(posts: seq<Post>, n: nat, required: set<Id>): seq<nat>
    requires n <= |posts|
  {
    if n == 0 then []
    else Around(posts, n - 1, required) + if posts[n - 1].id in required then Range(Low(n - 1), High(n - 1, |posts|))
        else []
  }

  /** The posts from the latest back to the i-th. */
  function Latest(n: nat, i: nat): seq<nat>
    decreases n - i
  {
    if i >= n then [] else Latest(n, i + 1) + [i]
  }

  function Order(posts: seq<Post>, required: set<Id>, root: Id): seq<nat> {
    Firsts(posts, |posts|, required, root) + Around(posts, |posts|, required) + Latest(|posts|, 0)
  }

  ghost predicate Indices(posts: seq<Post>, order: seq<nat>) {
    forall k :: 0 <= k < |order| ==> order[k] < |posts|
  }

  /** What the order is: the required posts and the root in thread order, then around each required post the three
      before and after it, then every post from the latest to the first. */
  lemma OrderExactly(posts: seq<Post>, required: set<Id>, root: Id)
    returns (firsts: seq<nat>, around: seq<nat>, latest: seq<nat>)
    ensures Order(posts, required, root) == firsts + around + latest
    ensures forall i: nat :: i in firsts <==> i < |posts| && (posts[i].id in required || posts[i].id == root)
    ensures forall a, b :: 0 <= a < b < |firsts| ==> firsts[a] < firsts[b]
    ensures forall j: nat :: j in around <==>
              j < |posts| && exists i: nat :: i < |posts| && posts[i].id in required && j - 3 <= i <= j + 3
    ensures |latest| == |posts| && forall k :: 0 <= k < |posts| ==> latest[k] == |posts| - 1 - k
  {
    firsts, around, latest := Firsts(posts, |posts|, required, root), Around(posts, |posts|, required),
        Latest(|posts|, 0);
    FirstsExactly(posts, |posts|, required, root);
    AroundExactly(posts, |posts|, required);
    LatestExactly(|posts|, 0);
  }

  lemma {:induction false} FirstsExactly(posts: seq<Post>, n: nat, required: set<Id>, root: Id)
    requires n <= |posts|
    ensures var firsts := Firsts(posts, n, required, root);
            && (forall i: nat :: i in firsts <==> i < n && (posts[i].id in required || posts[i].id == root))
            && forall a, b :: 0 <= a < b < |firsts| ==> firsts[a] < firsts[b]
  {
    if n > 0 {
      FirstsExactly(posts, n - 1, required, root);
      var front := Firsts(posts, n - 1, required, root);
      assert forall a :: 0 <= a < |front| ==> front[a] in front;
    }
  }

  lemma {:induction false} RangeExactly(lo: nat, hi: nat)
    requires lo <= hi
    ensures |Range(lo, hi)| == hi - lo && forall k :: 0 <= k < hi - lo ==> Range(lo, hi)[k] == lo + k
    ensures forall i: nat :: i in Range(lo, hi) <==> lo <= i < hi
  {
    if lo < hi {
      RangeExactly(lo, hi - 1);
    }
  }

  lemma {:induction false} AroundExactly(posts: seq<Post>, n: nat, required: set<Id>)
    requires n <= |posts|
    ensures forall j: nat :: j in Around(posts, n, required) <==>
              j < |posts| && exists i: nat :: i < n && posts[i].id in required && j - 3 <= i <= j + 3
  {
    if n > 0 {
      AroundExactly(posts, n - 1, required);
      RangeExactly(Low(n - 1), High(n - 1, |posts|));
    }
  }

  lemma {:induction false} LatestExactly(n: nat, i: nat)
    requires i <= n
    ensures |Latest(n, i)| == n - i && forall k :: 0 <= k < n - i ==> Latest(n, i)[k] == n - 1 - k
    decreases n - i
  {
    if i < n {
      LatestExactly(n, i + 1);
    }
  }

  /** A post is taken when it is required or still fits. */
  function Take(posts: seq<Post>, ids: set<Id>, i: nat, required: set<Id>, cost: Post -> nat, budget: nat): set<Id>
    requires i < |posts|
  {
    if posts[i].id in required || Cost(Chosen(posts, ids), cost) + cost(posts[i]) <= budget || posts[i].id in ids
    then ids + {posts[i].id} else ids
  }

  /** The selection after the posts have been offered in this order. */
  ghost function Greedy(posts: seq<Post>, order: seq<nat>, required: set<Id>, cost: Post -> nat, budget: nat): set<Id>
    requires Indices(posts, order)
  {
    if order == [] then {}
    else Take(posts, Greedy(posts, order[..|order| - 1], required, cost, budget), order[|order| - 1], required, cost,
        budget)
  }

  lemma GreedyStep(posts: seq<Post>, order: seq<nat>, i: nat, required: set<Id>, cost: Post -> nat, budget: nat)
    requires Indices(posts, order) && i < |posts|
    ensures Indices(posts, order + [i])
    ensures Greedy(posts, order + [i], required, cost, budget) ==
            Take(posts, Greedy(posts, order, required, cost, budget), i, required, cost, budget)
  {
    assert (order + [i])[..|order|] == order;
  }

  lemma {:induction false} ChosenGrows(posts: seq<Post>, a: set<Id>, b: set<Id>, cost: Post -> nat)
    requires a <= b
    ensures Cost(Chosen(posts, a), cost) <= Cost(Chosen(posts, b), cost)
  {
    if posts != [] {
      var last := |posts| - 1;
      ChosenGrows(posts[..last], a, b, cost);
      CostAppend(Chosen(posts[..last], a), posts[last], cost);
      CostAppend(Chosen(posts[..last], b), posts[last], cost);
    }
  }

  lemma {:induction false} GreedyGrows(
    posts: seq<Post>, order: seq<nat>, k: nat, required: set<Id>, cost: Post -> nat, budget: nat)
    requires Indices(posts, order) && k <= |order|
    ensures Greedy(posts, order[..k], required, cost, budget) <= Greedy(posts, order, required, cost, budget)
    decreases |order| - k
  {
    if k < |order| {
      GreedyStep(posts, order[..k], order[k], required, cost, budget);
      assert order[..k] + [order[k]] == order[..k + 1];
      GreedyGrows(posts, order, k + 1, required, cost, budget);
    } else {
      assert order[..k] == order;
    }
  }

  /** The order decides: a post is selected exactly when it is required or fits beside what was offered before it and
      selected. */
  lemma {:induction false} PreferredFirst(
    posts: seq<Post>, order: seq<nat>, k: nat, required: set<Id>, cost: Post -> nat, budget: nat)
    requires Indices(posts, order) && k < |order| && DistinctIds(posts)
    ensures var before := Greedy(posts, order[..k], required, cost, budget);
            var p := posts[order[k]];
            p.id in Greedy(posts, order, required, cost, budget) <==>
            p.id in required || p.id in before || Cost(Chosen(posts, before), cost) + cost(p) <= budget
  {
    var p := posts[order[k]];
    var before := Greedy(posts, order[..k], required, cost, budget);
    hide Cost, Chosen;
    GreedyStep(posts, order[..k], order[k], required, cost, budget);
    assert order[..k] + [order[k]] == order[..k + 1];
    GreedyGrows(posts, order, k + 1, required, cost, budget);
    if p.id !in Greedy(posts, order[..k + 1], required, cost, budget) {
      NotLater(posts, order, k + 1, p, required, cost, budget);
    }
  }

  /** What does not fit once does not fit later. */
  lemma {:induction false} NotLater(
    posts: seq<Post>, order: seq<nat>, k: nat, p: Post, required: set<Id>, cost: Post -> nat, budget: nat)
    requires Indices(posts, order) && k <= |order| && DistinctIds(posts) && p in posts && p.id !in required
    requires p.id !in Greedy(posts, order[..k], required, cost, budget)
    requires Cost(Chosen(posts, Greedy(posts, order[..k], required, cost, budget)), cost) + cost(p) > budget
    ensures p.id !in Greedy(posts, order, required, cost, budget)
    decreases |order| - k
  {
    hide Cost, Chosen;
    if k < |order| {
      GreedyStep(posts, order[..k], order[k], required, cost, budget);
      assert order[..k] + [order[k]] == order[..k + 1];
      ChosenGrows(posts, Greedy(posts, order[..k], required, cost, budget),
          Greedy(posts, order[..k + 1], required, cost, budget), cost);
      NotLater(posts, order, k + 1, p, required, cost, budget);
    } else {
      assert order[..k] == order;
    }
  }

  /** The closure `add`. */
  method Add(
    posts: seq<Post>, i: nat, must: bool, ids: set<Id>, used: nat, ghost order: seq<nat>, ghost required: set<Id>,
    cost: Post -> nat, budget: nat)
    returns (more: set<Id>, spent: nat, ghost offered: seq<nat>)
    requires DistinctIds(posts) && i < |posts| && Affordable(posts, ids, required, cost, budget, used)
    requires Indices(posts, order) && ids == Greedy(posts, order, required, cost, budget)
    requires must ==> posts[i].id in required
    requires !must && posts[i].id in required ==> posts[i].id in ids
    ensures Affordable(posts, more, required, cost, budget, spent) && ids <= more
    ensures offered == order + [i] && Indices(posts, offered) && more == Greedy(posts, offered, required, cost, budget)
    ensures must ==> posts[i].id in more
    ensures spent >= used && (posts[i].id in more || spent + cost(posts[i]) > budget)
  {
    var p := posts[i];
    more, spent, offered := ids, used, order + [i];
    GreedyStep(posts, order, i, required, cost, budget);
    hide Greedy;
    if p.id in ids {
      assert ids + {p.id} == ids;
    }
    if !must && used + cost(p) > budget {
      return;
    }
    if p.id in ids {
      return;
    }
    more, spent := ids + {p.id}, used + cost(p);
    ChosenAdds(posts, ids, i, cost);
    if p.id in required {
      assert more * required == (ids * required) + {p.id};
      ChosenAdds(posts, ids * required, i, cost);
    } else {
      assert more * required == ids * required;
    }
  }

  /** initialContext: the root and every required post, then neighbours, then the latest, in thread order, within the
      budget as far as the required posts allow, and so that no post left out would still fit. */
  method InitialContext(posts: seq<Post>, required: set<Id>, root: Id, cost: Post -> nat, budget: nat)
    returns (result: seq<Post>, ghost ids: set<Id>)
    requires DistinctIds(posts)
    ensures result == Chosen(posts, ids)
    ensures Indices(posts, Order(posts, required, root)) &&
              ids == Greedy(posts, Order(posts, required, root), required, cost, budget)
    ensures forall p :: p in posts && p.id in required ==> p in result
    ensures Cost(result, cost) <= budget + Cost(Chosen(posts, ids * required), cost)
    ensures forall p :: p in posts && p !in result ==> Cost(result, cost) + cost(p) > budget
  {
    hide Cost, Chosen, Greedy, Affordable, Indices, Take;
    var selected: set<Id>, used := {}, 0;
    ghost var order: seq<nat> := [];
    NothingChosen(posts, required, cost);
    Started(posts, required, cost, budget);
    for i := 0 to |posts|
      invariant Affordable(posts, selected, required, cost, budget, used)
      invariant Indices(posts, order) && selected == Greedy(posts, order, required, cost, budget)
      invariant order == Firsts(posts, i, required, root)
      invariant forall j :: 0 <= j < i && posts[j].id in required ==> posts[j].id in selected
    {
      if posts[i].id in required || posts[i].id == root {
        selected, used, order := Add(posts, i, posts[i].id in required, selected, used, order, required, cost, budget);
      } else {
        assert order + [] == order;
      }
    }
    ghost var mandatory, firsts := selected, order;
    assert firsts + Around(posts, 0, required) == firsts;
    for i := 0 to |posts|
      invariant Affordable(posts, selected, required, cost, budget, used) && mandatory <= selected
      invariant Indices(posts, order) && selected == Greedy(posts, order, required, cost, budget)
      invariant order == firsts + Around(posts, i, required)
    {
      if posts[i].id in required {
        ghost var around := order;
        assert around + Range(Low(i), Low(i)) == around;
        for j := Low(i) to High(i, |posts|)
          invariant Affordable(posts, selected, required, cost, budget, used) && mandatory <= selected
          invariant Indices(posts, order) && selected == Greedy(posts, order, required, cost, budget)
          invariant order == around + Range(Low(i), j)
        {
          selected, used, order := Add(posts, j, false, selected, used, order, required, cost, budget);
          Regroup(around, Range(Low(i), j), [j]);
        }
        Regroup(firsts, Around(posts, i, required), Range(Low(i), High(i, |posts|)));
      } else {
        assert Around(posts, i + 1, required) == Around(posts, i, required);
      }
    }
    ghost var offered := order;
    assert offered + Latest(|posts|, |posts|) == offered;
    for i := |posts| downto 0
      invariant Affordable(posts, selected, required, cost, budget, used) && mandatory <= selected
      invariant Indices(posts, order) && selected == Greedy(posts, order, required, cost, budget)
      invariant order == offered + Latest(|posts|, i)
      invariant forall j :: i <= j < |posts| ==> posts[j].id in selected || used + cost(posts[j]) > budget
    {
      selected, used, order := Add(posts, i, false, selected, used, order, required, cost, budget);
      Regroup(offered, Latest(|posts|, i + 1), [i]);
    }
    ids := selected;
    result := Choose(posts, selected);
    Spent(posts, ids, required, cost, budget, used);
    ChosenMembers(posts, ids);
  }

  lemma Started(posts: seq<Post>, required: set<Id>, cost: Post -> nat, budget: nat)
    requires Chosen(posts, {}) == [] && Cost([], cost) == 0
    ensures Affordable(posts, {}, required, cost, budget, 0)
    ensures Indices(posts, []) && Greedy(posts, [], required, cost, budget) == {}
  {
  }

  lemma Spent(posts: seq<Post>, ids: set<Id>, required: set<Id>, cost: Post -> nat, budget: nat, used: nat)
    requires Affordable(posts, ids, required, cost, budget, used)
    ensures used == Cost(Chosen(posts, ids), cost) <= budget + Cost(Chosen(posts, ids * required), cost)
  {
  }

  lemma Regroup(a: seq<nat>, b: seq<nat>, c: seq<nat>)
    ensures a + b + c == a + (b + c)
  {
  }

  method Choose(posts: seq<Post>, ids: set<Id>) returns (result: seq<Post>)
    ensures result == Chosen(posts, ids)
  {
    result := [];
    for i := 0 to |posts|
      invariant result == Chosen(posts[..i], ids)
    {
      assert posts[..i + 1][..i] == posts[..i];
      if posts[i].id in ids {
        result := result + [posts[i]];
      }
    }
    assert posts[..|posts|] == posts;
  }

  lemma {:induction false} NothingChosen(posts: seq<Post>, required: set<Id>, cost: Post -> nat)
    ensures Chosen(posts, {}) == [] && Chosen(posts, {} * required) == [] && Cost([], cost) == 0
  {
    if posts != [] {
      NothingChosen(posts[..|posts| - 1], required, cost);
    }
    assert {} * required == {};
  }
}
