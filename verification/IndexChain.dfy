/** The linked input indexes of a session (Store.verify_manifest and begin_run, internal/sandbox/files.py:336-365). */
module IndexChain {
  import opened Collections
  import opened Workspace
  import I = InputBatches

  /** verify_manifest: a manifest of this source whose frozen request is still the one it hashed. */
  predicate Verified(files: Files, p: Path, source: Id) {
    && p.ManifestPath? && p.anchor != 0
    && p in files && files[p].ManifestDoc?
    && files[p].manifest.schema == 1 && files[p].manifest.source == source && files[p].manifest.anchor == p.anchor
    && RequestPath(p.anchor) in files
    && Sha256(files[RequestPath(p.anchor)]) == files[p].manifest.requestHash
  }

  predicate AllVerified(files: Files, batches: seq<Path>, source: Id) {
    forall p :: p in batches ==> Verified(files, p, source)
  }

  /** A page that the walk accepts. */
  predicate Sound(files: Files, p: Path, source: Id) {
    && p.IndexPath? && p.run != 0
    && p in files && files[p].IndexDoc?
    && files[p].page.schema == 1
    && AllVerified(files, files[p].page.batches, source)
  }

  /** The pages reached from a reference; None when the walk meets an unsound page or one it has seen. */
  function Walk(files: Files, ref: Option<Path>, source: Id, seen: set<Path>): (paths: Option<seq<Path>>)
    ensures paths.Some? ==> forall p :: p in paths.value ==> Sound(files, p, source) && p !in seen
    decreases |files.Keys - seen|
  {
    if ref.None? then
      Some([])
    else if ref.value in seen || !Sound(files, ref.value, source) then
      None
    else
      assert files.Keys - (seen + {ref.value}) == (files.Keys - seen) - {ref.value};
      match Walk(files, files[ref.value].page.previous, source, seen + {ref.value})
      case None => None
      case Some(rest) => Some([ref.value] + rest)
  }

  function Batches(r: Request): seq<Path> {
    r.delivered + [ManifestPath(r.anchor)]
  }

  /** The first of begin_run's two writes. */
  function Paged(files: Files, run: Id, r: Request): Files {
    files[IndexPath(run) := IndexDoc(Page(1, r.previous, Batches(r)))]
  }

  function Begun(files: Files, run: Id, r: Request): Files {
    Paged(files, run, r)[CurrentRun := CurrentDoc(run, IndexPath(run), Outbox(run))]
  }

  /** What begin_run checks. */
  predicate Accepts(files: Files, run: Id, r: Request) {
    run != 0 && Walk(files, r.previous, r.source, {}).Some? && AllVerified(files, Batches(r), r.source)
  }

  // --- what that means on the documents ---

  /** A manifest of this source about its own batch, with the frozen request it was made for beside it. */
  ghost predicate Intact(files: Files, p: Path, source: Id) {
    && p.ManifestPath? && p.anchor != 0 && p in files && RequestPath(p.anchor) in files
    && exists m :: files[p] == ManifestDoc(m) && m.schema == 1 && m.source == source && m.anchor == p.anchor
         && m.requestHash == Sha256(files[RequestPath(p.anchor)])
  }

  /** An index page with intact batches that links to this one. */
  ghost predicate IsPage(files: Files, p: Path, source: Id, previous: Option<Path>) {
    && p.IndexPath? && p.run != 0 && p in files
    && exists page :: files[p] == IndexDoc(page) && page.schema == 1 && page.previous == previous
         && forall b :: b in page.batches ==> Intact(files, b, source)
  }

  /** Different pages, each linked to the next one and the last to none. */
  ghost predicate IsChain(files: Files, ref: Option<Path>, source: Id, chain: seq<Path>) {
    && (if chain == [] then ref == None else ref == Some(chain[0]))
    && (forall i :: 0 <= i < |chain| ==>
          IsPage(files, chain[i], source, Following(chain, i)))
    && forall i, j :: 0 <= i < j < |chain| ==> chain[i] != chain[j]
  }

  ghost function Following(chain: seq<Path>, i: nat): Option<Path> {
    if i + 1 < |chain| then Some(chain[i + 1]) else None
  }

  lemma VerifiedExactly(files: Files, p: Path, source: Id)
    ensures Verified(files, p, source) <==> Intact(files, p, source)
  {
  }

  lemma PageExactly(files: Files, p: Path, source: Id)
    ensures Sound(files, p, source) ==> files[p].IndexDoc? && IsPage(files, p, source, files[p].page.previous)
    ensures forall previous :: IsPage(files, p, source, previous) ==>
              Sound(files, p, source) && files[p].IndexDoc? && files[p].page.previous == previous
  {
    forall b: Path ensures Verified(files, b, source) <==> Intact(files, b, source) {
      VerifiedExactly(files, b, source);
    }
  }

  lemma {:induction false} WalkExactly(files: Files, ref: Option<Path>, source: Id, seen: set<Path>, chain: seq<Path>)
    ensures Walk(files, ref, source, seen) == Some(chain) <==>
            IsChain(files, ref, source, chain) && forall p :: p in chain ==> p !in seen
    decreases |files.Keys - seen|
  {
    if ref.Some? && chain != [] && ref.value !in seen && Sound(files, ref.value, source) {
      var p, rest := ref.value, chain[1..];
      PageExactly(files, p, source);
      hide Sound, IsPage;
      assert files.Keys - (seen + {p}) == (files.Keys - seen) - {p};
      WalkExactly(files, files[p].page.previous, source, seen + {p}, rest);
      ChainStep(files, p, source, chain);
      Unseen(chain, seen, p);
      hide IsChain;
      assert chain == [chain[0]] + rest;
      assert Walk(files, ref, source, seen) == Some(chain) <==>
        chain[0] == p && Walk(files, files[p].page.previous, source, seen + {p}) == Some(rest);
    } else if ref.Some? && chain != [] {
      PageExactly(files, ref.value, source);
      assert IsChain(files, ref, source, chain) ==> IsPage(files, chain[0], source, Following(chain, 0));
    }
  }

  lemma Unseen(chain: seq<Path>, seen: set<Path>, p: Path)
    requires chain != [] && p !in seen
    ensures chain[0] == p && p !in chain[1..] && (forall q :: q in chain[1..] ==> q !in seen) <==>
            chain[0] == p && (forall q :: q in chain[1..] ==> q !in seen + {p})
    ensures chain[0] == p ==>
              ((forall q :: q in chain ==> q !in seen) <==> forall q :: q in chain[1..] ==> q !in seen)
  {
    assert chain == [chain[0]] + chain[1..];
  }

  lemma ChainStep(files: Files, p: Path, source: Id, chain: seq<Path>)
    requires chain != [] && p in files && files[p].IndexDoc? && IsPage(files, p, source, files[p].page.previous)
    requires forall previous :: IsPage(files, p, source, previous) ==> files[p].page.previous == previous
    ensures IsChain(files, Some(p), source, chain) <==>
            chain[0] == p && p !in chain[1..] && IsChain(files, files[p].page.previous, source, chain[1..])
  {
    hide IsPage;
    var rest := chain[1..];
    forall i: nat ensures Following(rest, i) == Following(chain, i + 1) {
    }
    if IsChain(files, Some(p), source, chain) {
      assert IsPage(files, chain[0], source, Following(chain, 0));
      forall i | 0 <= i < |rest| ensures IsPage(files, rest[i], source, Following(rest, i)) {
        assert IsPage(files, chain[i + 1], source, Following(chain, i + 1));
      }
    }
    if chain[0] == p && p !in rest && IsChain(files, files[p].page.previous, source, rest) {
      forall i | 0 <= i < |chain| ensures IsPage(files, chain[i], source, Following(chain, i)) {
        if i > 0 {
          assert IsPage(files, rest[i - 1], source, Following(rest, i - 1));
        }
      }
    }
  }

  /** A run begins exactly when the chain from the previous index is one, and every batch it takes up is intact. */
  lemma BeginsExactly(files: Files, run: Id, r: Request)
    ensures Accepts(files, run, r) <==>
            && run != 0 && (exists chain :: IsChain(files, r.previous, r.source, chain))
            && (forall b :: b in r.delivered ==> Intact(files, b, r.source))
            && Intact(files, ManifestPath(r.anchor), r.source)
  {
    forall b: Path ensures Verified(files, b, r.source) <==> Intact(files, b, r.source) {
      VerifiedExactly(files, b, r.source);
    }
    forall chain ensures Walk(files, r.previous, r.source, {}) == Some(chain) <==>
                         IsChain(files, r.previous, r.source, chain) {
      WalkExactly(files, r.previous, r.source, {}, chain);
    }
    hide Verified, Intact, IsChain;
    assert AllVerified(files, Batches(r), r.source) <==>
      (forall b :: b in r.delivered ==> Intact(files, b, r.source)) && Intact(files, ManifestPath(r.anchor), r.source)
    by {
      assert ManifestPath(r.anchor) in Batches(r);
    }
    if Walk(files, r.previous, r.source, {}).Some? {
      assert IsChain(files, r.previous, r.source, Walk(files, r.previous, r.source, {}).value);
    }
  }

  method VerifyManifest(files: Files, p: Path, source: Id) returns (ok: bool)
    ensures ok == Verified(files, p, source)
    ensures ok <==> Intact(files, p, source)
  {
    VerifiedExactly(files, p, source);
    hide Intact;
    if !p.ManifestPath? || p.anchor == 0 || p !in files || !files[p].ManifestDoc? {
      return false;
    }
    var m := files[p].manifest;
    if m.schema != 1 || m.source != source || m.anchor != p.anchor || RequestPath(p.anchor) !in files {
      return false;
    }
    return Sha256(files[RequestPath(p.anchor)]) == m.requestHash;
  }

  method VerifyAll(files: Files, batches: seq<Path>, source: Id) returns (ok: bool)
    ensures ok == AllVerified(files, batches, source)
  {
    for i := 0 to |batches|
      invariant forall j :: 0 <= j < i ==> Verified(files, batches[j], source)
    {
      ok := VerifyManifest(files, batches[i], source);
      if !ok {
        return;
      }
    }
    return true;
  }

  /** begin_run: the whole chain is walked before the new page is linked to it. */
  method BeginRun(store: Store, run: Id, r: Request) returns (ok: bool)
    modifies store
    ensures ok <==> Accepts(old(store.files), run, r)
    ensures store.files == if ok then Begun(old(store.files), run, r) else old(store.files)
    ensures store.points == old(store.points) + if ok then {Paged(old(store.files), run, r), store.files} else {}
    ensures ok <==>
              && run != 0 && (exists chain :: IsChain(old(store.files), r.previous, r.source, chain))
              && (forall b :: b in r.delivered ==> Intact(old(store.files), b, r.source))
              && Intact(old(store.files), ManifestPath(r.anchor), r.source)
    ensures ok ==>
              store.files == old(store.files)
                             [IndexPath(run) := IndexDoc(Page(1, r.previous, r.delivered + [ManifestPath(r.anchor)]))]
                             [CurrentRun := CurrentDoc(run, IndexPath(run), Outbox(run))]
  {
    BeginsExactly(store.files, run, r);
    hide IsChain, Intact, Accepts;
    ok := Checks(store.files, run, r);
    if ok {
      store.Write(IndexPath(run), IndexDoc(Page(1, r.previous, Batches(r))));
      store.Write(CurrentRun, CurrentDoc(run, IndexPath(run), Outbox(run)));
    }
  }

  /** Its checks, before it writes anything. */
  method Checks(files: Files, run: Id, r: Request) returns (ok: bool)
    ensures ok <==> Accepts(files, run, r)
  {
    if run == 0 {
      return false;
    }
    var previous, seen := r.previous, {};
    ghost var trail: seq<Path> := [];
    PrefixedEmpty(Walk(files, r.previous, r.source, {}));
    while previous.Some?
      invariant Walk(files, r.previous, r.source, {}) == Prefixed(trail, Walk(files, previous, r.source, seen))
      decreases |files.Keys - seen|
    {
      var p := previous.value;
      if !p.IndexPath? || p.run == 0 || p in seen || p !in files || !files[p].IndexDoc? {
        return false;
      }
      var page := files[p].page;
      if page.schema != 1 {
        return false;
      }
      ok := VerifyAll(files, page.batches, r.source);
      if !ok {
        return;
      }
      assert files.Keys - (seen + {p}) == (files.Keys - seen) - {p};
      PrefixedStep(trail, p, Walk(files, page.previous, r.source, seen + {p}));
      seen := seen + {p};
      trail := trail + [p];
      previous := page.previous;
    }
    ok := VerifyAll(files, Batches(r), r.source);
  }

  function Prefixed(front: seq<Path>, rest: Option<seq<Path>>): Option<seq<Path>> {
    if rest.None? then None else Some(front + rest.value)
  }

  lemma PrefixedEmpty(rest: Option<seq<Path>>)
    ensures Prefixed([], rest) == rest
  {
    if rest.Some? {
      assert [] + rest.value == rest.value;
    }
  }

  lemma PrefixedStep(front: seq<Path>, p: Path, rest: Option<seq<Path>>)
    ensures Prefixed(front + [p], rest) == Prefixed(front, Prefixed([p], rest))
  {
    if rest.Some? {
      assert front + [p] + rest.value == front + ([p] + rest.value);
    }
  }

  // --- the chain as a whole ---

  /** Writing another run's page does not change what a page's batches verify to. */
  lemma VerifiedStays(files: Files, run: Id, r: Request, batches: seq<Path>, source: Id)
    ensures AllVerified(Begun(files, run, r), batches, source) == AllVerified(files, batches, source)
  {
    assert forall p :: p in batches ==> Verified(Begun(files, run, r), p, source) == Verified(files, p, source);
  }

  /** A chain that does not pass through the new page is walked as before, with more or fewer pages seen elsewhere. */
  lemma {:induction false} WalkElsewhere(
    files: Files, run: Id, r: Request, ref: Option<Path>, source: Id, seen: set<Path>, other: set<Path>)
    requires Walk(files, ref, source, seen).Some? && IndexPath(run) !in Walk(files, ref, source, seen).value
    requires forall p :: p in Walk(files, ref, source, seen).value ==> p !in other
    ensures Walk(Begun(files, run, r), ref, source, other) == Walk(files, ref, source, seen)
    decreases |files.Keys - seen|
  {
    if ref.Some? {
      var p := ref.value;
      assert files.Keys - (seen + {p}) == (files.Keys - seen) - {p};
      VerifiedStays(files, run, r, files[p].page.batches, source);
      WalkElsewhere(files, run, r, files[p].page.previous, source, seen + {p}, other + {p});
    }
  }

  /** Nothing is reached twice. */
  lemma {:induction false} WalkIsAcyclic(files: Files, ref: Option<Path>, source: Id, seen: set<Path>)
    requires Walk(files, ref, source, seen).Some?
    ensures forall i, j :: 0 <= i < j < |Walk(files, ref, source, seen).value| ==>
              Walk(files, ref, source, seen).value[i] != Walk(files, ref, source, seen).value[j]
    decreases |files.Keys - seen|
  {
    if ref.Some? {
      var p := ref.value;
      assert files.Keys - (seen + {p}) == (files.Keys - seen) - {p};
      WalkIsAcyclic(files, files[p].page.previous, source, seen + {p});
    }
  }

  /** In a workspace where this page was written, a walk that comes back to it fails. */
  lemma {:induction false} WalkReturns(
    files: Files, run: Id, r: Request, ref: Option<Path>, source: Id, seen: set<Path>, other: set<Path>)
    requires Walk(files, ref, source, seen).Some? && IndexPath(run) in Walk(files, ref, source, seen).value
    requires IndexPath(run) in other
    ensures Walk(Begun(files, run, r), ref, source, other).None?
    decreases |files.Keys - seen|
  {
    var p := ref.value;
    if p != IndexPath(run) && p !in other {
      assert files.Keys - (seen + {p}) == (files.Keys - seen) - {p};
      WalkReturns(files, run, r, files[p].page.previous, source, seen + {p}, other + {p});
    }
  }

  /** After begin_run succeeds, the next walk from the new page succeeds exactly when the run was not on the chain it
      linked to; then it reaches the new page and everything before it. */
  lemma LinkedExactly(files: Files, run: Id, r: Request)
    requires Accepts(files, run, r)
    ensures var chain := Walk(files, r.previous, r.source, {}).value;
            var next := Walk(Begun(files, run, r), Some(IndexPath(run)), r.source, {});
            && (next.Some? <==> IndexPath(run) !in chain)
            && (next.Some? ==> next.value == [IndexPath(run)] + chain)
  {
    var after, p := Begun(files, run, r), IndexPath(run);
    VerifiedStays(files, run, r, Batches(r), r.source);
    assert Sound(after, p, r.source) && after[p].page.previous == r.previous;
    assert {} + {p} == {p};
    if p in Walk(files, r.previous, r.source, {}).value {
      WalkReturns(files, run, r, r.previous, r.source, {}, {p});
    } else {
      WalkElsewhere(files, run, r, r.previous, r.source, {}, {p});
    }
  }

  // --- between two runs ---

  /** Preparing or importing a batch, or failing to, leaves every verified manifest verified, its own included. */
  lemma VerifiedKept(before: Files, after: Files, r: Request, p: Path, source: Id)
    requires Hashed(before) && Hashed(after) && OnlyBatch(before, after, r)
    requires Verified(before, p, source)
    ensures Verified(after, p, source)
  {
    assert p in after && RequestPath(p.anchor) in after;
  }

  lemma SoundKept(before: Files, after: Files, r: Request, p: Path, source: Id)
    requires Hashed(before) && Hashed(after) && OnlyBatch(before, after, r)
    requires Sound(before, p, source)
    ensures Sound(after, p, source) && after[p] == before[p]
  {
    assert p in after && after[p] == before[p];
    hide OnlyBatch, Hashed, Verified;
    forall b | b in after[p].page.batches ensures Verified(after, b, source) {
      VerifiedKept(before, after, r, b, source);
    }
  }

  /** So the chain is walked as before. */
  lemma {:induction false} WalkKept(
    before: Files, after: Files, r: Request, ref: Option<Path>, source: Id, seen: set<Path>)
    requires Hashed(before) && Hashed(after) && OnlyBatch(before, after, r)
    requires Walk(before, ref, source, seen).Some?
    ensures Walk(after, ref, source, seen) == Walk(before, ref, source, seen)
    decreases |before.Keys - seen|
  {
    hide OnlyBatch, Hashed, Sound;
    if ref.Some? {
      var p := ref.value;
      SoundKept(before, after, r, p, source);
      PageIsIndex(before, p, source);
      assert before.Keys - (seen + {p}) == (before.Keys - seen) - {p};
      WalkKept(before, after, r, before[p].page.previous, source, seen + {p});
    }
  }

  lemma PageIsIndex(files: Files, p: Path, source: Id)
    requires Sound(files, p, source)
    ensures p.IndexPath? && p in files && files[p].IndexDoc?
  {
  }

  /** What prepare leaves is verified. */
  lemma PreparedIsVerified(files: Files, r: Request, entries: seq<InputFile>)
    requires Hashed(files) && r.anchor != 0
    requires ManifestPath(r.anchor) in files && files[ManifestPath(r.anchor)] == ManifestDoc(I.Batch(r, entries))
    ensures Verified(files, ManifestPath(r.anchor), r.source)
  {
  }

  /** The prepare-input hook. It never stumbles over the chain: the run begins whenever the batch can be prepared and
      the chain and the delivered batches were sound before. */
  method BeforeRun(store: Store, remote: I.Remote, run: Id, r: Request, ghost contents: map<Id, Data>)
    returns (ok: bool, ghost mid: Files)
    requires I.Consistent(store.files, contents, true) && I.Honest(remote, contents)
    modifies store
    ensures OnlyBatch(old(store.files), mid, r) && Hashed(mid)
    ensures ok <==> ValidRequest(r) && !I.Conflicts(old(store.files), r) && Accepts(mid, run, r)
    ensures store.files == if ok then Begun(mid, run, r) else mid
    ensures (run != 0 && ValidRequest(r) && !I.Conflicts(old(store.files), r)
             && Walk(old(store.files), r.previous, r.source, {}).Some? &&
                  AllVerified(old(store.files), r.delivered, r.source)) ==> ok
  {
    var manifest, hits := I.Prepare(store, remote, r, contents);
    mid := store.files;
    if manifest.None? {
      return false, mid;
    }
    PreparedAccepts(old(store.files), mid, run, r, manifest.value.files);
    ok := BeginRun(store, run, r);
  }

  lemma PreparedAccepts(before: Files, after: Files, run: Id, r: Request, entries: seq<InputFile>)
    requires Hashed(before) && Hashed(after) && OnlyBatch(before, after, r) && r.anchor != 0
    requires ManifestPath(r.anchor) in after && after[ManifestPath(r.anchor)] == ManifestDoc(I.Batch(r, entries))
    ensures (run != 0 && Walk(before, r.previous, r.source, {}).Some? && AllVerified(before, r.delivered, r.source))
            ==> Accepts(after, run, r)
  {
    PreparedIsVerified(after, r, entries);
    hide OnlyBatch, Hashed, Verified, Walk;
    if Walk(before, r.previous, r.source, {}).Some? && AllVerified(before, r.delivered, r.source) {
      WalkKept(before, after, r, r.previous, r.source, {});
      forall b | b in Batches(r) ensures Verified(after, b, r.source) {
        if b in r.delivered {
          VerifiedKept(before, after, r, b, r.source);
        }
      }
    }
  }
}
