/** Preparing the files of a batch (Store.batch, cached, save_file and prepare, internal/sandbox/files.py:233-306, with
    inspect_input, :480-490). */
module InputBatches {
  import opened Collections
  import opened Names
  import opened Workspace

  datatype PostInfo = PostInfo(deleted: bool, channel: Id, files: seq<Id>)
  datatype FileInfo = FileInfo(id: Id, post: Id, mime: string, size: int)

  // What the chat server answers during one preparation; a missing entry is an error.
  datatype Remote = Remote(posts: map<Id, PostInfo>, infos: map<Id, FileInfo>, data: map<Id, Data>)

  datatype Inspection = Found(info: FileInfo) | Refused(status: Status)

  /** inspect_input. */
  function Inspect(remote: Remote, limits: Limits, f: InputFile): Inspection {
    if f.post !in remote.posts || remote.posts[f.post].deleted || remote.posts[f.post].channel != f.channel
       || f.file !in remote.posts[f.post].files then
      Refused(Unavailable)
    else if f.file !in remote.infos || remote.infos[f.file].post != f.post || remote.infos[f.file].id != f.file then
      Refused(Unavailable)
    else if 0 <= remote.infos[f.file].size <= SizeLimit(limits, remote.infos[f.file].mime) then
      Found(remote.infos[f.file])
    else
      Refused(FileLimit)
  }

  predicate Downloads(data: map<Id, Data>, info: FileInfo, id: Id) {
    id in data && |data[id]| == info.size
  }

  function Filled(f: InputFile, mime: string, data: Data): InputFile {
    f.(size := |data|, mime := mime, sha := Some(Sha256(Raw(data))), status := Ready)
  }

  /** The manifest entry of a file on an empty cache; `total` is what earlier files used, `count` how many of the post's
      files came so far, this one included. */
  function Entry(remote: Remote, limits: Limits, original: InputFile, total: int, count: nat): InputFile {
    var f := if count > limits.maxPerPost then original.(status := FileLimit) else original;
    if !f.status.Unset? && !f.status.Ready? then
      f
    else if !(0 <= f.size <= limits.maxBatch - total) then
      f.(status := BatchLimit)
    else
      match Inspect(remote, limits, f)
      case Refused(status) => f.(status := status)
      case Found(info) =>
        if info.size > limits.maxBatch - total then f.(status := BatchLimit)
        else if Downloads(remote.data, info, f.file) then Filled(f, info.mime, remote.data[f.file])
        else f.(status := DownloadFailed)
  }

  function Used(entries: seq<InputFile>): int {
    if entries == [] then 0
    else Used(entries[..|entries| - 1]) + if entries[|entries| - 1].status.Ready? then entries[|entries| - 1].size
        else 0
  }

  function CountOf(files: seq<InputFile>, post: Id): nat {
    if files == [] then 0 else CountOf(files[..|files| - 1], post) + if files[|files| - 1].post == post then 1 else 0
  }

  function ReadyOf(entries: seq<InputFile>, post: Id): nat {
    if entries == [] then 0
    else ReadyOf(entries[..|entries| - 1], post)
         + if entries[|entries| - 1].post == post && entries[|entries| - 1].status.Ready? then 1 else 0
  }

  /** The entries of a manifest when the files in `hits` come from the cache and the others from the server. */
  function Entries(
    remote: Remote, contents: map<Id, Data>, limits: Limits, files: seq<InputFile>,
        hits: set<nat>): (entries: seq<InputFile>)
    ensures |entries| == |files|
  {
    if files == [] then
      []
    else
      var n := |files| - 1;
      var before := Entries(remote, contents, limits, files[..n], hits);
      before + [Entry(if n in hits then remote.(data := contents) else remote, limits, files[n], Used(before),
          CountOf(files, files[n].post))]
  }

  // --- what a manifest promises ---

  ghost predicate IsTrue(e: InputFile, contents: map<Id, Data>, limits: Limits) {
    e.status.Ready? ==>
      && IsRecord(e, e.file, contents)
      && e.size <= SizeLimit(limits, e.mime)
  }

  /** The bytes on the server are the immutable contents. */
  ghost predicate Honest(remote: Remote, contents: map<Id, Data>) {
    forall id :: id in remote.data ==> id in contents && contents[id] == remote.data[id]
  }

  lemma EntryKeepsLimits(remote: Remote, contents: map<Id, Data>, limits: Limits, f: InputFile, total: int, count: nat)
    requires Honest(remote, contents)
    ensures var e := Entry(remote, limits, f, total, count);
            && IsTrue(e, contents, limits) && Same(e, f)
            && (e.status.Ready? ==> 0 <= e.size <= limits.maxBatch - total && count <= limits.maxPerPost)
  {
  }

  /** Ready entries carry the true size and digest, and fit their limits one by one and together. */
  lemma {:induction false} EntriesKeepLimits(
    remote: Remote, contents: map<Id, Data>, limits: Limits, files: seq<InputFile>, hits: set<nat>)
    requires Honest(remote, contents) && limits.maxBatch >= 0
    ensures var entries := Entries(remote, contents, limits, files, hits);
            && 0 <= Used(entries) <= limits.maxBatch
            && forall i :: 0 <= i < |files| ==> IsTrue(entries[i], contents, limits) && Same(entries[i], files[i])
  {
    hide Entry, IsTrue, Same;
    if files != [] {
      var n := |files| - 1;
      EntriesKeepLimits(remote, contents, limits, files[..n], hits);
      var before, entries := Entries(remote, contents, limits, files[..n], hits),
          Entries(remote, contents, limits, files, hits);
      EntryKeepsLimits(if n in hits then remote.(data := contents) else remote, contents, limits, files[n],
          Used(before), CountOf(files, files[n].post));
      assert entries[..n] == before;
      forall i | 0 <= i < n ensures IsTrue(entries[i], contents, limits) && Same(entries[i], files[i]) {
        assert entries[i] == before[i] && files[i] == files[..n][i];
      }
    }
  }

  /** No more of a post's files are ready than the limit allows. */
  lemma {:induction false} EntriesKeepCount(
    remote: Remote, contents: map<Id, Data>, limits: Limits, files: seq<InputFile>, hits: set<nat>, post: Id)
    requires Honest(remote, contents) && limits.maxPerPost >= 0
    ensures var ready := ReadyOf(Entries(remote, contents, limits, files, hits), post);
            ready <= limits.maxPerPost && ready <= CountOf(files, post)
  {
    hide Entry, IsTrue;
    if files != [] {
      var n := |files| - 1;
      EntriesKeepCount(remote, contents, limits, files[..n], hits, post);
      var before, entries := Entries(remote, contents, limits, files[..n], hits),
          Entries(remote, contents, limits, files, hits);
      EntryKeepsLimits(if n in hits then remote.(data := contents) else remote, contents, limits, files[n],
          Used(before), CountOf(files, files[n].post));
      assert entries[..n] == before;
    }
  }

  // --- the same, read off the request and the server ---

  /** The post is there, in its channel, and has the file, and the server describes that file as the post's. */
  ghost predicate Listed(remote: Remote, f: InputFile) {
    && f.post in remote.posts && !remote.posts[f.post].deleted && remote.posts[f.post].channel == f.channel
    && f.file in remote.posts[f.post].files
    && f.file in remote.infos && remote.infos[f.file].post == f.post && remote.infos[f.file].id == f.file
  }

  /** Images have a limit of their own. */
  ghost predicate SizeAllowed(limits: Limits, mime: string, size: int) {
    && 0 <= size
    && (|mime| >= 6 && mime[..6] == "image/" ==> size <= limits.maxImage)
    && (|mime| < 6 || mime[..6] != "image/" ==> size <= limits.maxFile)
  }

  /** What the manifest says of one file, when `total` bytes are taken and it is its post's `count`th. */
  ghost predicate Judged(remote: Remote, limits: Limits, f: InputFile, total: int, count: nat, e: InputFile) {
    && (count > limits.maxPerPost ==> e == f.(status := FileLimit))
    && (count <= limits.maxPerPost && f.status != Unset && f.status != Ready ==> e == f)
    && (count <= limits.maxPerPost && (f.status == Unset || f.status == Ready) ==>
          var fits := 0 <= f.size <= limits.maxBatch - total;
          && (!fits ==> e == f.(status := BatchLimit))
          && (fits && !Listed(remote, f) ==> e == f.(status := Unavailable))
          && (fits && Listed(remote, f) ==>
                var info := remote.infos[f.file];
                var allowed := SizeAllowed(limits, info.mime, info.size);
                var left := info.size <= limits.maxBatch - total;
                var served := f.file in remote.data && |remote.data[f.file]| == info.size;
                && (!allowed ==> e == f.(status := FileLimit))
                && (allowed && !left ==> e == f.(status := BatchLimit))
                && (allowed && left && !served ==> e == f.(status := DownloadFailed))
                && (allowed && left && served ==>
                      e == f.(size := info.size, mime := info.mime, status := Ready,
                              sha := Some(Sha256(Raw(remote.data[f.file])))))))
  }

  lemma EntryJudged(remote: Remote, limits: Limits, f: InputFile, total: int, count: nat)
    ensures Judged(remote, limits, f, total, count, Entry(remote, limits, f, total, count))
  {
  }

  /** The bytes of the ready entries. */
  ghost function ReadyBytes(entries: seq<InputFile>): int {
    if entries == [] then 0
    else (if entries[0].status == Ready then entries[0].size else 0) + ReadyBytes(entries[1..])
  }

  lemma {:induction false} UsedIsReady(entries: seq<InputFile>)
    ensures Used(entries) == ReadyBytes(entries)
  {
    if entries != [] {
      var last := |entries| - 1;
      UsedIsReady(entries[..last]);
      ReadyAppend(entries[..last], entries[last]);
      assert entries == entries[..last] + [entries[last]];
    }
  }

  lemma {:induction false} ReadyAppend(entries: seq<InputFile>, e: InputFile)
    ensures ReadyBytes(entries + [e]) == ReadyBytes(entries) + if e.status == Ready then e.size else 0
  {
    if entries == [] {
      assert ([] + [e])[1..] == [];
    } else {
      ReadyAppend(entries[1..], e);
      assert (entries + [e])[1..] == entries[1..] + [e];
    }
  }

  /** The files of one post. */
  ghost function FilesOf(files: seq<InputFile>, post: Id): set<nat> {
    set i: nat | i < |files| && files[i].post == post
  }

  lemma {:induction false} CountIsSize(files: seq<InputFile>, post: Id)
    ensures CountOf(files, post) == |FilesOf(files, post)|
  {
    if files == [] {
      assert FilesOf(files, post) == {};
    } else {
      var last := |files| - 1;
      CountIsSize(files[..last], post);
      assert forall i: nat :: i < last ==> files[..last][i] == files[i];
      assert FilesOf(files, post) == FilesOf(files[..last], post) + if files[last].post == post then {last} else {};
    }
  }

  /** One entry of a manifest, with its bytes from the cache if it is among `hits`. */
  ghost predicate JudgedAt(
    remote: Remote, contents: map<Id, Data>, limits: Limits, files: seq<InputFile>, hits: set<nat>,
    entries: seq<InputFile>, i: nat)
    requires i < |files| && i < |entries|
  {
    Judged(if i in hits then remote.(data := contents) else remote, limits, files[i], ReadyBytes(entries[..i]),
           |FilesOf(files[..i + 1], files[i].post)|, entries[i])
  }

  ghost predicate AllJudged(
    remote: Remote, contents: map<Id, Data>, limits: Limits, files: seq<InputFile>, hits: set<nat>,
    entries: seq<InputFile>)
  {
    && |entries| == |files|
    && forall i :: 0 <= i < |files| ==> JudgedAt(remote, contents, limits, files, hits, entries, i)
  }

  lemma JudgedInPrefix(
    remote: Remote, contents: map<Id, Data>, limits: Limits, files: seq<InputFile>, hits: set<nat>,
    entries: seq<InputFile>, n: nat, i: nat)
    requires i < n <= |files| && n <= |entries|
    ensures JudgedAt(remote, contents, limits, files[..n], hits, entries[..n], i) <==>
            JudgedAt(remote, contents, limits, files, hits, entries, i)
  {
    hide Judged, ReadyBytes, FilesOf;
    assert entries[..n][..i] == entries[..i] && files[..n][..i + 1] == files[..i + 1];
  }

  lemma {:induction false} EntriesJudged(
    remote: Remote, contents: map<Id, Data>, limits: Limits, files: seq<InputFile>, hits: set<nat>)
    ensures AllJudged(remote, contents, limits, files, hits, Entries(remote, contents, limits, files, hits))
  {
    hide Entry, JudgedAt;
    if files != [] {
      var n := |files| - 1;
      EntriesJudged(remote, contents, limits, files[..n], hits);
      var entries := Entries(remote, contents, limits, files, hits);
      assert entries[..n] == Entries(remote, contents, limits, files[..n], hits);
      LastJudged(remote, contents, limits, files, hits);
      forall i | 0 <= i < n ensures JudgedAt(remote, contents, limits, files, hits, entries, i) {
        JudgedInPrefix(remote, contents, limits, files, hits, entries, n, i);
      }
    }
  }

  lemma LastJudged(
    remote: Remote, contents: map<Id, Data>, limits: Limits, files: seq<InputFile>, hits: set<nat>)
    requires files != []
    ensures JudgedAt(remote, contents, limits, files, hits, Entries(remote, contents, limits, files, hits),
                     |files| - 1)
  {
    var n := |files| - 1;
    var before := Entries(remote, contents, limits, files[..n], hits);
    EntryJudged(if n in hits then remote.(data := contents) else remote, limits, files[n], Used(before),
                CountOf(files, files[n].post));
    UsedIsReady(before);
    CountIsSize(files, files[n].post);
    hide Entry, Judged, Used, ReadyBytes, CountOf, FilesOf;
    assert Entries(remote, contents, limits, files, hits)[..n] == before && files[..n + 1] == files;
  }

  /** What that bounds: each ready file by its type, all of them together, and how many of a post there are. */
  lemma {:induction false} JudgedIsBounded(
    remote: Remote, contents: map<Id, Data>, limits: Limits, files: seq<InputFile>, hits: set<nat>,
    entries: seq<InputFile>)
    requires AllJudged(remote, contents, limits, files, hits, entries) && limits.maxBatch >= 0
    ensures forall i :: 0 <= i < |entries| && entries[i].status == Ready ==>
              SizeAllowed(limits, entries[i].mime, entries[i].size)
    ensures forall i :: 0 <= i < |entries| && entries[i].status == Ready ==>
              |FilesOf(files[..i + 1], files[i].post)| <= limits.maxPerPost
    ensures 0 <= ReadyBytes(entries) <= limits.maxBatch
  {
    hide FilesOf, SizeAllowed;
    if entries != [] {
      var n := |entries| - 1;
      forall i | 0 <= i < n
        ensures JudgedAt(remote, contents, limits, files[..n], hits, entries[..n], i)
        ensures files[..n][..i + 1] == files[..i + 1] && files[..n][i] == files[i]
      {
        JudgedInPrefix(remote, contents, limits, files, hits, entries, n, i);
      }
      JudgedIsBounded(remote, contents, limits, files[..n], hits, entries[..n]);
      ReadyAppend(entries[..n], entries[n]);
      assert entries == entries[..n] + [entries[n]];
      assert JudgedAt(remote, contents, limits, files, hits, entries, n);
      SizeIsNatural(limits, entries[n].mime, entries[n].size);
    }
  }

  lemma SizeIsNatural(limits: Limits, mime: string, size: int)
    ensures SizeAllowed(limits, mime, size) ==> size >= 0
  {
  }

  /** An entry is about the file it was requested for. */
  ghost predicate Same(e: InputFile, f: InputFile) {
    e.post == f.post && e.file == f.file && e.channel == f.channel && e.path == f.path && e.name == f.name
  }

  /** With these totals, a file passes every check before the cache, which holds what the server describes. */
  ghost predicate AtCache(
    remote: Remote, contents: map<Id, Data>, limits: Limits, f: InputFile, total: int, count: nat)
  {
    && count <= limits.maxPerPost && (f.status.Unset? || f.status.Ready?)
    && 0 <= f.size <= limits.maxBatch - total
    && Inspect(remote, limits, f).Found? && remote.infos[f.file].size <= limits.maxBatch - total
    && Downloads(contents, remote.infos[f.file], f.file)
  }

  /** The files in `hits` are those that the cache answered. */
  ghost predicate Answered(
    remote: Remote, contents: map<Id, Data>, limits: Limits, files: seq<InputFile>, hits: set<nat>)
  {
    forall n :: n in hits ==> n < |files| && AnsweredAt(remote, contents, limits, files, hits, n)
  }

  ghost predicate AnsweredAt(
    remote: Remote, contents: map<Id, Data>, limits: Limits, files: seq<InputFile>, hits: set<nat>, n: nat)
    requires n < |files|
  {
    AtCache(remote, contents, limits, files[n], Used(Entries(remote, contents, limits, files[..n], hits)),
        CountOf(files[..n + 1], files[n].post))
  }

  /** The server can still deliver the file. */
  predicate Served(remote: Remote, f: InputFile) {
    f.file in remote.infos && Downloads(remote.data, remote.infos[f.file], f.file)
  }

  /** The cache is transparent, that is, the manifest is that of an empty cache, exactly when every file that it
      answered could still be downloaded. */
  lemma {:induction false} CacheTransparent(
    remote: Remote, contents: map<Id, Data>, limits: Limits, files: seq<InputFile>, hits: set<nat>)
    requires Honest(remote, contents) && Answered(remote, contents, limits, files, hits)
    ensures Entries(remote, contents, limits, files, hits) == Entries(remote, contents, limits, files, {}) <==>
            forall n :: n in hits ==> Served(remote, files[n])
  {
    hide Entry, Served, Honest, Entries, Answered, AtCache, AnsweredAt;
    if files == [] {
      NothingAnswered(remote, contents, limits, hits);
    } else {
      var n := |files| - 1;
      var earlier := hits - {n};
      AnsweredFront(remote, contents, limits, files, hits);
      CacheTransparent(remote, contents, limits, files[..n], earlier);
      EntriesLast(remote, contents, limits, files, hits, earlier);
      EntriesLast(remote, contents, limits, files, {}, {});
      if n in hits {
        EntryShows(remote, contents, limits, files[n],
                   Used(Entries(remote, contents, limits, files[..n], earlier)), CountOf(files, files[n].post));
      }
      if n in hits {
        assert hits == earlier + {n};
      } else {
        assert hits == earlier;
      }
      assert forall k :: k in earlier ==> files[..n][k] == files[k];
      var a, b := Entries(remote, contents, limits, files[..n], earlier),
          Entries(remote, contents, limits, files[..n], {});
      SameEnds(a, b,
          Entry(if n in hits then remote.(data := contents) else remote, limits, files[n], Used(a),
              CountOf(files, files[n].post)),
               Entry(remote, limits, files[n], Used(b), CountOf(files, files[n].post)));
    }
  }

  lemma SameEnds(a: seq<InputFile>, b: seq<InputFile>, x: InputFile, y: InputFile)
    requires |a| == |b|
    ensures a + [x] == b + [y] <==> a == b && x == y
  {
    assert (a + [x])[..|a|] == a && (b + [y])[..|b|] == b;
    assert (a + [x])[|a|] == x && (b + [y])[|b|] == y;
  }

  lemma NothingAnswered(remote: Remote, contents: map<Id, Data>, limits: Limits, hits: set<nat>)
    requires Answered(remote, contents, limits, [], hits)
    ensures hits == {} && Entries(remote, contents, limits, [], hits) == []
  {
    assert forall n :: n !in hits;
  }

  lemma AnsweredFront(remote: Remote, contents: map<Id, Data>, limits: Limits, files: seq<InputFile>, hits: set<nat>)
    requires files != [] && Answered(remote, contents, limits, files, hits)
    ensures var n := |files| - 1;
            && (forall k :: k in hits ==> k <= n)
            && Answered(remote, contents, limits, files[..n], hits - {n})
            && Entries(remote, contents, limits, files[..n], hits - {n}) ==
                 Entries(remote, contents, limits, files[..n], hits)
            && (n in hits ==>
                  AtCache(remote, contents, limits, files[n],
                      Used(Entries(remote, contents, limits, files[..n], hits - {n})),
                          CountOf(files, files[n].post)))
  {
    var n := |files| - 1;
    hide AtCache, Entries;
    SameHits(remote, contents, limits, files[..n], hits, hits - {n});
    assert files[..n + 1] == files;
    forall k | k in hits - {n} ensures k < n && AnsweredAt(remote, contents, limits, files[..n], hits - {n}, k) {
      assert AnsweredAt(remote, contents, limits, files, hits, k);
      assert files[..n][..k] == files[..k] && files[..n][..k + 1] == files[..k + 1];
      SameHits(remote, contents, limits, files[..k], hits, hits - {n});
    }
    if n in hits {
      assert AnsweredAt(remote, contents, limits, files, hits, n);
    }
  }

  lemma EntriesLast(
    remote: Remote, contents: map<Id, Data>, limits: Limits, files: seq<InputFile>, hits: set<nat>, earlier: set<nat>)
    requires files != [] && forall j :: j < |files| - 1 ==> (j in hits <==> j in earlier)
    ensures var n := |files| - 1;
            var before := Entries(remote, contents, limits, files[..n], earlier);
            Entries(remote, contents, limits, files, hits) ==
            before + [Entry(if n in hits then remote.(data := contents) else remote, limits, files[n], Used(before),
                CountOf(files, files[n].post))]
  {
    hide Entry;
    SameHits(remote, contents, limits, files[..|files| - 1], hits, earlier);
  }

  /** One answer of the cache shows exactly when the download would fail. */
  lemma EntryShows(remote: Remote, contents: map<Id, Data>, limits: Limits, f: InputFile, total: int, count: nat)
    requires Honest(remote, contents) && AtCache(remote, contents, limits, f, total, count)
    ensures Entry(remote.(data := contents), limits, f, total, count) == Entry(remote, limits, f, total, count) <==>
              Served(remote, f)
  {
  }

  /** It need not be: a cached file survives a failing download. */
  lemma CacheHidesFailure(remote: Remote, contents: map<Id, Data>, limits: Limits, f: InputFile)
    requires f.status.Unset? && limits.maxPerPost >= 1 && 0 <= f.size <= limits.maxBatch
    requires Inspect(remote, limits, f).Found? && remote.infos[f.file].size <= limits.maxBatch
    requires f.file !in remote.data && Downloads(contents, remote.infos[f.file], f.file)
    ensures Entries(remote, contents, limits, [f], {0})[0].status == Ready
    ensures Entries(remote, contents, limits, [f], {})[0].status == DownloadFailed
  {
    assert [f][..0] == [];
    assert CountOf([f], f.post) == CountOf([], f.post) + 1;
  }

  // --- the hook ---

  /** Store.batch: the frozen request must be the one already there. */
  predicate Conflicts(files: Files, r: Request) {
    && RequestPath(r.anchor) in files
    && files[RequestPath(r.anchor)] != RequestDoc(Frozen(r))
  }

  /** Store.cached. */
  function Cached(files: Files, f: InputFile, info: FileInfo): Option<InputFile> {
    if CachePath(f.file) !in files || !files[CachePath(f.file)].CacheDoc? then
      None
    else
      var entry := files[CachePath(f.file)].entry;
      if entry.path != f.path || entry.file != f.file || entry.post != f.post then None
      else if entry.size != info.size || entry.mime != info.mime then None
      else if f.path !in files || !files[f.path].Raw? then None
      else if |files[f.path].data| == entry.size && Some(Sha256(files[f.path])) == entry.sha then
        Some(f.(size := entry.size, mime := entry.mime, sha := entry.sha, status := Ready))
      else None
  }

  /** A cache hit gives what a download would have given. */
  lemma CachedIsFetched(files: Files, contents: map<Id, Data>, f: InputFile, info: FileInfo)
    requires Genuine(files, contents) && Cached(files, f, info).Some?
    ensures Downloads(contents, info, f.file)
    ensures Cached(files, f, info).value == Filled(f, info.mime, contents[f.file])
  {
  }

  /** The file's record and its bytes are those of this path, file and post, as the server describes them. */
  ghost predicate Vouched(files: Files, f: InputFile, info: FileInfo, entry: InputFile, data: Data) {
    && CachePath(f.file) in files && files[CachePath(f.file)] == CacheDoc(entry)
    && f.path in files && files[f.path] == Raw(data)
    && entry.path == f.path && entry.file == f.file && entry.post == f.post
    && entry.size == |data| && entry.sha == Some(Sha256(Raw(data)))
    && info.size == |data| && info.mime == entry.mime
  }

  /** The cache answers exactly then, with them. */
  lemma CachedExactly(files: Files, f: InputFile, info: FileInfo)
    ensures Cached(files, f, info).None? <==> forall entry, data :: !Vouched(files, f, info, entry, data)
    ensures forall entry, data :: Vouched(files, f, info, entry, data) ==>
              Cached(files, f, info) ==
                Some(f.(size := |data|, mime := info.mime, sha := Some(Sha256(Raw(data))), status := Ready))
  {
    if Cached(files, f, info).Some? {
      assert Vouched(files, f, info, files[CachePath(f.file)].entry, files[f.path].data);
    }
  }

  /** What was saved is found again, by any request for the same file of the same post that the server describes the
      same way, and nothing else is. */
  lemma SavedIsCached(files: Files, f: InputFile, data: Data, g: InputFile, info: FileInfo)
    requires IsWhole(f, data) && f.path.FilePath? && f.path.file == f.file && g.file == f.file
    ensures var saved := files[f.path := Raw(data)][CachePath(f.file) := CacheDoc(f)];
            && (Cached(saved, g, info).Some? <==>
                  g.path == f.path && g.post == f.post && info.size == |data| && info.mime == f.mime)
            && (Cached(saved, g, info).Some? ==>
                  Cached(saved, g, info).value ==
                    g.(size := |data|, mime := info.mime, sha := Some(Sha256(Raw(data))), status := Ready))
  {
  }

  /** What holds after every single write; `honest` when all bytes come from the chat server. */
  ghost predicate Consistent(files: Files, contents: map<Id, Data>, honest: bool) {
    Hashed(files) && (honest ==> Genuine(files, contents))
  }

  /** Ready entries find their bytes on disk. */
  ghost predicate Stored(files: Files, entries: seq<InputFile>) {
    forall i :: 0 <= i < |entries| && entries[i].status.Ready? ==>
      entries[i].path in files && files[entries[i].path].Raw? && entries[i].sha == Some(Sha256(files[entries[i].path]))
  }

  /** Every state that a crash during the call could have left is consistent. */
  ghost predicate CrashSafe(before: set<Files>, points: set<Files>, now: Files, contents: map<Id, Data>, honest: bool) {
    && Consistent(now, contents, honest)
    && forall state :: state in points && state !in before ==> Consistent(state, contents, honest)
  }

  lemma CrashSafeTrans(
    a: set<Files>, b: set<Files>, c: set<Files>, was: Files, now: Files, contents: map<Id, Data>, honest: bool)
    ensures Consistent(now, contents, honest) ==> CrashSafe(a, a, now, contents, honest)
    ensures CrashSafe(a, b, was, contents, honest) && CrashSafe(b, c, now, contents, honest) ==>
              CrashSafe(a, c, now, contents, honest)
    ensures CrashSafe(a, b, now, contents, honest) ==> Consistent(now, contents, honest)
  {
  }

  /** From this start, the call and every crash in it changed input files and cache records only. */
  ghost predicate InputsOnly(start: Files, before: set<Files>, points: set<Files>, now: Files) {
    OnlyInputs(start, now) && forall state :: state in points && state !in before ==> OnlyInputs(start, state)
  }

  /** The same with one batch besides. */
  ghost predicate BatchOnly(start: Files, before: set<Files>, points: set<Files>, now: Files, r: Request) {
    OnlyBatch(start, now, r) && forall state :: state in points && state !in before ==> OnlyBatch(start, state, r)
  }

  lemma InputsOnlyTrans(start: Files, mid: Files, a: set<Files>, b: set<Files>, c: set<Files>, now: Files)
    ensures InputsOnly(start, a, a, start)
    ensures InputsOnly(start, a, b, mid) && InputsOnly(mid, b, c, now) ==> InputsOnly(start, a, c, now)
    ensures InputsOnly(start, a, b, mid) ==> OnlyInputs(start, mid)
  {
    OnlyInputsTrans(start, mid, now);
    hide OnlyInputs;
    if InputsOnly(start, a, b, mid) && InputsOnly(mid, b, c, now) {
      OnlyInputsTrans(start, mid, now);
      forall state | state in c && state !in a ensures OnlyInputs(start, state) {
        OnlyInputsTrans(start, mid, state);
      }
    }
    OnlyInputsTrans(start, start, start);
  }

  /** The bytes are those the entry describes. */
  predicate IsWhole(f: InputFile, data: Data) {
    f.status.Ready? && |data| == f.size && f.sha == Some(Sha256(Raw(data)))
  }

  method SaveFile(store: Store, f: InputFile, data: Data, ghost contents: map<Id, Data>, ghost honest: bool)
    returns (ok: bool)
    requires Consistent(store.files, contents, honest)
    requires f.path.FilePath? && f.path.file == f.file
    requires honest && IsWhole(f, data) ==> f.file in contents && data == contents[f.file]
    modifies store
    ensures ok <==> f.status == Ready && |data| == f.size && f.sha == Some(Sha256(Raw(data)))
    ensures CrashSafe(old(store.points), store.points, store.files, contents, honest)
    ensures InputsOnly(old(store.files), old(store.points), store.points, store.files)
    ensures store.files == if ok then old(store.files)[f.path := Raw(data)][CachePath(f.file) := CacheDoc(f)]
              else old(store.files)
  {
    ok := IsWhole(f, data);
    if ok {
      store.Write(f.path, Raw(data));
      assert Consistent(store.files, contents, honest);
      store.Write(CachePath(f.file), CacheDoc(f));
      assert Consistent(store.files, contents, honest);
    }
  }

  /** The body of prepare's loop. */
  method PrepareFile(
    store: Store, remote: Remote, limits: Limits, original: InputFile, total: int, count: nat, ghost contents: map<Id,
        Data>)
    returns (f: InputFile, ghost hit: bool)
    requires Consistent(store.files, contents, true) && Honest(remote, contents)
    requires original.path.FilePath? && original.path.file == original.file
    modifies store
    ensures f == Entry(if hit then remote.(data := contents) else remote, limits, original, total, count)
    ensures hit ==> AtCache(remote, contents, limits, original, total, count)
    ensures Judged(if hit then remote.(data := contents) else remote, limits, original, total, count, f)
    ensures CrashSafe(old(store.points), store.points, store.files, contents, true)
    ensures InputsOnly(old(store.files), old(store.points), store.points, store.files)
    ensures f.status.Ready? ==> f.path in store.files
  {
    EntryJudged(remote, limits, original, total, count);
    EntryJudged(remote.(data := contents), limits, original, total, count);
    hide Judged;
    f, hit := original, false;
    if count > limits.maxPerPost {
      f := f.(status := FileLimit);
    }
    if !f.status.Unset? && !f.status.Ready? {
      return;
    }
    if !(0 <= f.size <= limits.maxBatch - total) {
      f := f.(status := BatchLimit);
      return;
    }
    var inspection := Inspect(remote, limits, f);
    if inspection.Refused? {
      f := f.(status := inspection.status);
      return;
    }
    var info := inspection.info;
    if info.size > limits.maxBatch - total {
      f := f.(status := BatchLimit);
      return;
    }
    var cached := Cached(store.files, f, info);
    if cached.Some? {
      CachedIsFetched(store.files, contents, f, info);
      return cached.value, true;
    }
    if !Downloads(remote.data, info, f.file) {
      f := f.(status := DownloadFailed);
      return;
    }
    var data := remote.data[f.file];
    f := Filled(f, info.mime, data);
    var saved := SaveFile(store, f, data, contents, true);
  }

  function Batch(r: Request, files: seq<InputFile>): Manifest {
    Manifest(1, r.source, r.anchor, Sha256(RequestDoc(Frozen(r))), files)
  }

  /** Store.prepare. It fails exactly on an invalid request or one that differs from the frozen one; otherwise the
      manifest lists what the server, and the cache in its place, provide. */
  method Prepare(store: Store, remote: Remote, r: Request, ghost contents: map<Id, Data>)
    returns (manifest: Option<Manifest>, ghost hits: set<nat>)
    requires Consistent(store.files, contents, true) && Honest(remote, contents)
    modifies store
    ensures manifest.None? <==> !ValidRequest(r) || Conflicts(old(store.files), r)
    ensures manifest.Some? <==>
              && r.schema == 1 && r.source != 0 && r.channel != 0 && r.root != 0 && r.anchor != 0
              && (forall f :: f in r.files ==>
                    && f.post != 0 && f.file != 0 && f.channel != 0
                    && f.path == FilePath(f.file, PythonName(f.name)))
              && r.limits.maxFile > 0 && r.limits.maxImage > 0 && r.limits.maxBatch > 0 && r.limits.maxPerPost > 0
              && (RequestPath(r.anchor) in old(store.files) ==>
                    old(store.files)[RequestPath(r.anchor)] == RequestDoc(r.(previous := None, delivered := [])))
    ensures CrashSafe(old(store.points), store.points, store.files, contents, true)
    ensures manifest.None? ==> store.files == old(store.files)
    ensures manifest.Some? ==>
              && manifest.value == Batch(r, Entries(remote, contents, r.limits, r.files, hits))
              && Answered(remote, contents, r.limits, r.files, hits)
              && ManifestPath(r.anchor) in store.files
              && store.files[ManifestPath(r.anchor)] == ManifestDoc(manifest.value)
              && Stored(store.files, manifest.value.files)
    ensures manifest.Some? ==> AllJudged(remote, contents, r.limits, r.files, hits, manifest.value.files)
    ensures BatchOnly(old(store.files), old(store.points), store.points, store.files, r)
  {
    hits := {};
    CrashSafeTrans(store.points, store.points, store.points, store.files, store.files, contents, true);
    if !ValidRequest(r) || Conflicts(store.files, r) {
      return None, hits;
    }
    hide Consistent, Honest, ValidRequest, CrashSafe, InputsOnly, BatchOnly, Present, Entry, Entries, Answered, Stored,
        IsTrue, Same, AllJudged;
    RequestWritten(store.files, contents, true, r);
    store.Write(RequestPath(r.anchor), RequestDoc(Frozen(r)));
    CrashSafeWrite(old(store.points), old(store.points), store.files, contents, true);
    label asked:
    var entries;
    entries, hits := PrepareFiles(store, remote, r, contents);
    CrashSafeTrans(old(store.points), old@asked(store.points), store.points, old@asked(store.files), store.files,
        contents, true);
    BatchOnlyWrites(old(store.files), old@asked(store.files), store.files, old(store.points), old@asked(store.points),
        store.points, r,
                    Batch(r, entries));
    label prepared:
    manifest := Some(Batch(r, entries));
    ManifestWritten(store.files, contents, true, r, entries);
    store.Write(ManifestPath(r.anchor), ManifestDoc(manifest.value));
    CrashSafeWrite(old(store.points), old@prepared(store.points), store.files, contents, true);
    StillPresent(entries, old@prepared(store.files), store.files);
    ValidLimits(r);
    EntriesKeepLimits(remote, contents, r.limits, r.files, hits);
    ConsistentGenuine(store.files, contents);
    EntriesStored(store.files, contents, r, entries);
    EntriesJudged(remote, contents, r.limits, r.files, hits);
  }

  /** The three stages of a call keep to the batch: its request, the inputs, its manifest. */
  lemma BatchOnlyWrites(
    start: Files, asked: Files, prepared: Files, before: set<Files>, first: set<Files>, points: set<Files>, r: Request,
        m: Manifest)
    requires !Conflicts(start, r) && asked == start[RequestPath(r.anchor) := RequestDoc(Frozen(r))] &&
              first == before + {asked}
    requires InputsOnly(asked, first, points, prepared)
    ensures var done := prepared[ManifestPath(r.anchor) := ManifestDoc(m)];
            BatchOnly(start, before, points + {done}, done, r)
  {
  }

  lemma ValidLimits(r: Request)
    requires ValidRequest(r)
    ensures r.limits.maxBatch >= 0
  {
  }

  lemma ConsistentGenuine(files: Files, contents: map<Id, Data>)
    requires Consistent(files, contents, true)
    ensures Genuine(files, contents)
  {
  }

  /** Rewriting the frozen request changes nothing that a manifest vouches for. */
  lemma RequestWritten(files: Files, contents: map<Id, Data>, honest: bool, r: Request)
    requires Consistent(files, contents, honest) && !Conflicts(files, r)
    ensures Consistent(files[RequestPath(r.anchor) := RequestDoc(Frozen(r))], contents, honest)
  {
  }

  lemma ManifestWritten(files: Files, contents: map<Id, Data>, honest: bool, r: Request, entries: seq<InputFile>)
    requires Consistent(files, contents, honest)
    requires RequestPath(r.anchor) in files && files[RequestPath(r.anchor)] == RequestDoc(Frozen(r))
    ensures Consistent(files[ManifestPath(r.anchor) := ManifestDoc(Batch(r, entries))], contents, honest)
  {
  }

  lemma CrashSafeWrite(before: set<Files>, points: set<Files>, now: Files, contents: map<Id, Data>, honest: bool)
    requires Consistent(now, contents, honest)
    requires forall state :: state in points && state !in before ==> Consistent(state, contents, honest)
    ensures CrashSafe(before, points + {now}, now, contents, honest)
  {
  }

  lemma StillPresent(entries: seq<InputFile>, before: Files, after: Files)
    requires Present(entries, before) && forall p :: p in before ==> p in after
    ensures Present(entries, after)
  {
  }

  /** A ready entry whose path exists holds the bytes that its digest names. */
  lemma EntriesStored(files: Files, contents: map<Id, Data>, r: Request, entries: seq<InputFile>)
    requires Genuine(files, contents) && ValidRequest(r) && |entries| == |r.files|
    requires forall i :: 0 <= i < |entries| ==> IsTrue(entries[i], contents, r.limits) && Same(entries[i], r.files[i])
    requires Present(entries, files)
    ensures Stored(files, entries)
  {
    forall i | 0 <= i < |entries| && entries[i].status.Ready?
      ensures files[entries[i].path].Raw? && entries[i].sha == Some(Sha256(files[entries[i].path]))
    {
      assert r.files[i] in r.files;
    }
  }

  /** Where prepare's loop stands after i files. */
  ghost predicate Progress(
    remote: Remote, contents: map<Id, Data>, r: Request, i: nat, entries: seq<InputFile>, hits: set<nat>, total: int,
    counts: map<Id, nat>)
    requires i <= |r.files|
  {
    && (forall j :: j in hits ==> j < i) && Answered(remote, contents, r.limits, r.files[..i], hits)
    && entries == Entries(remote, contents, r.limits, r.files[..i], hits)
    && total == Used(entries)
    && forall p :: CountOf(r.files[..i], p) == if p in counts then counts[p] else 0
  }

  function Counted(counts: map<Id, nat>, post: Id): (more: map<Id, nat>)
    ensures post in more
  {
    counts[post := 1 + if post in counts then counts[post] else 0]
  }

  lemma ProgressStart(remote: Remote, contents: map<Id, Data>, r: Request)
    ensures Progress(remote, contents, r, 0, [], {}, 0, map[])
  {
  }

  lemma ProgressStep(
    remote: Remote, contents: map<Id, Data>, r: Request, i: nat, entries: seq<InputFile>, hits: set<nat>, total: int,
    counts: map<Id, nat>, f: InputFile, hit: bool)
    requires i < |r.files| && Progress(remote, contents, r, i, entries, hits, total, counts)
    requires f == Entry(if hit then remote.(data := contents) else remote, r.limits, r.files[i], total,
              Counted(counts, r.files[i].post)[r.files[i].post])
    requires hit ==>
              AtCache(remote, contents, r.limits, r.files[i], total, Counted(counts, r.files[i].post)[r.files[i].post])
    ensures Progress(remote, contents, r, i + 1, entries + [f], if hit then hits + {i} else hits,
                     total + (if f.status.Ready? then f.size else 0), Counted(counts, r.files[i].post))
  {
    hide Entry, Used, CountOf, Answered, AtCache, Entries;
    CountStep(r.files, i, counts);
    assert Counted(counts, r.files[i].post)[r.files[i].post] == CountOf(r.files[..i + 1], r.files[i].post);
    AnsweredStep(remote, contents, r.limits, r.files, i, hits, hit);
    EntriesStep(remote, contents, r.limits, r.files, i, hits, hit);
    UsedStep(entries, f);
  }

  lemma ProgressEnd(
    remote: Remote, contents: map<Id, Data>, r: Request, entries: seq<InputFile>, hits: set<nat>, total: int,
        counts: map<Id, nat>)
    requires Progress(remote, contents, r, |r.files|, entries, hits, total, counts)
    ensures entries == Entries(remote, contents, r.limits, r.files, hits) &&
              Answered(remote, contents, r.limits, r.files, hits)
  {
    assert r.files[..|r.files|] == r.files;
  }

  /** prepare's loop over the files of the batch. */
  method PrepareFiles(store: Store, remote: Remote, r: Request, ghost contents: map<Id, Data>)
    returns (entries: seq<InputFile>, ghost hits: set<nat>)
    requires Consistent(store.files, contents, true) && Honest(remote, contents) && ValidRequest(r)
    modifies store
    ensures entries == Entries(remote, contents, r.limits, r.files, hits) &&
              Answered(remote, contents, r.limits, r.files, hits)
    ensures CrashSafe(old(store.points), store.points, store.files, contents, true)
    ensures InputsOnly(old(store.files), old(store.points), store.points, store.files)
    ensures Present(entries, store.files)
  {
    hide *;
    hits, entries := {}, [];
    var total: int := 0;
    var counts: map<Id, nat> := map[];
    ProgressStart(remote, contents, r);
    InputsOnlyTrans(store.files, store.files, store.points, store.points, store.points, store.files);
    NonePresent(store.files);
    CrashSafeTrans(store.points, store.points, store.points, store.files, store.files, contents, true);
    for i := 0 to |r.files|
      invariant CrashSafe(old(store.points), store.points, store.files, contents, true)
      invariant InputsOnly(old(store.files), old(store.points), store.points, store.files)
      invariant Progress(remote, contents, r, i, entries, hits, total, counts)
      invariant Present(entries, store.files)
    {
      var original := r.files[i];
      FileIsNamed(r, i);
      CrashSafeTrans(old(store.points), store.points, store.points, store.files, store.files, contents, true);
      label before:
      var f, hit := PrepareFile(store, remote, r.limits, original, total,
          Counted(counts, original.post)[original.post], contents);
      CrashSafeTrans(old(store.points), old@before(store.points), store.points, old@before(store.files), store.files,
          contents, true);
      InputsOnlyTrans(old(store.files), old@before(store.files), old(store.points), old@before(store.points),
          store.points, store.files);
      InputsOnlyTrans(old@before(store.files), store.files, old@before(store.points), store.points, store.points,
          store.files);
      StillThere(entries, f, old@before(store.files), store.files);
      ProgressStep(remote, contents, r, i, entries, hits, total, counts, f, hit);
      hits := if hit then hits + {i} else hits;
      counts := Counted(counts, original.post);
      total := total + if f.status.Ready? then f.size else 0;
      entries := entries + [f];
    }
    ProgressEnd(remote, contents, r, entries, hits, total, counts);
  }

  lemma OnlyInputsTrans(a: Files, b: Files, c: Files)
    ensures OnlyInputs(a, a)
    ensures OnlyInputs(a, b) && OnlyInputs(b, c) ==> OnlyInputs(a, c)
  {
  }

  ghost predicate Present(entries: seq<InputFile>, files: Files) {
    forall i :: 0 <= i < |entries| && entries[i].status.Ready? ==> entries[i].path in files
  }

  lemma NonePresent(files: Files)
    ensures Present([], files)
  {
  }

  lemma StillThere(entries: seq<InputFile>, f: InputFile, before: Files, after: Files)
    requires Present(entries, before) && OnlyInputs(before, after)
    requires f.status.Ready? ==> f.path in after
    ensures Present(entries + [f], after)
  {
  }

  lemma FileIsNamed(r: Request, i: nat)
    requires ValidRequest(r) && i < |r.files|
    ensures r.files[i].path.FilePath? && r.files[i].path.file == r.files[i].file
  {
  }

  lemma CountStep(files: seq<InputFile>, i: nat, counts: map<Id, nat>)
    requires i < |files|
    requires forall p :: CountOf(files[..i], p) == if p in counts then counts[p] else 0
    ensures var more := Counted(counts, files[i].post);
            forall p :: CountOf(files[..i + 1], p) == if p in more then more[p] else 0
  {
    assert files[..i + 1][..i] == files[..i];
  }

  lemma UsedStep(entries: seq<InputFile>, f: InputFile)
    ensures Used(entries + [f]) == Used(entries) + if f.status.Ready? then f.size else 0
  {
    assert (entries + [f])[..|entries|] == entries;
  }

  lemma EntriesStep(
    remote: Remote, contents: map<Id, Data>, limits: Limits, files: seq<InputFile>, i: nat, hits: set<nat>, hit: bool)
    requires i < |files| && forall j :: j in hits ==> j < i
    ensures var before := Entries(remote, contents, limits, files[..i], hits);
            Entries(remote, contents, limits, files[..i + 1], if hit then hits + {i} else hits)
            == before + [Entry(if hit then remote.(data := contents) else remote, limits, files[i], Used(before),
                CountOf(files[..i + 1], files[i].post))]
  {
    hide Entry;
    var more := if hit then hits + {i} else hits;
    assert files[..i + 1][..i] == files[..i];
    SameHits(remote, contents, limits, files[..i], hits, more);
  }

  lemma AnsweredStep(
    remote: Remote, contents: map<Id, Data>, limits: Limits, files: seq<InputFile>, i: nat, hits: set<nat>, hit: bool)
    requires i < |files| && (forall j :: j in hits ==> j < i) && Answered(remote, contents, limits, files[..i], hits)
    requires hit ==>
              AtCache(remote, contents, limits, files[i], Used(Entries(remote, contents, limits, files[..i], hits)),
                             CountOf(files[..i + 1], files[i].post))
    ensures Answered(remote, contents, limits, files[..i + 1], if hit then hits + {i} else hits)
  {
    hide AtCache, Entries;
    var more := if hit then hits + {i} else hits;
    forall k | k in more ensures k <= i && AnsweredAt(remote, contents, limits, files[..i + 1], more, k) {
      assert files[..i + 1][..k] == files[..k] && files[..i + 1][..k + 1] == files[..k + 1];
      SameHits(remote, contents, limits, files[..k], hits, more);
      if k in hits {
        assert AnsweredAt(remote, contents, limits, files[..i], hits, k);
        assert files[..i][..k] == files[..k] && files[..i][..k + 1] == files[..k + 1];
      }
    }
  }

  /** Only the hits below the length matter. */
  lemma {:induction false} SameHits(
    remote: Remote, contents: map<Id, Data>, limits: Limits, files: seq<InputFile>, hits: set<nat>, more: set<nat>)
    requires forall j :: j < |files| ==> (j in hits <==> j in more)
    ensures Entries(remote, contents, limits, files, hits) == Entries(remote, contents, limits, files, more)
  {
    hide Entry;
    if files != [] {
      SameHits(remote, contents, limits, files[..|files| - 1], hits, more);
    }
  }
}
