/** The framed stream that carries the files of a clarification into a running sandbox: written by Access.Prepare
    (internal/agentbox/access.go:163-213, with Fetch, internal/attachments/input.go:17-53), read by Store.import_input
    (internal/sandbox/files.py:308-334). */
module ImportStream {
  import opened Collections
  import opened Names
  import opened Workspace
  import opened InputBatches

  const NEWLINE: Byte := 10
  const LINE_LIMIT := 65536

  datatype Record = RequestRecord(request: Request) | FileRecord(file: InputFile)

  // The JSON encoder of the sender and the decoder of the receiver.
  datatype Codec = Codec(encode: Record -> Data, decode: Data -> Option<Record>)

  ghost predicate Lawful(c: Codec) {
    forall d :: NEWLINE !in c.encode(d) && c.decode(c.encode(d)) == Some(d)
  }

  // --- framing ---

  /** How many bytes readline(limit) returns. */
  function LineLength(stream: Data, limit: nat): (n: nat)
    ensures n <= |stream| && n <= limit
    decreases limit
  {
    if limit == 0 || stream == [] then 0
    else if stream[0] == NEWLINE then 1
    else 1 + LineLength(stream[1..], limit - 1)
  }

  datatype Taken = Taken(record: Record, rest: Data)

  /** The receiver's `record`. */
  function TakeRecord(c: Codec, stream: Data): Option<Taken> {
    var n := LineLength(stream, LINE_LIMIT);
    if n == 0 || stream[n - 1] != NEWLINE then
      None
    else
      match c.decode(stream[..n - 1])
      case None => None
      case Some(r) => Some(Taken(r, stream[n..]))
  }

  /** The sender's `record`; None when it refuses to write a record this long. */
  function Framed(c: Codec, r: Record): Option<Data> {
    var data := c.encode(r);
    if |data| >= LINE_LIMIT then None else Some(data + [NEWLINE])
  }

  lemma {:induction false} LineEnds(data: Data, tail: Data, limit: nat)
    requires NEWLINE !in data && |data| < limit
    ensures LineLength(data + [NEWLINE] + tail, limit) == |data| + 1
    decreases limit
  {
    var stream := data + [NEWLINE] + tail;
    if data != [] {
      assert stream[1..] == data[1..] + [NEWLINE] + tail;
      LineEnds(data[1..], tail, limit - 1);
    }
  }

  /** The two limits fit exactly: whatever the sender is willing to frame, the receiver reads back. */
  lemma FramedIsTaken(c: Codec, r: Record, tail: Data)
    requires Lawful(c) && Framed(c, r).Some?
    ensures TakeRecord(c, Framed(c, r).value + tail) == Some(Taken(r, tail))
  {
    var data := c.encode(r);
    LineEnds(data, tail, LINE_LIMIT);
    assert (data + [NEWLINE] + tail)[..|data|] == data;
    assert (data + [NEWLINE] + tail)[|data| + 1..] == tail;
  }

  /** One byte longer and it would not. */
  lemma LongerIsNotTaken(c: Codec, data: Data, tail: Data)
    requires NEWLINE !in data && |data| >= LINE_LIMIT
    ensures TakeRecord(c, data + [NEWLINE] + tail) == None
  {
    NoLineEnd(data, [NEWLINE] + tail, LINE_LIMIT);
    assert data + [NEWLINE] + tail == data + ([NEWLINE] + tail);
  }

  lemma {:induction false} NoLineEnd(data: Data, tail: Data, limit: nat)
    requires NEWLINE !in data && limit <= |data|
    ensures LineLength(data + tail, limit) == limit
    decreases limit
  {
    if limit > 0 {
      assert (data + tail)[1..] == data[1..] + tail;
      NoLineEnd(data[1..], tail, limit - 1);
    }
  }

  lemma {:induction false} LineStays(stream: Data, more: Data, limit: nat)
    requires LineLength(stream, limit) > 0 && stream[LineLength(stream, limit) - 1] == NEWLINE
    ensures LineLength(stream + more, limit) == LineLength(stream, limit)
    decreases limit
  {
    if stream[0] != NEWLINE {
      assert (stream + more)[1..] == stream[1..] + more;
      LineStays(stream[1..], more, limit - 1);
    }
  }

  lemma TakenStays(c: Codec, stream: Data, more: Data)
    requires TakeRecord(c, stream).Some?
    ensures TakeRecord(c, stream + more) ==
              Some(Taken(TakeRecord(c, stream).value.record, TakeRecord(c, stream).value.rest + more))
  {
    var n := LineLength(stream, LINE_LIMIT);
    LineStays(stream, more, LINE_LIMIT);
    assert (stream + more)[..n - 1] == stream[..n - 1];
    assert (stream + more)[n..] == stream[n..] + more;
  }

  // --- the sender ---

  /** Fetch. */
  function Fetch(remote: Remote, limits: Limits, f: InputFile): InputFile {
    match Inspect(remote, limits, f)
    case Refused(status) => f.(status := status)
    case Found(info) =>
      if Downloads(remote.data, info, f.file) then Filled(f, info.mime, remote.data[f.file])
      else f.(status := DownloadFailed)
  }

  /** What the sender records of a file. */
  function SentFile(remote: Remote, limits: Limits, original: InputFile, total: int, count: nat): InputFile {
    var f := if count > limits.maxPerPost then original.(status := FileLimit) else original;
    if !f.status.Unset? && !f.status.Ready? then
      f
    else if f.size < 0 || f.size > limits.maxBatch - total then
      f.(status := BatchLimit)
    else
      var fetched := Fetch(remote, limits, f);
      if fetched.status.Ready? &&
          fetched.size > limits.maxBatch - total then fetched.(status := BatchLimit) else fetched
  }

  function SentData(remote: Remote, f: InputFile): Data {
    if f.status.Ready? && f.file in remote.data then remote.data[f.file] else []
  }

  function SentFiles(remote: Remote, limits: Limits, files: seq<InputFile>): (entries: seq<InputFile>)
    ensures |entries| == |files|
  {
    if files == [] then
      []
    else
      var n := |files| - 1;
      var before := SentFiles(remote, limits, files[..n]);
      before + [SentFile(remote, limits, files[n], Used(before), CountOf(files, files[n].post))]
  }

  /** The stream after the request record: each file's record and, when it is ready, its bytes. */
  function Emitted(c: Codec, remote: Remote, limits: Limits, files: seq<InputFile>): Option<Data> {
    if files == [] then
      Some([])
    else
      var n := |files| - 1;
      var before := Emitted(c, remote, limits, files[..n]);
      var entry := SentFiles(remote, limits, files)[n];
      if before.None? || Framed(c, FileRecord(entry)).None? then
        None
      else
        Some(before.value + (Framed(c, FileRecord(entry)).value + SentData(remote, entry)))
  }

  function Stream(c: Codec, remote: Remote, r: Request): Option<Data> {
    if Framed(c, RequestRecord(r)).None? || Emitted(c, remote, r.limits, r.files).None? then None
    else Some(Framed(c, RequestRecord(r)).value + Emitted(c, remote, r.limits, r.files).value)
  }

  /** Where the sender's loop stands after i files. */
  ghost predicate Sending(
    c: Codec, remote: Remote, r: Request, i: nat, entries: seq<InputFile>, total: int, counts: map<Id, nat>,
        head: Data, out: Data)
    requires i <= |r.files|
  {
    && entries == SentFiles(remote, r.limits, r.files[..i]) && total == Used(entries)
    && (forall p :: CountOf(r.files[..i], p) == if p in counts then counts[p] else 0)
    && Emitted(c, remote, r.limits, r.files[..i]).Some?
    && out == head + Emitted(c, remote, r.limits, r.files[..i]).value
  }

  lemma SendingStep(
    c: Codec, remote: Remote, r: Request, i: nat, entries: seq<InputFile>, total: int, counts: map<Id, nat>,
        head: Data, out: Data, f: InputFile)
    requires i < |r.files| && Sending(c, remote, r, i, entries, total, counts, head, out)
    requires f == SentFile(remote, r.limits, r.files[i], total, Counted(counts, r.files[i].post)[r.files[i].post])
    ensures Framed(c, FileRecord(f)).None? ==> Stream(c, remote, r).None?
    ensures Framed(c, FileRecord(f)).Some? ==>
              Sending(c, remote, r, i + 1, entries + [f], total + (if f.status.Ready? then f.size else 0),
                      Counted(counts, r.files[i].post), head,
                          out + Framed(c, FileRecord(f)).value + SentData(remote, f))
  {
    hide SentFile, Framed, SentData;
    CountStep(r.files, i, counts);
    assert r.files[..i + 1][..i] == r.files[..i];
    assert SentFiles(remote, r.limits, r.files[..i + 1]) == entries + [f];
    UsedStep(entries, f);
    if Framed(c, FileRecord(f)).None? {
      EmittedStops(c, remote, r.limits, r.files, i + 1);
    }
  }

  lemma SendingEnds(
    c: Codec, remote: Remote, r: Request, entries: seq<InputFile>, total: int, counts: map<Id, nat>, head: Data,
        out: Data)
    requires Sending(c, remote, r, |r.files|, entries, total, counts, head, out)
    requires Framed(c, RequestRecord(r)) == Some(head)
    ensures Stream(c, remote, r) == Some(out)
  {
    assert r.files[..|r.files|] == r.files;
  }

  /** The part of Access.Prepare that writes; false when a record is too long, with the stream cut short. */
  method Send(c: Codec, remote: Remote, r: Request) returns (ok: bool, out: Data)
    ensures ok <==> Stream(c, remote, r).Some?
    ensures ok ==> out == Stream(c, remote, r).value
  {
    var head := Framed(c, RequestRecord(r));
    if head.None? {
      return false, [];
    }
    out := Written([], head.value);
    var total: int := 0;
    var counts: map<Id, nat> := map[];
    ghost var entries: seq<InputFile> := [];
    for i := 0 to |r.files|
      invariant Sending(c, remote, r, i, entries, total, counts, head.value, out)
    {
      hide *;
      var original := r.files[i];
      var f := SentFile(remote, r.limits, original, total, Counted(counts, original.post)[original.post]);
      SendingStep(c, remote, r, i, entries, total, counts, head.value, out, f);
      counts := Counted(counts, original.post);
      var line := Framed(c, FileRecord(f));
      if line.None? {
        return false, out;
      }
      out := Written(out, line.value);
      NoData(remote, f);
      if f.status.Ready? {
        out := Written(out, SentData(remote, f));
        total := total + f.size;
      }
      entries := entries + [f];
    }
    SendingEnds(c, remote, r, entries, total, counts, head.value, out);
    ok := true;
  }

  lemma NoData(remote: Remote, f: InputFile)
    ensures !f.status.Ready? ==> SentData(remote, f) == []
  {
  }

  /** `write` sends in blocks of 32 KiB. */
  method Written(sent: Data, more: Data) returns (out: Data)
    ensures out == sent + more
  {
    out := sent;
    var data := more;
    while |data| > 0
      invariant out + data == sent + more
      decreases |data|
    {
      var n := if |data| < 32768 then |data| else 32768;
      assert data == data[..n] + data[n..];
      out := out + data[..n];
      data := data[n..];
    }
  }

  lemma {:induction false} EmittedStops(c: Codec, remote: Remote, limits: Limits, files: seq<InputFile>, n: nat)
    requires n <= |files| && Emitted(c, remote, limits, files[..n]).None?
    ensures Emitted(c, remote, limits, files).None?
  {
    if n < |files| {
      assert files[..|files| - 1][..n] == files[..n];
      EmittedStops(c, remote, limits, files[..|files| - 1], n);
    } else {
      assert files[..n] == files;
    }
  }

  lemma SentFileKeepsLimits(
    remote: Remote, contents: map<Id, Data>, limits: Limits, f: InputFile, total: int, count: nat)
    requires Honest(remote, contents)
    ensures var e := SentFile(remote, limits, f, total, count);
            && IsTrue(e, contents, limits) && Same(e, f)
            && (e.status.Ready? ==>
                  && 0 <= e.size <= limits.maxBatch - total && count <= limits.maxPerPost
                  && e.file in remote.data && |remote.data[e.file]| == e.size)
  {
  }

  /** What the sender records of one file, read off the request and the server. */
  ghost predicate SentJudged(remote: Remote, limits: Limits, f: InputFile, total: int, count: nat, e: InputFile) {
    && (count > limits.maxPerPost ==> e == f.(status := FileLimit))
    && (count <= limits.maxPerPost && f.status != Unset && f.status != Ready ==> e == f)
    && (count <= limits.maxPerPost && (f.status == Unset || f.status == Ready) ==>
          var fits := 0 <= f.size <= limits.maxBatch - total;
          && (!fits ==> e == f.(status := BatchLimit))
          && (fits && !Listed(remote, f) ==> e == f.(status := Unavailable))
          && (fits && Listed(remote, f) ==>
                var info := remote.infos[f.file];
                var allowed := SizeAllowed(limits, info.mime, info.size);
                var served := f.file in remote.data && |remote.data[f.file]| == info.size;
                && (!allowed ==> e == f.(status := FileLimit))
                && (allowed && !served ==> e == f.(status := DownloadFailed))
                && (allowed && served ==>
                      e == f.(size := info.size, mime := info.mime, sha := Some(Sha256(Raw(remote.data[f.file]))),
                              status := if info.size <= limits.maxBatch - total then Ready else BatchLimit))))
  }

  lemma SentFileExactly(remote: Remote, limits: Limits, f: InputFile, total: int, count: nat)
    ensures SentJudged(remote, limits, f, total, count, SentFile(remote, limits, f, total, count))
  {
  }

  // --- the receiver ---

  datatype Received = Received(entries: seq<InputFile>, datas: seq<Data>, rest: Data)

  predicate Fits(limits: Limits, f: InputFile, total: int, count: nat) {
    && 0 <= f.size <= SizeLimit(limits, f.mime)
    && f.size <= limits.maxBatch - total
    && count <= limits.maxPerPost
  }

  predicate Matches(f: InputFile, expected: InputFile) {
    f.file == expected.file && f.post == expected.post && f.path == expected.path && f.channel == expected.channel
  }

  /** One pass of the receiver's loop, up to saving the file. */
  function ReceiveFile(
    c: Codec, limits: Limits, expected: InputFile, total: int, count: nat, stream: Data): Option<Received>
  {
    match TakeRecord(c, stream)
    case None => None
    case Some(Taken(record, rest)) =>
      if !record.FileRecord? || !Matches(record.file, expected) then
        None
      else if !record.file.status.Ready? then
        Some(Received([record.file], [[]], rest))
      else if !Fits(limits, record.file, total, count) || record.file.size > |rest| then
        None
      else
        var data := rest[..record.file.size];
        if record.file.sha != Some(Sha256(Raw(data))) then None
        else Some(Received([record.file], [data], rest[record.file.size..]))
  }

  /** One file is received exactly when its record comes next, is about the expected file, and, if it is ready, keeps
      every limit and is followed by its bytes. */
  lemma ReceivedExactly(c: Codec, limits: Limits, expected: InputFile, total: int, count: nat, stream: Data)
    ensures ReceiveFile(c, limits, expected, total, count, stream).Some? <==>
            && TakeRecord(c, stream).Some? && TakeRecord(c, stream).value.record.FileRecord?
            && var f, rest := TakeRecord(c, stream).value.record.file, TakeRecord(c, stream).value.rest;
               && f.file == expected.file && f.post == expected.post && f.path == expected.path
               && f.channel == expected.channel
               && (f.status == Ready ==>
                     && SizeAllowed(limits, f.mime, f.size) && f.size <= limits.maxBatch - total
                     && count <= limits.maxPerPost
                     && f.size <= |rest| && f.sha == Some(Sha256(Raw(rest[..f.size]))))
    ensures ReceiveFile(c, limits, expected, total, count, stream).Some? ==>
              var got := ReceiveFile(c, limits, expected, total, count, stream).value;
              var f, rest := TakeRecord(c, stream).value.record.file, TakeRecord(c, stream).value.rest;
              && got.entries == [f]
              && (f.status == Ready ==> got.datas == [rest[..f.size]] && got.rest == rest[f.size..])
              && (f.status != Ready ==> got.datas == [[]] && got.rest == rest)
  {
    hide TakeRecord;
  }

  /** The first n files of a batch as read from the stream. */
  function ReceiveFiles(c: Codec, r: Request, n: nat, stream: Data): (got: Option<Received>)
    requires n <= |r.files|
    ensures got.Some? ==> |got.value.entries| == |got.value.datas| == n
  {
    if n == 0 then
      Some(Received([], [], stream))
    else
      var before := ReceiveFiles(c, r, n - 1, stream);
      if before.None? then
        None
      else
        var file := ReceiveFile(c, r.limits, r.files[n - 1], Used(before.value.entries),
            CountOf(r.files[..n], r.files[n - 1].post), before.value.rest);
        if file.None? then
          None
        else
          ReceiveOne(c, r.limits, r.files[n - 1], Used(before.value.entries),
              CountOf(r.files[..n], r.files[n - 1].post), before.value.rest);
          Some(Received(before.value.entries + file.value.entries, before.value.datas + file.value.datas,
              file.value.rest))
  }

  lemma ReceiveOne(c: Codec, limits: Limits, expected: InputFile, total: int, count: nat, stream: Data)
    requires ReceiveFile(c, limits, expected, total, count, stream).Some?
    ensures |ReceiveFile(c, limits, expected, total, count, stream).value.entries| == 1
    ensures |ReceiveFile(c, limits, expected, total, count, stream).value.datas| == 1
  {
  }

  /** What is received keeps the limits of the request: each ready file by its type, all of them together, and how many
      of a post there are. */
  ghost predicate Bounded(limits: Limits, files: seq<InputFile>, entries: seq<InputFile>) {
    && |entries| == |files|
    && (forall i :: 0 <= i < |entries| && entries[i].status == Ready ==>
          && SizeAllowed(limits, entries[i].mime, entries[i].size)
          && |FilesOf(files[..i + 1], files[i].post)| <= limits.maxPerPost)
    && 0 <= ReadyBytes(entries) <= limits.maxBatch
  }

  lemma {:induction false} ReceivedIsBounded(c: Codec, r: Request, n: nat, stream: Data)
    requires n <= |r.files| && ReceiveFiles(c, r, n, stream).Some? && r.limits.maxBatch >= 0
    ensures Bounded(r.limits, r.files[..n], ReceiveFiles(c, r, n, stream).value.entries)
    decreases n
  {
    hide ReceiveFile, SizeAllowed, FilesOf, Used, CountOf;
    if n > 0 {
      ReceivedIsBounded(c, r, n - 1, stream);
      var before := ReceiveFiles(c, r, n - 1, stream).value;
      var post := r.files[n - 1].post;
      ReceivedExactly(c, r.limits, r.files[n - 1], Used(before.entries), CountOf(r.files[..n], post), before.rest);
      UsedIsReady(before.entries);
      CountIsSize(r.files[..n], post);
      var f := ReceiveFile(c, r.limits, r.files[n - 1], Used(before.entries), CountOf(r.files[..n], post),
          before.rest).value.entries[0];
      BoundedStep(r.limits, r.files, n, before.entries, f);
    }
  }

  lemma BoundedStep(limits: Limits, files: seq<InputFile>, n: nat, before: seq<InputFile>, f: InputFile)
    requires 0 < n <= |files| && Bounded(limits, files[..n - 1], before)
    requires f.status == Ready ==>
               && SizeAllowed(limits, f.mime, f.size) && ReadyBytes(before) + f.size <= limits.maxBatch
               && |FilesOf(files[..n], files[n - 1].post)| <= limits.maxPerPost
    ensures Bounded(limits, files[..n], before + [f])
  {
    SizeIsNatural(limits, f.mime, f.size);
    hide SizeAllowed, FilesOf;
    ReadyAppend(before, f);
    forall i | 0 <= i < n - 1
      ensures files[..n][..i + 1] == files[..n - 1][..i + 1] && files[..n][i] == files[..n - 1][i]
    {
    }
    assert files[..n][..n] == files[..n];
  }

  datatype Import = Import(request: Request, entries: seq<InputFile>, datas: seq<Data>)

  /** A stream is complete when it holds a valid request, all its files, and nothing more. */
  function Receive(c: Codec, stream: Data): Option<Import> {
    match TakeRecord(c, stream)
    case None => None
    case Some(Taken(record, rest)) =>
      if !record.RequestRecord? || !ValidRequest(record.request) then
        None
      else
        match ReceiveFiles(c, record.request, |record.request.files|, rest)
        case None => None
        case Some(got) => if got.rest != [] then None else Some(Import(record.request, got.entries, got.datas))
  }

  // --- sender and receiver ---

  /** A received prefix that is exactly what was sent. */
  ghost predicate AsSent(remote: Remote, r: Request, n: nat, got: Option<Received>, rest: Data)
    requires n <= |r.files|
  {
    && got.Some? && got.value.rest == rest
    && got.value.entries == SentFiles(remote, r.limits, r.files[..n])
    && |got.value.datas| == n
    && forall i :: 0 <= i < n ==> got.value.datas[i] == SentData(remote, got.value.entries[i])
  }

  lemma AsSentStep(c: Codec, remote: Remote, r: Request, n: nat, stream: Data, line: Data, tail: Data)
    requires 0 < n <= |r.files|
    requires AsSent(remote, r, n - 1, ReceiveFiles(c, r, n - 1, stream), line)
    requires var sent := SentFiles(remote, r.limits, r.files[..n - 1]);
             var count := CountOf(r.files[..n], r.files[n - 1].post);
             var f := SentFile(remote, r.limits, r.files[n - 1], Used(sent), count);
             ReceiveFile(c, r.limits, r.files[n - 1], Used(sent), count, line) ==
                 Some(Received([f], [SentData(remote, f)], tail))
    ensures AsSent(remote, r, n, ReceiveFiles(c, r, n, stream), tail)
  {
    hide ReceiveFile, SentFile, SentData;
    assert r.files[..n][..n - 1] == r.files[..n - 1];
  }

  lemma EmittedStep(c: Codec, remote: Remote, r: Request, n: nat)
    requires 0 < n <= |r.files| && Emitted(c, remote, r.limits, r.files[..n]).Some?
    ensures var sent := SentFiles(remote, r.limits, r.files[..n - 1]);
            var f := SentFile(remote, r.limits, r.files[n - 1], Used(sent), CountOf(r.files[..n], r.files[n - 1].post));
            && Emitted(c, remote, r.limits, r.files[..n - 1]).Some?
            && Framed(c, FileRecord(f)).Some?
            && Emitted(c, remote, r.limits, r.files[..n]).value
               == Emitted(c, remote, r.limits, r.files[..n - 1]).value +
                   (Framed(c, FileRecord(f)).value + SentData(remote, f))
  {
    hide SentFile, Framed, SentData;
    assert r.files[..n][..n - 1] == r.files[..n - 1];
  }

  lemma NothingReceived(c: Codec, remote: Remote, r: Request, tail: Data)
    ensures Emitted(c, remote, r.limits, r.files[..0]).Some?
    ensures AsSent(remote, r, 0, ReceiveFiles(c, r, 0, Emitted(c, remote, r.limits, r.files[..0]).value + tail), tail)
  {
    assert [] + tail == tail;
  }

  lemma Regroup(a: Data, b: Data, c: Data)
    ensures (a + b) + c == a + (b + c)
  {
  }

  lemma {:induction false} EmittedIsReceived(
    c: Codec, remote: Remote, contents: map<Id, Data>, r: Request, n: nat, tail: Data)
    requires Lawful(c) && Honest(remote, contents) && n <= |r.files|
    requires Emitted(c, remote, r.limits, r.files[..n]).Some?
    ensures AsSent(remote, r, n, ReceiveFiles(c, r, n, Emitted(c, remote, r.limits, r.files[..n]).value + tail), tail)
    decreases n
  {
    hide *;
    if n == 0 {
      NothingReceived(c, remote, r, tail);
    } else {
      EmittedStep(c, remote, r, n);
      var before := Emitted(c, remote, r.limits, r.files[..n - 1]).value;
      var sent := SentFiles(remote, r.limits, r.files[..n - 1]);
      var count := CountOf(r.files[..n], r.files[n - 1].post);
      var f := SentFile(remote, r.limits, r.files[n - 1], Used(sent), count);
      var own := Framed(c, FileRecord(f)).value + SentData(remote, f);
      EmittedIsReceived(c, remote, contents, r, n - 1, own + tail);
      Regroup(before, own, tail);
      SentIsReceived(c, remote, contents, r.limits, r.files[n - 1], Used(sent), count, tail);
      AsSentStep(c, remote, r, n, before + (own + tail), own + tail, tail);
    }
  }

  lemma SentIsReceived(
    c: Codec, remote: Remote, contents: map<Id, Data>, limits: Limits, file: InputFile, total: int, count: nat,
        tail: Data)
    requires Lawful(c) && Honest(remote, contents)
    requires Framed(c, FileRecord(SentFile(remote, limits, file, total, count))).Some?
    ensures var f := SentFile(remote, limits, file, total, count);
            ReceiveFile(c, limits, file, total, count, Framed(c, FileRecord(f)).value + SentData(remote, f) + tail)
            == Some(Received([f], [SentData(remote, f)], tail))
  {
    var f := SentFile(remote, limits, file, total, count);
    var line, data := Framed(c, FileRecord(f)).value, SentData(remote, f);
    SentFileKeepsLimits(remote, contents, limits, file, total, count);
    hide SentFile, TakeRecord;
    assert line + data + tail == line + (data + tail);
    FramedIsTaken(c, FileRecord(f), data + tail);
    if f.status.Ready? {
      assert (data + tail)[..f.size] == data && (data + tail)[f.size..] == tail;
    } else {
      assert data + tail == tail;
    }
  }

  /** Of the streams that the sender, which checks less than the receiver, completes, exactly those are received in
      full, entry for entry and byte for byte, whose limits and names both halves judge alike. */
  lemma RoundTrip(c: Codec, remote: Remote, contents: map<Id, Data>, r: Request)
    requires Lawful(c) && Honest(remote, contents) && GoValid(r)
    requires Stream(c, remote, r).Some?
    ensures var got := Receive(c, Stream(c, remote, r).value);
            && (got.Some? <==>
                  && r.limits.maxPerPost > 0
                  && forall f :: f in r.files ==> !EndsInSeparator(f.name) || Clean(Base(f.name)) == DEFAULT)
            && (got.Some? ==>
                  && got.value.request == r
                  && got.value.entries == SentFiles(remote, r.limits, r.files)
                  && |got.value.datas| == |r.files|
                  && forall i :: 0 <= i < |r.files| ==> got.value.datas[i] == SentData(remote, got.value.entries[i]))
  {
    ValidInBoth(r);
    hide TakeRecord, ReceiveFiles, ValidRequest, GoValid, SentFiles, Clean, Base;
    if ValidRequest(r) {
      ValidIsReceived(c, remote, contents, r);
    } else {
      FramedIsTaken(c, RequestRecord(r), Emitted(c, remote, r.limits, r.files).value);
    }
  }

  lemma ValidIsReceived(c: Codec, remote: Remote, contents: map<Id, Data>, r: Request)
    requires Lawful(c) && Honest(remote, contents) && ValidRequest(r)
    requires Stream(c, remote, r).Some?
    ensures var got := Receive(c, Stream(c, remote, r).value);
            && got.Some? && got.value.request == r
            && got.value.entries == SentFiles(remote, r.limits, r.files)
            && |got.value.datas| == |r.files|
            && forall i :: 0 <= i < |r.files| ==> got.value.datas[i] == SentData(remote, got.value.entries[i])
  {
    var body := Emitted(c, remote, r.limits, r.files).value;
    FramedIsTaken(c, RequestRecord(r), body);
    assert r.files[..|r.files|] == r.files && body + [] == body;
    EmittedIsReceived(c, remote, contents, r, |r.files|, []);
  }

  lemma FileStays(c: Codec, limits: Limits, expected: InputFile, total: int, count: nat, stream: Data, more: Data)
    requires ReceiveFile(c, limits, expected, total, count, stream).Some?
    ensures var got := ReceiveFile(c, limits, expected, total, count, stream).value;
            ReceiveFile(c, limits, expected, total, count, stream + more) == Some(got.(rest := got.rest + more))
  {
    TakenStays(c, stream, more);
    hide TakeRecord, Fits, Matches;
    var taken := TakeRecord(c, stream).value;
    if taken.record.file.status.Ready? {
      var n := taken.record.file.size;
      SizeFits(limits, taken.record.file, total, count);
      assert (taken.rest + more)[..n] == taken.rest[..n];
      assert (taken.rest + more)[n..] == taken.rest[n..] + more;
    }
  }

  lemma SizeFits(limits: Limits, f: InputFile, total: int, count: nat)
    ensures Fits(limits, f, total, count) ==> f.size >= 0
  {
  }

  lemma {:induction false} FilesStay(c: Codec, r: Request, n: nat, stream: Data, more: Data)
    requires n <= |r.files| && ReceiveFiles(c, r, n, stream).Some?
    ensures var got := ReceiveFiles(c, r, n, stream).value;
            ReceiveFiles(c, r, n, stream + more) == Some(got.(rest := got.rest + more))
    decreases n
  {
    hide ReceiveFile;
    if n > 0 {
      FilesStay(c, r, n - 1, stream, more);
      var before := ReceiveFiles(c, r, n - 1, stream).value;
      FileStays(c, r.limits, r.files[n - 1], Used(before.entries), CountOf(r.files[..n], r.files[n - 1].post),
          before.rest, more);
    }
  }

  /** A complete stream with anything after it is refused. */
  lemma ExtendedIsRefused(c: Codec, stream: Data, more: Data)
    requires Receive(c, stream).Some? && more != []
    ensures Receive(c, stream + more).None?
  {
    TakenStays(c, stream, more);
    hide TakeRecord, ValidRequest;
    var taken := TakeRecord(c, stream).value;
    FilesStay(c, taken.record.request, |taken.record.request.files|, taken.rest, more);
  }

  /** So is every part of one: no stream and a proper prefix of it are both complete. */
  lemma TruncatedIsRefused(c: Codec, stream: Data, n: nat)
    requires Receive(c, stream).Some? && n < |stream|
    ensures Receive(c, stream[..n]).None?
  {
    assert stream[..n] + stream[n..] == stream;
    if Receive(c, stream[..n]).Some? {
      ExtendedIsRefused(c, stream[..n], stream[n..]);
    }
  }

  /** The ready files of the stream carry the bytes of the chat server. */
  ghost predicate TrueStream(c: Codec, r: Request, stream: Data, contents: map<Id, Data>) {
    forall n: nat :: n <= |r.files| && ReceiveFiles(c, r, n, stream).Some? ==>
        TrueBytes(ReceiveFiles(c, r, n, stream).value, contents)
  }

  ghost predicate TrueBytes(got: Received, contents: map<Id, Data>) {
    forall i :: 0 <= i < |got.entries| && i < |got.datas| && got.entries[i].status.Ready? ==>
      got.entries[i].file in contents && got.datas[i] == contents[got.entries[i].file]
  }

  /** A stream from the sender is true, and so is any part of it: an interrupted import leaves no false bytes. */
  lemma EmittedIsTrue(c: Codec, remote: Remote, contents: map<Id, Data>, r: Request, k: nat)
    requires Lawful(c) && Honest(remote, contents) && Emitted(c, remote, r.limits, r.files).Some?
    requires k <= |Emitted(c, remote, r.limits, r.files).value|
    ensures TrueStream(c, r, Emitted(c, remote, r.limits, r.files).value, contents)
    ensures TrueStream(c, r, Emitted(c, remote, r.limits, r.files).value[..k], contents)
  {
    WholeIsTrue(c, remote, contents, r);
    var body := Emitted(c, remote, r.limits, r.files).value;
    hide Emitted, ReceiveFiles, TrueBytes;
    forall n: nat | n <= |r.files| && ReceiveFiles(c, r, n, body[..k]).Some?
      ensures TrueBytes(ReceiveFiles(c, r, n, body[..k]).value, contents) {
      FilesStay(c, r, n, body[..k], body[k..]);
      assert body[..k] + body[k..] == body;
      SameBytes(ReceiveFiles(c, r, n, body[..k]).value, ReceiveFiles(c, r, n, body).value, contents);
    }
  }

  lemma SameBytes(a: Received, b: Received, contents: map<Id, Data>)
    requires a.entries == b.entries && a.datas == b.datas && TrueBytes(b, contents)
    ensures TrueBytes(a, contents)
  {
  }

  lemma WholeIsTrue(c: Codec, remote: Remote, contents: map<Id, Data>, r: Request)
    requires Lawful(c) && Honest(remote, contents) && Emitted(c, remote, r.limits, r.files).Some?
    ensures TrueStream(c, r, Emitted(c, remote, r.limits, r.files).value, contents)
  {
    var body := Emitted(c, remote, r.limits, r.files).value;
    forall n: nat | n <= |r.files| ensures ReceiveFiles(c, r, n, body).Some? &&
        TrueBytes(ReceiveFiles(c, r, n, body).value, contents) {
      var tail := EmittedPrefix(c, remote, r, n);
      EmittedIsReceived(c, remote, contents, r, n, tail);
      SentIsTrue(remote, contents, r.limits, r.files[..n]);
    }
  }

  lemma {:induction false} SentIsTrue(remote: Remote, contents: map<Id, Data>, limits: Limits, files: seq<InputFile>)
    requires Honest(remote, contents)
    ensures forall i :: 0 <= i < |files| && SentFiles(remote, limits, files)[i].status.Ready? ==>
              SentFiles(remote, limits, files)[i].file in remote.data
  {
    if files != [] {
      var n := |files| - 1;
      SentIsTrue(remote, contents, limits, files[..n]);
      SentFileKeepsLimits(remote, contents, limits, files[n], Used(SentFiles(remote, limits, files[..n])),
          CountOf(files, files[n].post));
      hide SentFile;
      assert SentFiles(remote, limits, files)[..n] == SentFiles(remote, limits, files[..n]);
      forall i | 0 <= i < n && SentFiles(remote, limits, files)[i].status.Ready?
        ensures SentFiles(remote, limits, files)[i].file in remote.data
      {
        assert SentFiles(remote, limits, files)[i] == SentFiles(remote, limits, files[..n])[i];
      }
    }
  }

  /** What is sent for the first files begins what is sent for all. */
  lemma {:induction false} EmittedPrefix(c: Codec, remote: Remote, r: Request, n: nat) returns (tail: Data)
    requires n <= |r.files| && Emitted(c, remote, r.limits, r.files).Some?
    ensures Emitted(c, remote, r.limits, r.files[..n]).Some?
    ensures Emitted(c, remote, r.limits, r.files).value == Emitted(c, remote, r.limits, r.files[..n]).value + tail
    decreases |r.files| - n
  {
    assert r.files[..|r.files|] == r.files;
    tail := [];
    if n < |r.files| {
      hide *;
      var later := EmittedPrefix(c, remote, r, n + 1);
      EmittedStep(c, remote, r, n + 1);
      var sent := SentFiles(remote, r.limits, r.files[..n]);
      var f := SentFile(remote, r.limits, r.files[n], Used(sent), CountOf(r.files[..n + 1], r.files[n].post));
      var own := Framed(c, FileRecord(f)).value + SentData(remote, f);
      Regroup(Emitted(c, remote, r.limits, r.files[..n]).value, own, later);
      tail := own + later;
    } else {
      assert Emitted(c, remote, r.limits, r.files).value + [] == Emitted(c, remote, r.limits, r.files).value;
    }
  }

  /** One pass of import_input's loop: read a record, check it against the request, save a ready file. */
  method ImportFile(
    store: Store, c: Codec, limits: Limits, expected: InputFile, total: int, count: nat, stream: Data,
    ghost contents: map<Id, Data>, ghost honest: bool) returns (got: Option<Received>)
    requires Consistent(store.files, contents, honest)
    requires expected.path.FilePath? && expected.path.file == expected.file
    requires var spec := ReceiveFile(c, limits, expected, total, count, stream);
             honest && spec.Some? ==> TrueBytes(spec.value, contents)
    modifies store
    ensures got == ReceiveFile(c, limits, expected, total, count, stream)
    ensures CrashSafe(old(store.points), store.points, store.files, contents, honest)
    ensures InputsOnly(old(store.files), old(store.points), store.points, store.files)
    ensures got.Some? ==> Present(got.value.entries, store.files)
  {
    var taken := TakeRecord(c, stream);
    if taken.None? || !taken.value.record.FileRecord? || !Matches(taken.value.record.file, expected) {
      return None;
    }
    var f, rest := taken.value.record.file, taken.value.rest;
    if !f.status.Ready? {
      return Some(Received([f], [[]], rest));
    }
    if !Fits(limits, f, total, count) {
      return None;
    }
    var n := if f.size < |rest| then f.size else |rest|;
    ghost var spec := ReceiveFile(c, limits, expected, total, count, stream);
    assert IsWhole(f, rest[..n]) ==> spec == Some(Received([f], [rest[..n]], rest[n..]));
    assert IsWhole(f, rest[..n]) ==> spec.value.entries[0] == f && spec.value.datas[0] == rest[..n];
    var ok := SaveFile(store, f, rest[..n], contents, honest);
    got := if ok then Some(Received([f], [rest[..n]], rest[n..])) else None;
  }

  lemma CrashSafeTwo(
    before: set<Files>, points: set<Files>, was: Files, first: Files, second: Files, contents: map<Id, Data>,
        honest: bool)
    requires CrashSafe(before, points, was, contents, honest)
    requires Consistent(first, contents, honest) && Consistent(second, contents, honest)
    ensures CrashSafe(before, points + {first} + {second}, second, contents, honest)
  {
  }

  /** import_input's loop. */
  method ImportFiles(
    store: Store, c: Codec, r: Request, stream: Data, ghost contents: map<Id, Data>, ghost honest: bool)
    returns (got: Option<Received>)
    requires Consistent(store.files, contents, honest) && ValidRequest(r)
    requires honest ==> TrueStream(c, r, stream, contents)
    modifies store
    ensures got == ReceiveFiles(c, r, |r.files|, stream)
    ensures CrashSafe(old(store.points), store.points, store.files, contents, honest)
    ensures InputsOnly(old(store.files), old(store.points), store.points, store.files)
    ensures got.Some? ==> Present(got.value.entries, store.files)
  {
    hide *;
    var entries, datas, rest := [], [], stream;
    var total: int := 0;
    var counts: map<Id, nat> := map[];
    ReceivingStart(c, r, stream);
    InputsOnlyTrans(store.files, store.files, store.points, store.points, store.points, store.files);
    NonePresent(store.files);
    CrashSafeTrans(store.points, store.points, store.points, store.files, store.files, contents, honest);
    for i := 0 to |r.files|
      invariant CrashSafe(old(store.points), store.points, store.files, contents, honest)
      invariant InputsOnly(old(store.files), old(store.points), store.points, store.files)
      invariant Receiving(c, r, i, stream, Received(entries, datas, rest), total, counts)
      invariant Present(entries, store.files)
    {
      var expected := r.files[i];
      FileIsNamed(r, i);
      CrashSafeTrans(old(store.points), store.points, store.points, store.files, store.files, contents, honest);
      ghost var so := Received(entries, datas, rest);
      ReceivingStep(c, r, i, stream, so, total, counts);
      if honest {
        NextIsTrue(c, r, i, stream, so, total, counts, contents);
      }
      label before:
      var file := ImportFile(store, c, r.limits, expected, total, Counted(counts, expected.post)[expected.post], rest,
          contents, honest);
      CrashSafeTrans(old(store.points), old@before(store.points), store.points, old@before(store.files), store.files,
          contents, honest);
      InputsOnlyTrans(old(store.files), old@before(store.files), old(store.points), old@before(store.points),
          store.points, store.files);
      InputsOnlyTrans(old@before(store.files), store.files, old@before(store.points), store.points, store.points,
          store.files);
      if file.None? {
        return None;
      }
      BothPresent(entries, file.value.entries, old@before(store.files), store.files);
      entries, datas, rest := entries + file.value.entries, datas + file.value.datas, file.value.rest;
      counts := Counted(counts, expected.post);
      total := total + if file.value.entries[0].status.Ready? then file.value.entries[0].size else 0;
    }
    ReceivingEnds(c, r, stream, Received(entries, datas, rest), total, counts);
    return Some(Received(entries, datas, rest));
  }

  /** Where the receiver's loop stands after i files. */
  ghost predicate Receiving(c: Codec, r: Request, i: nat, stream: Data, so: Received, total: int, counts: map<Id, nat>)
    requires i <= |r.files|
  {
    && ReceiveFiles(c, r, i, stream) == Some(so)
    && total == Used(so.entries)
    && forall p :: CountOf(r.files[..i], p) == if p in counts then counts[p] else 0
  }

  lemma ReceivingStart(c: Codec, r: Request, stream: Data)
    ensures Receiving(c, r, 0, stream, Received([], [], stream), 0, map[])
  {
  }

  lemma ReceivingStep(c: Codec, r: Request, i: nat, stream: Data, so: Received, total: int, counts: map<Id, nat>)
    requires i < |r.files| && Receiving(c, r, i, stream, so, total, counts)
    ensures var more := Counted(counts, r.files[i].post);
            var file := ReceiveFile(c, r.limits, r.files[i], total, more[r.files[i].post], so.rest);
            && (file.None? ==> ReceiveFiles(c, r, |r.files|, stream).None?)
            && (file.Some? ==>
                  && |file.value.entries| == |file.value.datas| == 1
                  && ReceiveFiles(c, r, i + 1, stream) ==
                       Some(Received(so.entries + file.value.entries, so.datas + file.value.datas, file.value.rest))
                  && Receiving(c, r, i + 1, stream,
                       Received(so.entries + file.value.entries, so.datas + file.value.datas, file.value.rest),
                               total + (if file.value.entries[0].status.Ready? then file.value.entries[0].size else 0),
                                   more))
  {
    hide ReceiveFile;
    CountStep(r.files, i, counts);
    var more := Counted(counts, r.files[i].post);
    var file := ReceiveFile(c, r.limits, r.files[i], total, more[r.files[i].post], so.rest);
    if file.None? {
      ReceivingStops(c, r, i + 1, stream);
    } else {
      ReceiveOne(c, r.limits, r.files[i], total, more[r.files[i].post], so.rest);
      assert file.value.entries == [file.value.entries[0]];
      UsedStep(so.entries, file.value.entries[0]);
    }
  }

  lemma {:induction false} ReceivingStops(c: Codec, r: Request, n: nat, stream: Data)
    requires n <= |r.files| && ReceiveFiles(c, r, n, stream).None?
    ensures ReceiveFiles(c, r, |r.files|, stream).None?
    decreases |r.files| - n
  {
    if n < |r.files| {
      ReceivingStops(c, r, n + 1, stream);
    }
  }

  lemma ReceivingEnds(c: Codec, r: Request, stream: Data, so: Received, total: int, counts: map<Id, nat>)
    requires Receiving(c, r, |r.files|, stream, so, total, counts)
    ensures ReceiveFiles(c, r, |r.files|, stream) == Some(so)
  {
  }

  lemma NextIsTrue(
    c: Codec, r: Request, i: nat, stream: Data, so: Received, total: int, counts: map<Id, nat>, contents: map<Id, Data>)
    requires i < |r.files| && TrueStream(c, r, stream, contents) && Receiving(c, r, i, stream, so, total, counts)
    ensures var more := Counted(counts, r.files[i].post);
            var file := ReceiveFile(c, r.limits, r.files[i], total, more[r.files[i].post], so.rest);
            file.Some? ==> TrueBytes(file.value, contents)
  {
    ReceivingStep(c, r, i, stream, so, total, counts);
    hide ReceiveFile, Receiving, ReceiveFiles;
    var more := Counted(counts, r.files[i].post);
    var file := ReceiveFile(c, r.limits, r.files[i], total, more[r.files[i].post], so.rest);
    if file.Some? {
      var all := ReceiveFiles(c, r, i + 1, stream).value;
      assert TrueBytes(all, contents);
      assert all.entries[i] == file.value.entries[0] && all.datas[i] == file.value.datas[0];
    }
  }

  lemma BothPresent(a: seq<InputFile>, b: seq<InputFile>, before: Files, after: Files)
    requires Present(a, before) && Present(b, after) && OnlyInputs(before, after)
    ensures Present(a + b, after)
  {
  }

  /** The last two writes of a complete import. */
  lemma ImportWrites(start: Files, before: set<Files>, points: set<Files>, received: Files, r: Request, m: Manifest)
    requires InputsOnly(start, before, points, received) && !Conflicts(start, r)
    ensures !Conflicts(received, r)
    ensures var asked := received[RequestPath(r.anchor) := RequestDoc(Frozen(r))];
            var done := asked[ManifestPath(r.anchor) := ManifestDoc(m)];
            BatchOnly(start, before, points + {asked} + {done}, done, r)
  {
  }

  /** Store.import_input. The manifest is committed exactly when the stream is complete and does not contradict the
      frozen request; whatever arrives, every crash leaves a consistent workspace. */
  method ImportInput(store: Store, c: Codec, stream: Data, ghost contents: map<Id, Data>, ghost honest: bool)
    returns (ok: bool)
    requires Consistent(store.files, contents, honest)
    requires honest ==>
              forall t :: TakeRecord(c, stream) == Some(t) && t.record.RequestRecord? ==>
                  TrueStream(c, t.record.request, t.rest, contents)
    modifies store
    ensures ok <==> Receive(c, stream).Some? && !Conflicts(old(store.files), Receive(c, stream).value.request)
    ensures CrashSafe(old(store.points), store.points, store.files, contents, honest)
    ensures !ok ==> InputsOnly(old(store.files), old(store.points), store.points, store.files)
    ensures ok ==>
              var got := Receive(c, stream).value;
              && ManifestPath(got.request.anchor) in store.files
              && store.files[ManifestPath(got.request.anchor)] == ManifestDoc(Batch(got.request, got.entries))
              && Present(got.entries, store.files)
              && Bounded(got.request.limits, got.request.files, got.entries)
    ensures ok ==> BatchOnly(old(store.files), old(store.points), store.points, store.files,
              Receive(c, stream).value.request)
  {
    CrashSafeTrans(store.points, store.points, store.points, store.files, store.files, contents, honest);
    InputsOnlyTrans(store.files, store.files, store.points, store.points, store.points, store.files);
    var taken := TakeRecord(c, stream);
    if taken.None? || !taken.value.record.RequestRecord? || !ValidRequest(taken.value.record.request) {
      return false;
    }
    var r := taken.value.record.request;
    if Conflicts(store.files, r) {
      return false;
    }
    var got := ImportFiles(store, c, r, taken.value.rest, contents, honest);
    if got.None? || got.value.rest != [] {
      return false;
    }
    ok := true;
    hide Consistent, CrashSafe, InputsOnly, BatchOnly, Present, ReceiveFiles, TakeRecord, Bounded;
    ValidLimits(r);
    ReceivedIsBounded(c, r, |r.files|, taken.value.rest);
    assert r.files[..|r.files|] == r.files;
    label received:
    ImportWrites(old(store.files), old(store.points), store.points, store.files, r, Batch(r, got.value.entries));
    RequestWritten(store.files, contents, honest, r);
    store.Write(RequestPath(r.anchor), RequestDoc(Frozen(r)));
    label frozen:
    ManifestWritten(store.files, contents, honest, r, got.value.entries);
    store.Write(ManifestPath(r.anchor), ManifestDoc(Batch(r, got.value.entries)));
    CrashSafeTwo(old(store.points), old@received(store.points), old@received(store.files), old@frozen(store.files),
        store.files, contents, honest);
    StillPresent(got.value.entries, old@received(store.files), store.files);
  }
}
