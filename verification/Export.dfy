/** Sealing and uploading a run's output (Store.seal, export_output and validate_output,
    internal/sandbox/files.py:379-477), and the connector's check of the result
    (internal/attachments/output.go:17-33). */
module Export {
  import opened Collections
  import opened Names
  import W = Workspace

  type Id = W.Id
  type Data = W.Data
  type Digest = W.Digest

  // The digest of the run, the path and the content digest; injective.
  datatype ArtifactId = ArtifactId(run: Id, path: string, sha: Digest)

  datatype Artifact = Artifact(id: ArtifactId, file: Id, name: string, path: string, sha: Digest, size: int)

  datatype Stage = Sealed | Uploading | Ready | OtherStage

  datatype Output = Output(
    schema: nat, source: Id, bot: Id, channel: Id, session: Id, run: Id, stage: Stage, files: seq<Artifact>)

  // Encoded, a manifest takes `header` bytes besides its stage and files, and a string `length` of it.
  datatype Request = Request(
    source: Id, bot: Id, channel: Id, session: Id, run: Id, maxFiles: int, maxBytes: int,
    header: nat, length: string -> nat)

  function DigestOf(data: Data): Digest {
    W.Sha256(W.Raw(data))
  }

  const SNAPSHOT := "snapshot/"
  const MANIFEST := 16384 // bytes of an encoded manifest

  // --- the encoded size of a manifest ---

  function Digits(n: int): nat {
    if n < 10 then 1 else 1 + Digits(n / 10)
  }

  ghost function Power(n: nat): nat {
    if n == 0 then 1 else 10 * Power(n - 1)
  }

  /** The digits of a number in decimal notation. */
  lemma {:induction false} DigitsExactly(n: nat)
    ensures Digits(n) > 0 && n < Power(Digits(n)) && (n > 0 ==> Power(Digits(n) - 1) <= n)
  {
    if n >= 10 {
      DigitsExactly(n / 10);
    } else {
      assert Power(1) == 10 * Power(0);
    }
  }

  const ARTIFACT_JSON := "{\"artifact_id\":\"\",\"file_id\":\"\",\"name\":,\"path\":,\"sha256\":\"\",\"size_bytes\":}"

  /** What an artifact takes: its keys and punctuation, two digests in hexadecimal, name, path, size, and the identifier
      of an upload. */
  lemma ArtifactSizeExactly(f: Artifact, e: Request)
    ensures ArtifactSize(f, e) ==
            |ARTIFACT_JSON| + 2 * 64 + e.length(f.name) + e.length(f.path) + Digits(f.size)
            + if f.file == 0 then 0 else 26
  {
  }

  /** And a stage takes its name. */
  lemma StageSizeExactly(stage: Stage)
    ensures StageSize(stage) == match stage
                                case Sealed => |"sealed"|
                                case Uploading => |"uploading"|
                                case Ready => |"ready"|
                                case OtherStage => 0
  {
  }

  /** The keys, both digests and the punctuation take 201 bytes, an uploaded file's identifier 26. */
  function ArtifactSize(f: Artifact, e: Request): nat {
    201 + e.length(f.name) + e.length(f.path) + Digits(f.size) + if f.file == 0 then 0 else 26
  }

  function FilesSize(files: seq<Artifact>, e: Request): nat {
    if files == [] then 0
    else ArtifactSize(files[0], e) + FilesSize(files[1..], e) + if |files| > 1 then 1 else 0
  }

  function StageSize(stage: Stage): nat {
    match stage
    case Sealed => 6
    case Uploading => 9
    case Ready => 5
    case OtherStage => 0
  }

  function ManifestSize(o: Output, e: Request): nat {
    e.header + StageSize(o.stage) + FilesSize(o.files, e)
  }

  /** What the result of a seal will take once every upload is recorded. */
  function FinalSize(sealed: Output, e: Request): nat {
    e.header + StageSize(Ready) + FilesSize(sealed.files, e) + 26 * |sealed.files|
  }

  lemma {:induction false} RecordsGrow(sealed: seq<Artifact>, files: seq<Artifact>, e: Request)
    requires SameArtifacts(files, sealed)
    requires (forall f :: f in sealed ==> f.file == 0) && forall f :: f in files ==> f.file != 0
    ensures FilesSize(files, e) == FilesSize(sealed, e) + 26 * |sealed|
  {
    if sealed != [] {
      assert files[0].(file := 0) == sealed[0].(file := 0);
      RecordsGrow(sealed[1..], files[1..], e);
    }
  }

  /** A finished manifest is as long as its seal foretold. */
  lemma FinalIsForetold(e: Request, d: Disk, o: Output)
    requires Good(e, d) && d.upload.Some? && o == d.upload.value.(stage := Ready) &&
              forall f :: f in o.files ==> f.file != 0
    ensures d.sealed.Some? && ManifestSize(o, e) == FinalSize(d.sealed.value.manifest, e)
  {
    RecordsGrow(d.sealed.value.manifest.files, o.files, e);
  }

  lemma {:induction false} RecordsBounded(sealed: seq<Artifact>, files: seq<Artifact>, e: Request)
    requires SameArtifacts(files, sealed) && forall f :: f in sealed ==> f.file == 0
    ensures FilesSize(files, e) <= FilesSize(sealed, e) + 26 * |sealed|
  {
    if sealed != [] {
      assert files[0].(file := 0) == sealed[0].(file := 0);
      RecordsBounded(sealed[1..], files[1..], e);
    }
  }

  /** The record of an attempt that has not finished is at most four bytes longer than the final manifest. */
  lemma RecordIsReadable(e: Request, d: Disk)
    requires Good(e, d) && d.sealed.Some? && FinalSize(d.sealed.value.manifest, e) + 4 <= MANIFEST
    ensures Readable(e, d)
  {
    hide WellFormed, FilesSize;
    if d.upload.Some? {
      RecordsBounded(d.sealed.value.manifest.files, d.upload.value.files, e);
    }
  }

  /** The last record before the end, when every file has been uploaded. */
  function Uploaded(o: Output): Output {
    o.(stage := Uploading, files := seq(|o.files|, i requires 0 <= i < |o.files| => o.files[i].(file := 1)))
  }

  /** A seal is safe from every crash, in that whatever record an attempt leaves can be read by the next, exactly when
      its final manifest leaves those four bytes. */
  lemma StrandedExactly(e: Request, s: Seal)
    requires SealOk(e, s)
    ensures (forall upload :: Good(e, Disk(Some(s), upload, None)) ==> Readable(e, Disk(Some(s), upload, None)))
            <==> FinalSize(s.manifest, e) + 4 <= MANIFEST
  {
    hide FilesSize, CleanPath;
    var last := Uploaded(s.manifest);
    var d := Disk(Some(s), Some(last), None);
    forall f | f in last.files ensures ArtifactOk(last, e, f, f.name == PythonName(f.name)) && f.file != 0 {
      var k :| 0 <= k < |last.files| && last.files[k] == f;
      assert s.manifest.files[k] in s.manifest.files;
    }
    assert Good(e, d);
    RecordsGrow(s.manifest.files, last.files, e);
    assert Readable(e, d) <==> FinalSize(s.manifest, e) + 4 <= MANIFEST;
    if FinalSize(s.manifest, e) + 4 <= MANIFEST {
      forall upload | Good(e, Disk(Some(s), upload, None)) ensures Readable(e, Disk(Some(s), upload, None)) {
        RecordIsReadable(e, Disk(Some(s), upload, None));
      }
    }
  }

  /** A seal that is accepted but can never be finished: 73 files of one byte under the largest limit on their number.
      Once the uploads are recorded, their manifest is too long. */
  lemma Outgrown() returns (e: Request, s: Seal)
    ensures e.maxFiles == 100 && forall t :: e.length(t) == |t| + 2
    ensures SealOk(e, s) && FinalSize(s.manifest, e) > MANIFEST
  {
    hide FilesSize, CleanPath, Distinct, Describes, ArtifactOk, ArtifactSize, Numbered, PythonName, GoName, DigestOf;
    e := Request(1, 1, 1, 1, 1, 100, 1, 233, (t: string) => |t| + 2);
    var files := seq(73, i requires 0 <= i < 73 => Small(i));
    var snapshot := map i | 0 <= i < 73 :: Small(i).path := [0];
    s := Seal(Output(1, 1, 1, 1, 1, 1, Sealed, files), snapshot);
    forall i | 0 <= i < 73 ensures ArtifactOk(s.manifest, e, files[i], files[i].name == PythonName(files[i].name))
                                   && ArtifactSize(files[i], e) == 218 {
      SmallIsOk(s.manifest, e, i);
    }
    SmallDiffer(files);
    EqualSizes(files, e, 218);
    SmallDescribed(files, snapshot);
    SmallIsSealed(e, s);
  }

  lemma SmallIsSealed(e: Request, s: Seal)
    requires SameIdentity(s.manifest, e) && s.manifest.stage.Sealed? && |s.manifest.files| <= e.maxFiles
    requires |s.manifest.files| <= 100 && forall i :: 0 <= i < |s.manifest.files| ==> s.manifest.files[i] == Small(i)
    requires forall i :: 0 <= i < |s.manifest.files| ==>
               ArtifactOk(s.manifest, e, s.manifest.files[i],
                   s.manifest.files[i].name == PythonName(s.manifest.files[i].name))
    requires Distinct(s.manifest.files) && Describes(s.manifest.files, s.snapshot) &&
              ManifestSize(s.manifest, e) <= MANIFEST
    ensures SealOk(e, s)
  {
    hide ArtifactOk, Distinct, Describes, ManifestSize, Numbered, PythonName;
  }

  lemma SmallDescribed(files: seq<Artifact>, snapshot: Snapshot)
    requires |files| <= 100 && forall i :: 0 <= i < |files| ==> files[i] == Small(i)
    requires snapshot == map i | 0 <= i < |files| :: Small(i).path := [0]
    ensures Describes(files, snapshot)
  {
    hide Numbered;
    forall p | p in snapshot ensures exists f :: f in files && f.path == p {
      var i :| 0 <= i < |files| && Small(i).path == p;
      assert files[i] in files;
    }
  }

  lemma SmallIsOk(o: Output, e: Request, i: nat)
    requires i < 100 && o.run == 1 && o.stage.Sealed? && e.maxBytes == 1 && forall t :: e.length(t) == |t| + 2
    ensures ArtifactOk(o, e, Small(i), Small(i).name == PythonName(Small(i).name)) && ArtifactSize(Small(i), e) == 218
  {
    var c, d := '0' + (i / 10) as char, '0' + (i % 10) as char;
    assert Numbered(i) == [c, d] && Numbered(i)[1..] == [d] && [d][1..] == "";
    assert Components("") == [""];
    assert [d] + "" == [d] && [c] + [d] == [c, d];
    assert d != '/' && c != '/';
    assert Components([d]) == [[d] + ""] + [];
    assert Components(Numbered(i)) == [[c, d]];
    SnapshotPathIsClean(Numbered(i));
    SafeIsFixed("a");
  }

  lemma SmallDiffer(files: seq<Artifact>)
    requires |files| <= 100 && forall i :: 0 <= i < |files| ==> files[i] == Small(i)
    ensures Distinct(files)
  {
    forall i, j | 0 <= i < j < |files| ensures files[i].id != files[j].id {
      assert Numbered(i)[0] != Numbered(j)[0] || Numbered(i)[1] != Numbered(j)[1];
    }
  }

  lemma {:induction false} EqualSizes(files: seq<Artifact>, e: Request, size: nat)
    requires forall i :: 0 <= i < |files| ==> ArtifactSize(files[i], e) == size
    ensures files != [] ==> FilesSize(files, e) == |files| * (size + 1) - 1
  {
    hide ArtifactSize;
    if |files| > 1 {
      EqualSizes(files[1..], e, size);
      assert FilesSize(files, e) == size + FilesSize(files[1..], e) + 1;
      assert |files| * (size + 1) == (|files| - 1) * (size + 1) + (size + 1);
    }
  }

  /** One byte, named by a number. */
  function Small(i: nat): Artifact
    requires i < 100
  {
    Artifact(ArtifactId(1, Numbered(i), DigestOf([0])), 0, "a", SNAPSHOT + Numbered(i), DigestOf([0]), 1)
  }

  function Numbered(i: nat): string
    requires i < 100
  {
    ['0' + (i / 10) as char, '0' + (i % 10) as char]
  }

  // --- names and paths of artifacts ---

  function Components(path: string): (parts: seq<string>)
    ensures parts != []
  {
    if path == "" then [""]
    else
      var rest := Components(path[1..]);
      if path[0] == '/' then [""] + rest else [[path[0]] + rest[0]] + rest[1..]
  }

  /** No component is empty, "." or "..": the hook's test by splitting, the connector's by fs.ValidPath. */
  predicate CleanPath(path: string) {
    forall c :: c in Components(path) ==> c != "" && c != "." && c != ".."
  }

  /** A stretch between slashes, or between a slash and an end of the path. */
  ghost predicate IsComponent(path: string, a: int, b: int) {
    && 0 <= a <= b <= |path| && (a == 0 || path[a - 1] == '/') && (b == |path| || path[b] == '/')
    && forall i :: a <= i < b ==> path[i] != '/'
  }

  lemma ComponentShift(path: string, a: int, b: int)
    requires path != ""
    ensures 0 < a && (a > 1 || path[0] == '/') && IsComponent(path, a, b) ==>
              IsComponent(path[1..], a - 1, b - 1) && path[1..][a - 1..b - 1] == path[a..b]
    ensures (a > 0 || path[0] == '/') && IsComponent(path[1..], a, b) ==>
              IsComponent(path, a + 1, b + 1) && path[a + 1..b + 1] == path[1..][a..b]
  {
  }

  lemma {:induction false} ComponentsExactly(path: string) returns (first: nat)
    ensures IsComponent(path, 0, first) && Components(path)[0] == path[..first]
    ensures forall c :: c in Components(path)[1..] <==> Follows(path, c)
  {
    if path == "" {
      first := 0;
      return;
    }
    var before := ComponentsExactly(path[1..]);
    var rest := Components(path[1..]);
    first := if path[0] == '/' then 0 else before + 1;
    assert rest == [rest[0]] + rest[1..];
    assert Components(path)[1..] == if path[0] == '/' then rest else rest[1..];
    forall c ensures c in Components(path)[1..] <==> Follows(path, c) {
      FollowsShift(path, before, c);
    }
  }

  /** A component other than the first. */
  ghost predicate Follows(path: string, c: string) {
    exists a, b :: 0 < a && IsComponent(path, a, b) && path[a..b] == c
  }

  lemma FollowsShift(path: string, first: nat, c: string)
    requires path != "" && IsComponent(path[1..], 0, first)
    ensures Follows(path, c) <==> Follows(path[1..], c) || (path[0] == '/' && c == path[1..][..first])
  {
    if Follows(path, c) {
      var a, b :| 0 < a && IsComponent(path, a, b) && path[a..b] == c;
      ComponentShift(path, a, b);
      if a == 1 {
        assert path[0] == '/' && b - 1 == first;
      }
    }
    if Follows(path[1..], c) {
      var a, b :| 0 < a && IsComponent(path[1..], a, b) && path[1..][a..b] == c;
      ComponentShift(path, a, b);
    }
    if path[0] == '/' && c == path[1..][..first] {
      ComponentShift(path, 0, first);
    }
  }

  /** No stretch between the slashes is empty, a dot or two. */
  ghost predicate Proper(path: string) {
    forall a, b :: IsComponent(path, a, b) ==> path[a..b] != "" && path[a..b] != "." && path[a..b] != ".."
  }

  lemma ProperExactly(path: string)
    ensures CleanPath(path) <==> Proper(path)
  {
    var first := ComponentsExactly(path);
    var all := Components(path);
    assert all == [all[0]] + all[1..];
    forall a, b | IsComponent(path, a, b) ensures path[a..b] in all {
      if a > 0 {
        assert Follows(path, path[a..b]);
      } else {
        assert b == first;
      }
    }
    forall c | c in all ensures exists a, b :: IsComponent(path, a, b) && path[a..b] == c {
      if c == all[0] {
        assert path[0..first] == c;
      } else {
        assert Follows(path, c);
      }
    }
  }

  lemma {:induction false} ComponentsUnder(dir: string, path: string)
    requires '/' !in dir
    ensures Components(dir + "/" + path) == [dir] + Components(path)
  {
    if dir == "" {
      assert dir + "/" + path == "/" + path && ("/" + path)[1..] == path;
    } else {
      assert (dir + "/" + path)[1..] == dir[1..] + "/" + path;
      ComponentsUnder(dir[1..], path);
      assert dir == [dir[0]] + dir[1..];
    }
  }

  lemma SnapshotPathIsClean(relative: string)
    requires CleanPath(relative)
    ensures CleanPath(SNAPSHOT + relative)
  {
    ComponentsUnder("snapshot", relative);
    assert SNAPSHOT + relative == "snapshot" + "/" + relative;
  }

  // --- the two checks ---

  predicate SameIdentity(o: Output, e: Request) {
    o.schema == 1 && o.source == e.source && o.bot == e.bot && o.channel == e.channel && o.session == e.session &&
        o.run == e.run
  }

  predicate ArtifactOk(o: Output, e: Request, f: Artifact, named: bool) {
    && SNAPSHOT <= f.path && CleanPath(f.path) && named
    && 0 <= f.size <= e.maxBytes
    && f.id == ArtifactId(o.run, f.path[|SNAPSHOT|..], f.sha)
    && (o.stage.Ready? ==> f.file != 0)
  }

  predicate Distinct(files: seq<Artifact>) {
    forall i, j :: 0 <= i < j < |files| ==> files[i].id != files[j].id
  }

  /** validate_output, but for the encoded size. */
  predicate WellFormed(o: Output, e: Request) {
    && SameIdentity(o, e) && !o.stage.OtherStage? && |o.files| <= e.maxFiles
    && Distinct(o.files)
    && forall f :: f in o.files ==> ArtifactOk(o, e, f, f.name == PythonName(f.name))
  }

  predicate HookAccepts(o: Output, e: Request) {
    WellFormed(o, e) && ManifestSize(o, e) <= MANIFEST
  }

  /** Output.Validate. */
  predicate ConnectorAccepts(o: Output, e: Request) {
    && ManifestSize(o, e) <= MANIFEST
    && SameIdentity(o, e) && !o.stage.OtherStage? && |o.files| <= e.maxFiles
    && Distinct(o.files)
    && forall f :: f in o.files ==> ArtifactOk(o, e, f, f.name == GoName(f.name))
  }

  /** What an output must be to be accepted. */
  ghost predicate Acceptable(o: Output, e: Request) {
    && o.schema == 1 && o.source == e.source && o.bot == e.bot && o.channel == e.channel && o.session == e.session
    && o.run == e.run && o.stage in {Sealed, Uploading, Ready}
    && |o.files| <= e.maxFiles && ManifestSize(o, e) <= 16384
    && (forall i, j :: 0 <= i < j < |o.files| ==> o.files[i].id != o.files[j].id)
    && forall f :: f in o.files ==>
         && f.name == GoName(f.name) && 0 <= f.size <= e.maxBytes && (o.stage == Ready ==> f.file != 0)
         && "snapshot/" <= f.path && Proper(f.path) && f.id == ArtifactId(e.run, f.path[9..], f.sha)
  }

  lemma AcceptsExactly(o: Output, e: Request)
    ensures ConnectorAccepts(o, e) <==> Acceptable(o, e)
  {
    hide CleanPath, Proper, GoName, FilesSize, StageSize;
    forall f: Artifact ensures CleanPath(f.path) <==> Proper(f.path) {
      ProperExactly(f.path);
    }
  }

  /** Although the two halves clean names differently, they accept the same outputs. */
  lemma SameOutputs(o: Output, e: Request)
    ensures HookAccepts(o, e) <==> ConnectorAccepts(o, e)
    ensures HookAccepts(o, e) <==> Acceptable(o, e)
  {
    AcceptsExactly(o, e);
    hide Acceptable;
    forall f | f in o.files ensures ArtifactOk(o, e, f, f.name == PythonName(f.name)) <==>
        ArtifactOk(o, e, f, f.name == GoName(f.name)) {
      SameCheck(f.name);
    }
  }

  /** The connector's loop. */
  method Validate(o: Output, e: Request) returns (ok: bool)
    ensures ok == ConnectorAccepts(o, e)
    ensures ok <==> Acceptable(o, e)
  {
    AcceptsExactly(o, e);
    hide Acceptable;
    if !SameIdentity(o, e) || o.stage.OtherStage? || |o.files| > e.maxFiles {
      return false;
    }
    hide ArtifactOk, ManifestSize, GoName, Checked, Distinct;
    CheckedNone(o, e);
    var seen: set<ArtifactId> := {};
    for i := 0 to |o.files|
      invariant Checked(o, e, i, seen)
    {
      var f := o.files[i];
      if !ArtifactOk(o, e, f, f.name == GoName(f.name)) || f.id in seen {
        Refused(o, e, i, seen);
        return false;
      }
      CheckedOne(o, e, i, seen);
      seen := seen + {f.id};
    }
    CheckedAll(o, e, seen);
    ok := ManifestSize(o, e) <= MANIFEST;
  }

  ghost predicate Checked(o: Output, e: Request, i: nat, seen: set<ArtifactId>)
    requires i <= |o.files|
  {
    && (forall j :: 0 <= j < i ==>
         ArtifactOk(o, e, o.files[j], o.files[j].name == GoName(o.files[j].name)) && o.files[j].id in seen)
    && (forall id :: id in seen ==> exists j :: 0 <= j < i && o.files[j].id == id)
    && forall j, k :: 0 <= j < k < i ==> o.files[j].id != o.files[k].id
  }

  lemma CheckedNone(o: Output, e: Request)
    ensures Checked(o, e, 0, {})
  {
  }

  lemma CheckedOne(o: Output, e: Request, i: nat, seen: set<ArtifactId>)
    requires i < |o.files| && Checked(o, e, i, seen) && o.files[i].id !in seen
    requires ArtifactOk(o, e, o.files[i], o.files[i].name == GoName(o.files[i].name))
    ensures Checked(o, e, i + 1, seen + {o.files[i].id})
  {
    hide ArtifactOk, GoName;
  }

  lemma CheckedAll(o: Output, e: Request, seen: set<ArtifactId>)
    requires Checked(o, e, |o.files|, seen)
    ensures Distinct(o.files) && forall f :: f in o.files ==> ArtifactOk(o, e, f, f.name == GoName(f.name))
  {
    hide ArtifactOk, GoName;
    forall f | f in o.files ensures ArtifactOk(o, e, f, f.name == GoName(f.name)) {
      var k :| 0 <= k < |o.files| && o.files[k] == f;
    }
  }

  lemma Refused(o: Output, e: Request, i: nat, seen: set<ArtifactId>)
    requires i < |o.files| && Checked(o, e, i, seen)
    requires !ArtifactOk(o, e, o.files[i], o.files[i].name == GoName(o.files[i].name)) || o.files[i].id in seen
    ensures !ConnectorAccepts(o, e)
  {
    assert o.files[i] in o.files;
    if o.files[i].id in seen {
      var j :| 0 <= j < i && o.files[j].id == o.files[i].id;
    }
  }

  // --- the workspace of one run's output ---

  type Snapshot = map<string, Data>

  datatype Seal = Seal(manifest: Output, snapshot: Snapshot)

  // What is on disk: the sealed directory, the upload manifest, and a snapshot still being built.
  datatype Disk = Disk(sealed: Option<Seal>, upload: Option<Output>, building: Option<Snapshot>)

  /** A manifest describes complete bytes: every artifact is there with its size and digest, and nothing else is. */
  ghost predicate Describes(files: seq<Artifact>, snapshot: Snapshot) {
    && (forall f :: f in files ==>
         f.path in snapshot && |snapshot[f.path]| == f.size && DigestOf(snapshot[f.path]) == f.sha)
    && (forall p :: p in snapshot ==> exists f :: f in files && f.path == p)
  }

  /** The same artifacts, apart from the identifiers of their uploads. */
  predicate SameArtifacts(a: seq<Artifact>, b: seq<Artifact>) {
    |a| == |b| && forall i :: 0 <= i < |a| ==> a[i].(file := 0) == b[i].(file := 0)
  }

  ghost predicate SealOk(e: Request, s: Seal) {
    && s.manifest.stage == Sealed && HookAccepts(s.manifest, e) && Describes(s.manifest.files, s.snapshot)
    && forall f :: f in s.manifest.files ==> f.file == 0
  }

  /** What every crash point shows. */
  ghost predicate Good(e: Request, d: Disk) {
    && (d.sealed.Some? ==> SealOk(e, d.sealed.value))
    && (d.upload.Some? ==>
          && d.sealed.Some? && WellFormed(d.upload.value, e) &&
               (d.upload.value.stage.Ready? ==> HookAccepts(d.upload.value, e))
          && SameArtifacts(d.upload.value.files, d.sealed.value.manifest.files))
  }

  /** From one state to a later one: a seal stays, and so does every recorded upload. */
  ghost predicate Later(a: Disk, b: Disk) {
    && (a.sealed.Some? ==> b.sealed == a.sealed)
    && (a.upload.Some? ==> b.upload.Some? && KeepsIds(a.upload.value.files, b.upload.value.files))
  }

  ghost predicate KeepsIds(a: seq<Artifact>, b: seq<Artifact>) {
    |a| == |b| && forall i :: 0 <= i < |a| && a[i].file != 0 ==> b[i] == a[i]
  }

  lemma LaterTrans(a: Disk, b: Disk, c: Disk)
    ensures Later(a, a)
    ensures Later(a, b) && Later(b, c) ==> Later(a, c)
  {
  }

  /** Crash points of two calls in a row. */
  lemma PointsTrans(e: Request, began: Disk, mid: Disk, a: set<Disk>, b: set<Disk>, c: set<Disk>)
    requires Later(began, mid)
    requires forall d :: d in b && d !in a ==> Good(e, d) && Later(began, d)
    requires forall d :: d in c && d !in b ==> Good(e, d) && Later(mid, d)
    ensures forall d :: d in c && d !in a ==> Good(e, d) && Later(began, d)
  {
    forall d | d in c && d !in a ensures Good(e, d) && Later(began, d) {
      if d !in b {
        LaterTrans(began, mid, d);
      }
    }
  }

  class Store {
    var outbox: Snapshot // the agent may change it at any time
    var quiet: bool      // unless it is idle
    var online: bool     // the chat server takes every upload and answers
    var stored: map<Id, Data> // what the chat server keeps
    var disk: Disk
    ghost var points: set<Disk>
    ghost var uploads: seq<ArtifactId> // what was sent to the chat server

    constructor ()
      ensures disk == Disk(None, None, None) && points == {} && uploads == [] && stored == map[] && Served()
    {
      outbox, quiet, online, disk, points, uploads, stored := map[], false, false, Disk(None, None, None), {}, [],
          map[];
    }

    method Write(d: Disk)
      modifies this`disk, this`points
      ensures disk == d && points == old(points) + {d}
    {
      disk := d;
      points := points + {d};
    }

    /** The agent goes on working. */
    method AgentActs()
      modifies this`outbox
      ensures quiet ==> outbox == old(outbox)
    {
      if !quiet {
        outbox := *;
      }
    }

    /** Listing the outbox: distinct clean paths, whatever they hold by the time they are read. */
    method List() returns (names: seq<string>)
      modifies this`outbox
      ensures forall n :: n in names ==> CleanPath(n)
      ensures forall i, j :: 0 <= i < j < |names| ==> names[i] != names[j]
      ensures quiet ==>
                outbox == old(outbox) && (forall n :: n in names <==> n in Files(outbox)) && |names| == |Files(outbox)|
    {
      AgentActs();
      names := [];
      var left := Files(outbox);
      while left != {}
        modifies {}
        invariant forall n :: n in names <==> n in Files(outbox) && n !in left
        invariant left <= Files(outbox) && |names| + |left| == |Files(outbox)|
        invariant forall i, j :: 0 <= i < j < |names| ==> names[i] != names[j]
        decreases |left|
      {
        var n :| n in left;
        left := left - {n};
        names := names + [n];
      }
    }

    /** One reading; None when the file is gone or too large. */
    method Read(name: string, limit: int) returns (data: Option<Data>)
      modifies this`outbox
      ensures data.Some? ==> |data.value| <= limit
      ensures quiet ==> outbox == old(outbox)
      ensures quiet ==>
                (data.Some? <==> name in outbox && |outbox[name]| <= limit) &&
                    (data.Some? ==> data.value == outbox[name])
    {
      AgentActs();
      data := if name in outbox && |outbox[name]| <= limit then Some(outbox[name]) else None;
    }

    /** Crash points of a call: each is good, and later than where the call began. */
    ghost predicate Progressed(e: Request, began: Disk, before: set<Disk>)
      reads this
    {
      && Good(e, disk) && Later(began, disk)
      && forall d :: d in points && d !in before ==> Good(e, d) && Later(began, d)
    }

    /** Every upload on record, now and at every crash point, is a file on the server with the artifact's bytes. */
    ghost predicate Served()
      reads this
    {
      Linked(Recorded(disk), stored) && forall d :: d in points ==> Linked(Recorded(d), stored)
    }

    /** Store.seal: a seal that exists is final; otherwise what the outbox holds is copied, and the copy becomes the
        seal in one step or not at all. An idle outbox within the limits is sealed. */
    method SealOutbox(e: Request) returns (output: Option<Output>)
      requires Good(e, disk) && Served()
      modifies this`outbox, this`disk, this`points
      ensures Served()
      ensures Progressed(e, old(disk), old(points))
      ensures output.Some? ==> disk.sealed.Some? && output.value == disk.sealed.value.manifest
      ensures output.Some? ==> disk.upload == old(disk.upload)
      ensures output.None? ==> disk == old(disk).(building := None)
      ensures old(disk.sealed).Some? ==> output.Some? && disk == old(disk)
      ensures quiet && output.Some? && old(disk.sealed).None? ==> CopyOf(outbox, disk.sealed.value.snapshot)
      ensures quiet ==> outbox == old(outbox)
      ensures quiet && old(disk.sealed).None? && Fits(e, outbox) && Short(e, outbox) ==> output.Some?
      ensures quiet && old(disk.sealed).None? && output.Some? ==> Fits(e, outbox)
    {
      LaterTrans(disk, disk, disk);
      if disk.sealed.Some? {
        return Some(disk.sealed.value.manifest);
      }
      hide Good, Later, Linked, HookAccepts, WellFormed, ManifestSize, FilesSize, ArtifactOf, Copied, Mirrors,
          Describes,
        CleanPath, Components, Fits, Short, Lists, Files, CopyOf, SealOk, SameArtifacts, PythonName, DigestOf;
      var copy, snapshot, names := Copy(e);
      if copy.None? {
        return None;
      }
      var manifest := Output(1, e.source, e.bot, e.channel, e.session, e.run, Sealed, copy.value);
      label copied:
      var ok := CloseCopy(e, manifest, snapshot, names);
      LaterTrans(old(disk), old@copied(disk), disk);
      PointsTrans(e, old(disk), old@copied(disk), old(points), old@copied(points), points);
      output := if ok then Some(manifest) else None;
    }

    /** Its end, with what the copy of an idle outbox means. */
    method CloseCopy(e: Request, manifest: Output, snapshot: Snapshot, names: seq<string>) returns (ok: bool)
      requires Good(e, disk) && Served() && disk.sealed.None?
      requires manifest == Output(1, e.source, e.bot, e.channel, e.session, e.run, Sealed, manifest.files)
      requires Copied(e, manifest.files, snapshot, names)
      requires forall n :: n in names ==> CleanPath(n)
      requires forall i, j :: 0 <= i < j < |names| ==> names[i] != names[j]
      requires quiet ==> (forall n :: n in names <==> n in Files(outbox)) && |names| == |Files(outbox)|
      requires quiet ==> Mirrors(e, outbox, snapshot, names)
      modifies this`disk, this`points
      ensures Served() && Progressed(e, old(disk), old(points))
      ensures disk == if ok then Disk(Some(Seal(manifest, snapshot)), old(disk.upload), None)
                else old(disk).(building := None)
      ensures quiet && ok ==> CopyOf(outbox, snapshot) && Fits(e, outbox)
      ensures quiet && Fits(e, outbox) && Short(e, outbox) ==> ok
    {
      hide Good, Later, Linked, HookAccepts, ManifestSize, FilesSize, Copied, Mirrors, CleanPath, Fits, Short, Lists,
          Files,
        CopyOf, SealOk, SameArtifacts;
      CopiedIsAccepted(e, manifest, snapshot, names);
      ShortIsEnough(e, outbox, manifest);
      MirrorsAll(e, outbox, manifest.files, snapshot, names);
      CopiedLength(e, manifest.files, snapshot, names);
      ok := Close(e, manifest, snapshot, names);
    }

    /** The copy is checked, and becomes the seal or is dropped. */
    method Close(e: Request, manifest: Output, snapshot: Snapshot, ghost names: seq<string>) returns (ok: bool)
      requires Good(e, disk) && Served() && disk.sealed.None?
      requires manifest.stage.Sealed? && Copied(e, manifest.files, snapshot, names)
      modifies this`disk, this`points
      ensures Served() && Progressed(e, old(disk), old(points))
      ensures ok <==> HookAccepts(manifest, e)
      ensures disk == if ok then Disk(Some(Seal(manifest, snapshot)), old(disk.upload), None)
                else old(disk).(building := None)
    {
      hide Good, Later, Linked, HookAccepts, Copied;
      LaterTrans(disk, disk, disk);
      ok := HookAccepts(manifest, e);
      if ok {
        SealIsGood(e, disk, manifest, snapshot, names);
        Write(Disk(Some(Seal(manifest, snapshot)), disk.upload, None));
      } else {
        BuildingIsFree(e, disk, disk, None);
        Write(disk.(building := None));
      }
    }

    /** Its loop: the outbox is copied file by file, each read twice, until one is too many, too large or changing. */
    method Copy(e: Request) returns (copy: Option<seq<Artifact>>, snapshot: Snapshot, names: seq<string>)
      requires Good(e, disk) && Served()
      modifies this`outbox, this`disk, this`points
      ensures Served() && Progressed(e, old(disk), old(points))
      ensures disk == old(disk).(building := if copy.Some? then Some(snapshot) else None)
      ensures forall n :: n in names ==> CleanPath(n)
      ensures forall i, j :: 0 <= i < j < |names| ==> names[i] != names[j]
      ensures copy.Some? ==> Copied(e, copy.value, snapshot, names)
      ensures quiet ==> outbox == old(outbox)
      ensures quiet ==> (forall n :: n in names <==> n in Files(outbox)) && |names| == |Files(outbox)|
      ensures quiet ==> if copy.Some? then Mirrors(e, outbox, snapshot, names) else !Fits(e, outbox)
    {
      hide Good, Later, Linked, HookAccepts, WellFormed, ManifestSize, FilesSize, ArtifactOf, Copied, Mirrors,
          Describes,
        CleanPath, Components, Fits, Short, Lists, Files, CopyOf, SealOk, SameArtifacts, PythonName, DigestOf;
      LaterTrans(disk, disk, disk);
      var files := [];
      snapshot := map[];
      names := List();
      BuildingIsFree(e, disk, disk, Some(snapshot));
      Write(disk.(building := Some(snapshot)));
      CopiedNothing(e, outbox);
      for i := 0 to |names|
        invariant disk == old(disk).(building := Some(snapshot))
        invariant Progressed(e, old(disk), old(points)) && Served()
        invariant Copied(e, files, snapshot, names[..i]) && |files| == i
        invariant quiet ==> outbox == old(outbox) && Mirrors(e, outbox, snapshot, names[..i])
      {
        assert names[..i + 1] == names[..i] + [names[i]];
        var data := ReadTwice(e, names[i], |files|);
        if data.None? {
          BuildingIsFree(e, old(disk), disk, None);
          Write(disk.(building := None));
          TooMuch(e, outbox, names, i);
          return None, snapshot, names;
        }
        CopiedStep(e, files, snapshot, names[..i], names[i], data.value);
        MirrorsStep(e, outbox, snapshot, names[..i], names[i], data.value);
        files := files + [ArtifactOf(e, names[i], data.value)];
        snapshot := snapshot[SNAPSHOT + names[i] := data.value];
        BuildingIsFree(e, old(disk), disk, Some(snapshot));
        Write(disk.(building := Some(snapshot)));
      }
      assert names[..|names|] == names;
      copy := Some(files);
    }

    /** What both readings of one more file agree on. */
    method ReadTwice(e: Request, name: string, before: nat) returns (data: Option<Data>)
      modifies this`outbox
      ensures data.Some? ==> |data.value| <= e.maxBytes && before < e.maxFiles
      ensures quiet ==> outbox == old(outbox)
      ensures quiet ==>
                (data.Some? <==> before < e.maxFiles && name in outbox && |outbox[name]| <= e.maxBytes)
      ensures quiet && data.Some? ==> data.value == outbox[name]
    {
      if before >= e.maxFiles {
        return None;
      }
      data := Read(name, e.maxBytes);
      var again := Read(name, e.maxBytes);
      if again != data {
        data := None; // the output changed while sealing
      }
    }

    /** One upload. The server may keep the file and the response still be lost or unusable. */
    method Upload(f: Artifact, data: Data) returns (file: Option<Id>)
      requires |data| == f.size && DigestOf(data) == f.sha && Served()
      modifies this`uploads, this`stored
      ensures uploads == old(uploads) + [f.id]
      ensures Served() && Extends(old(stored), stored)
      ensures file.Some? ==> file.value != 0 && file.value in stored && stored[file.value] == data
      ensures online ==> file.Some?
    {
      uploads := uploads + [f.id];
      var taken, answered: bool := *, *;
      if online || taken {
        HasRoom(stored.Keys);
        var id: Id :| id > 0 && id !in stored;
        stored := stored[id := data];
        file := if online || answered then Some(id) else None;
      } else {
        file := None;
      }
    }

    /** Store.export_output. The upload manifest describes the sealed artifacts by `Good`, so the comparison of the two
        manifests and the check of the sealed bytes cannot fail; its length can. A server that answers leads to a result
        exactly when the record so far and the final manifest are short enough. */
    method ExportOutput(e: Request) returns (output: Option<Output>)
      requires Good(e, disk) && Served()
      modifies this`outbox, this`disk, this`points, this`uploads, this`stored
      ensures Served() && Extends(old(stored), stored)
      ensures Progressed(e, old(disk), old(points))
      ensures output.Some? ==> disk.sealed.Some? && Finished(e, output.value)
      ensures old(uploads) <= uploads && OnlyMissing(Recorded(old(disk)), uploads[|old(uploads)|..])
      ensures FromSeal(disk.sealed, uploads[|old(uploads)|..])
      ensures output.Some? ==> Accounted(output.value.files, Recorded(old(disk)), uploads[|old(uploads)|..])
      ensures !IdentityOk(e) ==> output.None? && uploads == old(uploads) && disk == old(disk)
      ensures IdentityOk(e) && quiet && Fits(e, old(outbox)) && Short(e, old(outbox)) ==> disk.sealed.Some?
      ensures online && IdentityOk(e) && disk.sealed.Some? ==>
                (output.Some? <==> Readable(e, old(disk)) && FinalSize(disk.sealed.value.manifest, e) <= MANIFEST)
      ensures !Readable(e, old(disk)) ==> output.None? && uploads == old(uploads) && disk == old(disk)
      ensures online && IdentityOk(e) && disk.sealed.Some? ==>
                FinalSize(disk.sealed.value.manifest, e) + 4 <= MANIFEST ==> output.Some?
      ensures IdentityOk(e) && old(disk.upload).Some? && old(disk.upload.value).stage.Ready? ==>
                output == old(disk.upload) && uploads == old(uploads) && disk == old(disk)
    {
      LaterTrans(disk, disk, disk);
      ExtendsTrans(stored, stored, stored);
      NothingSent(Recorded(disk));
      UploadHasSeal(e, disk);
      hide Good, Later, HookAccepts, WellFormed, OnlyMissing, Linked, Fits, Short, ManifestSize, FinalSize, Accounted,
          Extends;
      if e.run == 0 || e.session == 0 || e.bot == 0 || e.channel == 0 || e.source == 0 {
        return None;
      }
      var sealed := SealOutbox(e);
      assert uploads[|old(uploads)|..] == [];
      if sealed.None? {
        return None;
      }
      label sealing:
      SealedIsReadable(e, old(disk), disk);
      output := UploadSealed(e);
      LaterTrans(old(disk), old@sealing(disk), disk);
      PointsTrans(e, old(disk), old@sealing(disk), old(points), old@sealing(points), points);
    }

    /** A result: ready, accepted by both sides, on disk, and on the server with the sealed bytes. */
    ghost predicate Finished(e: Request, o: Output)
      requires disk.sealed.Some?
      reads this
    {
      && o.stage.Ready? && HookAccepts(o, e) && ConnectorAccepts(o, e) && disk.upload == Some(o)
      && SameArtifacts(o.files, disk.sealed.value.manifest.files)
      && SealedBytes(o.files, disk.sealed.value.snapshot, stored)
    }

    /** Its part after sealing. */
    method UploadSealed(e: Request) returns (output: Option<Output>)
      requires Good(e, disk) && Served() && disk.sealed.Some?
      modifies this`disk, this`points, this`uploads, this`stored
      ensures Served() && Extends(old(stored), stored) && disk.sealed == old(disk.sealed)
      ensures Progressed(e, old(disk), old(points))
      ensures output.Some? ==> Finished(e, output.value)
      ensures old(uploads) <= uploads && OnlyMissing(Recorded(old(disk)), uploads[|old(uploads)|..])
      ensures FromSeal(disk.sealed, uploads[|old(uploads)|..])
      ensures output.Some? ==> Accounted(output.value.files, Recorded(old(disk)), uploads[|old(uploads)|..])
      ensures online ==>
                (output.Some? <==> Readable(e, old(disk)) && FinalSize(disk.sealed.value.manifest, e) <= MANIFEST)
      ensures !Readable(e, old(disk)) ==> output.None? && uploads == old(uploads) && disk == old(disk)
      ensures old(disk.upload).Some? && old(disk.upload.value).stage.Ready? ==>
                output == old(disk.upload) && uploads == old(uploads) && disk == old(disk)
    {
      LaterTrans(disk, disk, disk);
      ExtendsTrans(stored, stored, stored);
      NothingSent(Recorded(disk));
      hide Good, Later, SameArtifacts, HookAccepts, WellFormed, ConnectorAccepts, OnlyMissing, Linked, ManifestSize,
        FinalSize, Accounted, SealedBytes, Extends, FilesSize, SealOk, KeepsIds, Readable;
      assert uploads[|old(uploads)|..] == [];
      var start := Begin(e);
      if start.None? {
        return None;
      }
      label recording:
      var ok, o := UploadMissing(e, start.value);
      LaterTrans(old(disk), old@recording(disk), disk);
      PointsTrans(e, old(disk), old@recording(disk), old(points), old@recording(points), points);
      SinceStart(e, old(disk), o.files, uploads[|old(uploads)|..]);
      if !ok {
        return None;
      }
      label uploaded:
      output := Finish(e, o);
      LaterTrans(old(disk), old@uploaded(disk), disk);
      PointsTrans(e, old(disk), old@uploaded(disk), old(points), old@uploaded(points), points);
    }

    /** Its start: what is on record, or the seal, becomes the manifest of this attempt. */
    method Begin(e: Request) returns (start: Option<Output>)
      requires Good(e, disk) && Served() && disk.sealed.Some?
      modifies this`disk, this`points
      ensures Served() && Progressed(e, old(disk), old(points))
      ensures start.Some? <==> Readable(e, old(disk))
      ensures start.None? ==> disk == old(disk)
      ensures start.Some? ==> disk == old(disk).(upload := start) && start.value == From(old(disk)).(stage := Uploading)
      ensures old(disk.upload).Some? && old(disk.upload.value).stage.Ready? ==>
                start.Some? && HookAccepts(old(disk.upload.value), e) &&
                    forall f :: f in old(disk.upload.value).files ==> f.file != 0
    {
      LaterTrans(disk, disk, disk);
      UploadHasSeal(e, disk);
      hide Good, Later, WellFormed, Linked, ManifestSize;
      if disk.upload.Some? && !HookAccepts(disk.upload.value, e) {
        return None;
      }
      var o := From(disk).(stage := Uploading);
      UploadingIsGood(e, disk, o);
      UploadingIsLinked(e, disk, o, stored);
      Write(disk.(upload := Some(o)));
      start := Some(o);
    }

    /** Its end: the finished manifest is checked and written. */
    method Finish(e: Request, o: Output) returns (output: Option<Output>)
      requires Good(e, disk) && disk.upload == Some(o) && o.stage.Uploading? && Served()
      requires forall f :: f in o.files ==> f.file != 0
      modifies this`disk, this`points
      ensures Served() && Progressed(e, old(disk), old(points)) && disk.sealed.Some? && disk.sealed == old(disk.sealed)
      ensures disk.building == old(disk.building)
      ensures output.Some? <==> FinalSize(disk.sealed.value.manifest, e) <= MANIFEST
      ensures output.Some? <==> HookAccepts(o.(stage := Ready), e)
      ensures output.Some? ==>
                && output.value == o.(stage := Ready) && HookAccepts(output.value, e) &&
                     ConnectorAccepts(output.value, e)
                && disk.upload == output && SameArtifacts(output.value.files, disk.sealed.value.manifest.files)
                && SealedBytes(output.value.files, disk.sealed.value.snapshot, stored)
    {
      hide Good, Later, SameArtifacts, WellFormed, ConnectorAccepts, Linked, ManifestSize, FinalSize, SealedBytes;
      LaterTrans(disk, disk, disk);
      var r := o.(stage := Ready);
      FinalIsForetold(e, disk, r);
      ReadyIsWellFormed(e, disk, r);
      if !HookAccepts(r, e) {
        return None;
      }
      ReadyIsGood(e, disk, r);
      Write(disk.(upload := Some(r)));
      SameOutputs(r, e);
      GoodUpload(e, disk);
      HoldsSealed(e, disk, stored);
      output := Some(r);
    }

    /** Its loop: a file already recorded is left alone, any other is uploaded from the sealed bytes and recorded before
        the next. */
    method UploadMissing(e: Request, start: Output) returns (ok: bool, o: Output)
      requires Good(e, disk) && disk.upload == Some(start) && start.stage.Uploading? && Served()
      modifies this`disk, this`points, this`uploads, this`stored
      ensures Served() && Extends(old(stored), stored)
      ensures online ==> ok
      ensures Progressed(e, old(disk), old(points))
      ensures disk == old(disk).(upload := Some(o)) && o.stage.Uploading?
      ensures ok ==> forall f :: f in o.files ==> f.file != 0
      ensures old(uploads) <= uploads && OnlyMissing(start.files, uploads[|old(uploads)|..])
      ensures FromSeal(disk.sealed, uploads[|old(uploads)|..])
      ensures ok ==> Accounted(o.files, start.files, uploads[|old(uploads)|..])
      ensures (forall f :: f in start.files ==> f.file != 0) ==> ok && o == start && uploads == old(uploads)
    {
      hide Good, Later, SameArtifacts, HookAccepts, Distinct, SentFrom, OnlyMissing, FromSeal, Linked, Accounted,
          Extends;
      o := start;
      ExtendsTrans(stored, stored, stored);
      ghost var sent: seq<ArtifactId> := [];
      LaterTrans(disk, disk, disk);
      GoodDistinct(e, disk);
      SentNothing(start.files);
      for i := 0 to |start.files|
        invariant disk == old(disk).(upload := Some(o)) && o.stage.Uploading?
        invariant Progressed(e, old(disk), old(points)) && Served() && Extends(old(stored), stored)
        invariant UploadedTo(start.files, o.files, i)
        invariant uploads == old(uploads) + sent && SentFrom(start.files, sent, i)
        invariant (forall f :: f in start.files ==> f.file != 0) ==> o == start && sent == []
      {
        var f := o.files[i];
        assert f == start.files[i] && f in start.files;
        SentStep(start.files, sent, i);
        SentSealed(e, old(disk), if f.file == 0 then sent + [f.id] else sent, i + 1);
        if f.file == 0 {
          sent := sent + [f.id];
          label before:
          ok, o := UploadOne(e, o, i);
          LaterTrans(old(disk), old@before(disk), disk);
          PointsTrans(e, old(disk), old@before(disk), old(points), old@before(points), points);
          ExtendsTrans(old(stored), old@before(stored), stored);
          assert uploads[|old(uploads)|..] == sent;
          if !ok {
            return;
          }
        }
      }
      assert uploads[|old(uploads)|..] == sent;
      SentAll(start.files, sent, |start.files|);
      SentSealed(e, old(disk), sent, |start.files|);
      UploadedAll(start.files, o.files);
      AllAccounted(start.files, o.files, sent);
      ok := true;
    }

    /** One upload and its record. */
    method UploadOne(e: Request, start: Output, i: nat) returns (ok: bool, o: Output)
      requires Good(e, disk) && disk.upload == Some(start) && start.stage.Uploading? && Served()
      requires i < |start.files| && start.files[i].file == 0
      modifies this`disk, this`points, this`uploads, this`stored
      ensures Served() && Extends(old(stored), stored)
      ensures online ==> ok
      ensures Progressed(e, old(disk), old(points))
      ensures disk == old(disk).(upload := Some(o)) && o.stage.Uploading?
      ensures uploads == old(uploads) + [start.files[i].id]
      ensures !ok ==> o == start
      ensures ok ==>
                && |o.files| == |start.files| && o.files[i].file != 0 && o.files[i].id == start.files[i].id
                && forall j :: 0 <= j < |o.files| && j != i ==> o.files[j] == start.files[j]
    {
      hide Good, Later, Linked, Extends, DigestOf;
      LaterTrans(disk, disk, disk);
      o := start;
      var f := start.files[i];
      var data := SealedData(e, f, i);
      var file := Upload(f, data);
      ok := file.Some?;
      if ok {
        RecordIsGood(e, disk, start, i, file.value);
        RecordIsLinked(start.files, stored, i, file.value);
        o := start.(files := start.files[i := f.(file := file.value)]);
        Write(disk.(upload := Some(o)));
      }
    }

    /** The bytes of an artifact in the seal, checked before use. */
    method SealedData(e: Request, f: Artifact, i: nat) returns (data: Data)
      requires Good(e, disk) && disk.upload.Some? && i < |disk.upload.value.files| && f == disk.upload.value.files[i]
      ensures |data| == f.size && DigestOf(data) == f.sha
    {
      assert disk.sealed.value.manifest.files[i] in disk.sealed.value.manifest.files;
      data := disk.sealed.value.snapshot[f.path];
    }
  }

  /** The files below the outbox. */
  function Files(outbox: Snapshot): (names: set<string>)
    ensures names <= outbox.Keys
  {
    set n | n in outbox && CleanPath(n)
  }

  /** No file too many, none too large. */
  ghost predicate Fits(e: Request, outbox: Snapshot) {
    |Files(outbox)| <= e.maxFiles && forall n :: n in Files(outbox) ==> |outbox[n]| <= e.maxBytes
  }

  /** The upload manifest of an earlier attempt, if any, is short enough to be read. */
  ghost predicate Readable(e: Request, d: Disk) {
    d.upload.Some? ==> ManifestSize(d.upload.value, e) <= MANIFEST
  }

  /** The artifacts of the outbox, in some order. */
  ghost predicate Lists(e: Request, outbox: Snapshot, files: seq<Artifact>) {
    |files| == |Files(outbox)| &&
        forall f :: f in files ==> exists n :: n in Files(outbox) && f == ArtifactOf(e, n, outbox[n])
  }

  /** The manifest of the outbox is short enough, in whatever order it is listed. */
  ghost predicate Short(e: Request, outbox: Snapshot) {
    forall files :: Lists(e, outbox, files) ==> e.header + StageSize(Sealed) + FilesSize(files, e) <= MANIFEST
  }

  /** The only grounds left for refusing a finished copy are the limits on its number of files and its length. */
  lemma SealedIsAccepted(e: Request, o: Output, names: seq<string>)
    requires o == Output(1, e.source, e.bot, e.channel, e.session, e.run, Sealed, o.files)
    requires |o.files| == |names| && forall n :: n in names ==> CleanPath(n)
    requires forall i, j :: 0 <= i < j < |names| ==> names[i] != names[j]
    requires forall i :: 0 <= i < |names| ==> AsRecorded(e, o.files[i], names[i])
    ensures HookAccepts(o, e) <==> |o.files| <= e.maxFiles && ManifestSize(o, e) <= MANIFEST
  {
    forall f | f in o.files ensures ArtifactOk(o, e, f, f.name == PythonName(f.name)) {
      var k :| 0 <= k < |o.files| && o.files[k] == f;
      assert AsRecorded(e, f, names[k]);
      SnapshotPathIsClean(names[k]);
      Idempotent(names[k]);
      assert (SNAPSHOT + names[k])[|SNAPSHOT|..] == names[k];
    }
    forall i, j | 0 <= i < j < |o.files| ensures o.files[i].id != o.files[j].id {
      assert AsRecorded(e, o.files[i], names[i]) && AsRecorded(e, o.files[j], names[j]);
    }
  }

  /** An artifact of the file, of some content within the limit. */
  predicate AsRecorded(e: Request, f: Artifact, name: string) {
    0 <= f.size <= e.maxBytes &&
        f == Artifact(ArtifactId(e.run, name, f.sha), 0, PythonName(name), SNAPSHOT + name, f.sha, f.size)
  }

  // --- the chat server's files ---

  ghost predicate Linked(files: seq<Artifact>, stored: map<Id, Data>) {
    forall f :: f in files && f.file != 0 ==> f.file in stored && DigestOf(stored[f.file]) == f.sha
  }

  ghost predicate Extends(a: map<Id, Data>, b: map<Id, Data>) {
    forall k :: k in a ==> k in b && b[k] == a[k]
  }

  /** The server holds, for each file of a result, the sealed bytes. */
  ghost predicate SealedBytes(files: seq<Artifact>, snapshot: Snapshot, stored: map<Id, Data>) {
    forall f :: f in files ==> f.path in snapshot && f.file in stored && stored[f.file] == snapshot[f.path]
  }

  /** Each file of a result was on record before or is sent by this attempt. */
  ghost predicate Accounted(files: seq<Artifact>, recorded: seq<Artifact>, sent: seq<ArtifactId>) {
    forall f :: f in files ==> f.file != 0 && (f in recorded || f.id in sent)
  }

  lemma ExtendsTrans(a: map<Id, Data>, b: map<Id, Data>, c: map<Id, Data>)
    ensures Extends(a, a)
    ensures Extends(a, b) && Extends(b, c) ==> Extends(a, c)
  {
  }

  lemma HasRoom(taken: set<Id>)
    ensures exists id: Id :: id > 0 && id !in taken
  {
    var top := Above(taken);
    assert top !in taken;
  }

  lemma {:induction false} Above(taken: set<Id>) returns (top: Id)
    ensures top > 0 && forall id :: id in taken ==> id < top
  {
    top := 1;
    var left := taken;
    while left != {}
      invariant left <= taken && top > 0 && forall id :: id in taken ==> id in left || id < top
      decreases |left|
    {
      var id :| id in left;
      left := left - {id};
      top := if id < top then top else id + 1;
    }
  }

  lemma HoldsSealed(e: Request, d: Disk, stored: map<Id, Data>)
    requires Good(e, d) && d.upload.Some? && d.upload.value.stage.Ready? && Linked(Recorded(d), stored)
    ensures SealedBytes(d.upload.value.files, d.sealed.value.snapshot, stored)
  {
    hide CleanPath;
    forall f | f in d.upload.value.files
      ensures f.path in d.sealed.value.snapshot && f.file in stored && stored[f.file] == d.sealed.value.snapshot[f.path]
    {
      var k :| 0 <= k < |d.upload.value.files| && d.upload.value.files[k] == f;
      var g := d.sealed.value.manifest.files[k];
      assert g in d.sealed.value.manifest.files && g.path == f.path && g.sha == f.sha;
    }
  }

  lemma AllAccounted(start: seq<Artifact>, files: seq<Artifact>, sent: seq<ArtifactId>)
    requires UploadedTo(start, files, |start|) && SentFrom(start, sent, |start|)
    ensures Accounted(files, start, sent)
  {
    forall f | f in files ensures f.file != 0 && (f in start || f.id in sent) {
      var k :| 0 <= k < |files| && files[k] == f;
      if start[k].file != 0 {
        assert f == start[k];
      }
    }
  }

  lemma UploadingIsLinked(e: Request, d: Disk, o: Output, stored: map<Id, Data>)
    requires Good(e, d) && d.sealed.Some? && Linked(Recorded(d), stored)
    requires o == From(d).(stage := Uploading)
    ensures Linked(o.files, stored)
  {
  }

  lemma RecordIsLinked(files: seq<Artifact>, stored: map<Id, Data>, i: nat, file: Id)
    requires Linked(files, stored) && i < |files| && file in stored && DigestOf(stored[file]) == files[i].sha
    ensures Linked(files[i := files[i].(file := file)], stored)
  {
  }

  /** The snapshot holds every file of the outbox as it is. */
  ghost predicate CopyOf(outbox: Snapshot, snapshot: Snapshot) {
    && (forall n :: n in outbox && CleanPath(n) ==> SNAPSHOT + n in snapshot && snapshot[SNAPSHOT + n] == outbox[n])
    && (forall p :: p in snapshot ==> SNAPSHOT <= p && p[|SNAPSHOT|..] in outbox)
  }

  lemma SamePrefix(names: seq<string>, name: string)
    ensures forall n :: n in names && SNAPSHOT + n == SNAPSHOT + name ==> n == name
  {
    forall n | n in names && SNAPSHOT + n == SNAPSHOT + name ensures n == name {
      assert (SNAPSHOT + n)[|SNAPSHOT|..] == n && (SNAPSHOT + name)[|SNAPSHOT|..] == name;
    }
  }

  /** The artifact that sealing records for a file of the outbox. */
  function ArtifactOf(e: Request, name: string, data: Data): Artifact {
    Artifact(ArtifactId(e.run, name, DigestOf(data)), 0, PythonName(name), SNAPSHOT + name, DigestOf(data), |data|)
  }

  /** What has been copied so far is exactly what has been recorded so far. */
  ghost predicate Copied(e: Request, files: seq<Artifact>, snapshot: Snapshot, names: seq<string>) {
    && Describes(files, snapshot)
    && (forall f :: f in files ==> f.file == 0)
    && (forall p :: p in snapshot ==> SNAPSHOT <= p && p[|SNAPSHOT|..] in names)
    && |files| == |names| && forall i :: 0 <= i < |names| ==> AsRecorded(e, files[i], names[i])
  }

  /** So far the snapshot agrees with an outbox that does not change. */
  ghost predicate Mirrors(e: Request, outbox: Snapshot, snapshot: Snapshot, names: seq<string>) {
    forall n :: n in names ==>
      n in outbox && |outbox[n]| <= e.maxBytes && SNAPSHOT + n in snapshot && snapshot[SNAPSHOT + n] == outbox[n]
  }

  lemma CopiedLength(e: Request, files: seq<Artifact>, snapshot: Snapshot, names: seq<string>)
    requires Copied(e, files, snapshot, names)
    ensures |files| == |names|
  {
  }

  lemma CopiedNothing(e: Request, outbox: Snapshot)
    ensures Copied(e, [], map[], []) && Mirrors(e, outbox, map[], [])
  {
  }

  lemma MirrorsStep(e: Request, outbox: Snapshot, snapshot: Snapshot, names: seq<string>, name: string, data: Data)
    ensures Mirrors(e, outbox, snapshot, names) && name in outbox && outbox[name] == data && |data| <= e.maxBytes
            ==> Mirrors(e, outbox, snapshot[SNAPSHOT + name := data], names + [name])
  {
    SamePrefix(names, name);
  }

  /** A copy is given up only over a file too many or too large. */
  lemma TooMuch(e: Request, outbox: Snapshot, names: seq<string>, i: nat)
    requires i < |names|
    ensures names[i] in Files(outbox) && |names| == |Files(outbox)| &&
              (i >= e.maxFiles || |outbox[names[i]]| > e.maxBytes)
            ==> !Fits(e, outbox)
  {
  }

  lemma CopiedIsAccepted(e: Request, o: Output, snapshot: Snapshot, names: seq<string>)
    requires o == Output(1, e.source, e.bot, e.channel, e.session, e.run, Sealed, o.files)
    requires Copied(e, o.files, snapshot, names) && forall n :: n in names ==> CleanPath(n)
    requires forall i, j :: 0 <= i < j < |names| ==> names[i] != names[j]
    ensures HookAccepts(o, e) <==> |o.files| <= e.maxFiles && ManifestSize(o, e) <= MANIFEST
  {
    SealedIsAccepted(e, o, names);
  }

  lemma MirrorsAll(e: Request, outbox: Snapshot, files: seq<Artifact>, snapshot: Snapshot, names: seq<string>)
    requires Copied(e, files, snapshot, names)
    ensures Mirrors(e, outbox, snapshot, names) && (forall n :: n in names <==> n in Files(outbox)) ==>
              CopyOf(outbox, snapshot)
    ensures Mirrors(e, outbox, snapshot, names) && (forall n :: n in names <==> n in Files(outbox))
            ==> (Fits(e, outbox) <==> |Files(outbox)| <= e.maxFiles)
    ensures (Mirrors(e, outbox, snapshot, names) && (forall n :: n in names <==> n in Files(outbox))
             && |names| == |Files(outbox)|) ==> Lists(e, outbox, files)
  {
    hide CleanPath;
    if Mirrors(e, outbox, snapshot, names) && forall n :: n in names <==> n in Files(outbox) {
      forall f | f in files ensures exists n :: n in Files(outbox) && f == ArtifactOf(e, n, outbox[n]) {
        var k :| 0 <= k < |files| && files[k] == f;
        assert AsRecorded(e, f, names[k]) && names[k] in Files(outbox);
        assert snapshot[f.path] == outbox[names[k]];
      }
    }
  }

  lemma ShortIsEnough(e: Request, outbox: Snapshot, manifest: Output)
    requires manifest.stage.Sealed?
    ensures Lists(e, outbox, manifest.files) && Short(e, outbox) ==> ManifestSize(manifest, e) <= MANIFEST
  {
  }

  /** What is being built is no part of what the disk promises. */
  lemma BuildingIsFree(e: Request, began: Disk, d: Disk, building: Option<Snapshot>)
    requires Good(e, d) && Later(began, d)
    ensures Good(e, d.(building := building)) && Later(began, d.(building := building))
  {
  }

  lemma SealIsGood(e: Request, d: Disk, manifest: Output, snapshot: Snapshot, names: seq<string>)
    requires Good(e, d) && d.sealed.None? && manifest.stage.Sealed? && HookAccepts(manifest, e)
    requires Copied(e, manifest.files, snapshot, names)
    ensures var after := Disk(Some(Seal(manifest, snapshot)), d.upload, None);
            Good(e, after) && (forall began :: Later(began, d) ==> Later(began, after))
  {
  }

  lemma CopiedStep(e: Request, files: seq<Artifact>, snapshot: Snapshot, names: seq<string>, name: string, data: Data)
    requires Copied(e, files, snapshot, names) && name !in names && |data| <= e.maxBytes
    ensures Copied(e, files + [ArtifactOf(e, name, data)], snapshot[SNAPSHOT + name := data], names + [name])
  {
    var f := ArtifactOf(e, name, data);
    var more := files + [f];
    var after := snapshot[SNAPSHOT + name := data];
    assert (SNAPSHOT + name)[|SNAPSHOT|..] == name;
    assert AsRecorded(e, f, name);
    assert SNAPSHOT + name !in snapshot;
    assert f in more;
    forall p | p in after ensures exists g :: g in more && g.path == p {
      if p in snapshot {
        var g :| g in files && g.path == p;
        assert g in more;
      }
    }
    forall p | p in after ensures SNAPSHOT <= p && p[|SNAPSHOT|..] in names + [name] {
      if p == SNAPSHOT + name {
        assert p[|SNAPSHOT|..] == name;
      }
    }
  }

  ghost predicate IdentityOk(e: Request) {
    e.run != 0 && e.session != 0 && e.bot != 0 && e.channel != 0 && e.source != 0
  }

  /** The artifacts whose uploads are on record. */
  function Recorded(d: Disk): seq<Artifact> {
    if d.upload.Some? then d.upload.value.files else []
  }

  /** The manifest that an attempt starts from. */
  function From(d: Disk): Output
    requires d.sealed.Some?
  {
    if d.upload.Some? then d.upload.value else d.sealed.value.manifest
  }

  /** Nothing on record is sent again, and nothing is sent twice. */
  ghost predicate OnlyMissing(files: seq<Artifact>, sent: seq<ArtifactId>) {
    && (forall i, j :: 0 <= i < j < |sent| ==> sent[i] != sent[j])
    && forall f :: f in files && f.file != 0 ==> f.id !in sent
  }

  /** The first i files are recorded, and nothing else changed. */
  ghost predicate UploadedTo(start: seq<Artifact>, files: seq<Artifact>, i: nat)
    requires i <= |start|
  {
    && |files| == |start|
    && (forall j :: 0 <= j < i ==> files[j].file != 0)
    && (forall j :: 0 <= j < |start| && start[j].file != 0 ==> files[j] == start[j])
    && (forall j :: i <= j < |start| ==> files[j] == start[j])
    && (forall j :: 0 <= j < |start| ==> files[j].id == start[j].id)
  }

  /** Sent are exactly the files among the first i that were not on record. */
  ghost predicate SentFrom(files: seq<Artifact>, sent: seq<ArtifactId>, i: nat)
    requires i <= |files|
  {
    && (forall a, b :: 0 <= a < b < |sent| ==> sent[a] != sent[b])
    && (forall id :: id in sent ==> exists j :: 0 <= j < i && files[j].id == id && files[j].file == 0)
    && forall j :: 0 <= j < i && files[j].file == 0 ==> files[j].id in sent
  }

  lemma SentNothing(files: seq<Artifact>)
    ensures SentFrom(files, [], 0)
  {
  }

  lemma NotSent(files: seq<Artifact>, sent: seq<ArtifactId>, i: nat)
    requires i < |files| && SentFrom(files, sent, i) && Distinct(files)
    ensures files[i].id !in sent
  {
    forall id | id in sent ensures id != files[i].id {
      var j :| 0 <= j < i && files[j].id == id && files[j].file == 0;
    }
  }

  lemma GoodDistinct(e: Request, d: Disk)
    requires Good(e, d) && d.upload.Some?
    ensures Distinct(d.upload.value.files)
  {
  }

  lemma SentStep(files: seq<Artifact>, sent: seq<ArtifactId>, i: nat)
    requires i < |files| && SentFrom(files, sent, i) && Distinct(files)
    ensures SentFrom(files, if files[i].file == 0 then sent + [files[i].id] else sent, i + 1)
    ensures OnlyMissing(files, if files[i].file == 0 then sent + [files[i].id] else sent)
  {
    hide OnlyMissing;
    var more := if files[i].file == 0 then sent + [files[i].id] else sent;
    NotSent(files, sent, i);
    forall id | id in more ensures exists j :: 0 <= j < i + 1 && files[j].id == id && files[j].file == 0 {
      if id in sent {
        var j :| 0 <= j < i && files[j].id == id && files[j].file == 0;
      }
    }
    SentAll(files, more, i + 1);
  }

  lemma SentAll(files: seq<Artifact>, sent: seq<ArtifactId>, i: nat)
    requires i <= |files| && SentFrom(files, sent, i)
    requires Distinct(files)
    ensures OnlyMissing(files, sent)
  {
    forall f | f in files && f.file != 0 ensures f.id !in sent {
      var k :| 0 <= k < |files| && files[k] == f;
    }
  }

  /** Only sealed artifacts are sent. */
  ghost predicate FromSeal(sealed: Option<Seal>, sent: seq<ArtifactId>) {
    forall id :: id in sent ==> sealed.Some? && exists f :: f in sealed.value.manifest.files && f.id == id
  }

  lemma SentSealed(e: Request, d: Disk, sent: seq<ArtifactId>, i: nat)
    requires Good(e, d) && d.upload.Some? && i <= |d.upload.value.files| && SentFrom(d.upload.value.files, sent, i)
    ensures FromSeal(d.sealed, sent)
  {
    hide WellFormed, HookAccepts, Describes;
    forall id | id in sent ensures exists f :: f in d.sealed.value.manifest.files && f.id == id {
      var j :| 0 <= j < i && d.upload.value.files[j].id == id && d.upload.value.files[j].file == 0;
      assert d.upload.value.files[j].(file := 0) == d.sealed.value.manifest.files[j].(file := 0);
      assert d.sealed.value.manifest.files[j] in d.sealed.value.manifest.files;
    }
  }

  lemma NothingSent(files: seq<Artifact>)
    ensures OnlyMissing(files, [])
  {
  }

  lemma UploadedAll(start: seq<Artifact>, files: seq<Artifact>)
    requires UploadedTo(start, files, |start|)
    ensures forall f :: f in files ==> f.file != 0
  {
    forall f | f in files ensures f.file != 0 {
      var k :| 0 <= k < |files| && files[k] == f;
    }
  }

  lemma SealedIsReadable(e: Request, before: Disk, d: Disk)
    requires Good(e, d) && d.sealed.Some? && d.upload == before.upload
    ensures FinalSize(d.sealed.value.manifest, e) + 4 <= MANIFEST ==> Readable(e, before)
  {
    hide Good, ManifestSize, FinalSize;
    if FinalSize(d.sealed.value.manifest, e) + 4 <= MANIFEST {
      RecordIsReadable(e, d);
    }
  }

  lemma UploadHasSeal(e: Request, d: Disk)
    requires Good(e, d)
    ensures d.upload.Some? ==> d.sealed.Some? && WellFormed(d.upload.value, e)
    ensures d.upload.Some? && d.upload.value.stage.Ready? ==>
              HookAccepts(d.upload.value, e) && forall f :: f in d.upload.value.files ==> f.file != 0
  {
  }

  lemma ReadyIsWellFormed(e: Request, d: Disk, o: Output)
    requires Good(e, d) && d.upload == Some(o.(stage := Uploading)) && o.stage.Ready?
    requires forall f :: f in o.files ==> f.file != 0
    ensures WellFormed(o, e)
  {
  }

  /** What counts from the start of an attempt counts from the record before it: a seal records no upload. */
  lemma SinceStart(e: Request, d: Disk, files: seq<Artifact>, sent: seq<ArtifactId>)
    requires Good(e, d) && d.sealed.Some?
    ensures var start := From(d).files;
            && (OnlyMissing(start, sent) ==> OnlyMissing(Recorded(d), sent))
            && (Accounted(files, start, sent) ==> Accounted(files, Recorded(d), sent))
  {
  }

  lemma GoodUpload(e: Request, d: Disk)
    requires Good(e, d) && d.upload.Some?
    ensures d.sealed.Some? && SameArtifacts(d.upload.value.files, d.sealed.value.manifest.files)
  {
  }

  /** Starting to upload, recording one upload, and finishing all keep the workspace good. */
  lemma UploadingIsGood(e: Request, d: Disk, o: Output)
    requires Good(e, d) && d.sealed.Some?
    requires o == From(d).(stage := Uploading)
    ensures Good(e, d.(upload := Some(o))) && Later(d, d.(upload := Some(o)))
  {
  }

  lemma RecordIsGood(e: Request, d: Disk, o: Output, i: nat, file: Id)
    requires Good(e, d) && d.upload == Some(o) && o.stage.Uploading? && i < |o.files| && o.files[i].file == 0
    ensures var after := d.(upload := Some(o.(files := o.files[i := o.files[i].(file := file)])));
            Good(e, after) && Later(d, after)
  {
    hide CleanPath, Describes, FilesSize, ManifestSize;
    var files := o.files[i := o.files[i].(file := file)];
    forall f | f in files ensures ArtifactOk(o.(files := files), e, f, f.name == PythonName(f.name)) {
      var k :| 0 <= k < |files| && files[k] == f;
      assert o.files[k] in o.files;
    }
  }

  lemma ReadyIsGood(e: Request, d: Disk, o: Output)
    requires Good(e, d) && d.upload == Some(o.(stage := Uploading)) && o.stage.Ready?
    requires HookAccepts(o, e)
    ensures Good(e, d.(upload := Some(o))) && Later(d, d.(upload := Some(o)))
  {
  }
}
