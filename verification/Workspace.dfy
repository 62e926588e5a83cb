/**
  The workspace of a sandbox (internal/sandbox/files.py): a map from paths to documents with atomic writes.

  Documents stand for their JSON encoding and `Sha256` for the digest of a document; both are injective. An
  identifier is a number, 0 standing for every string that valid_id or valid_run refuses.
 */
module Workspace {
  import opened Collections
  import opened Names

  type Id = nat
  newtype Byte = b: int | 0 <= b < 256
  type Data = seq<Byte>

  datatype Digest = Sha256(of: Content)

  datatype Path =
    | RequestPath(anchor: Id)
    | ManifestPath(anchor: Id)
    | FilePath(file: Id, name: string)
    | CachePath(file: Id)
    | IndexPath(run: Id)
    | CurrentRun
    | Outbox(run: Id)
    | OtherPath(text: string)

  datatype Status = Unset | Ready | FileLimit | BatchLimit | Unavailable | DownloadFailed | OtherStatus

  datatype InputFile = InputFile(
    post: Id, file: Id, channel: Id, name: string, mime: string, size: int, path: Path, sha: Option<Digest>,
    status: Status)

  datatype Limits = Limits(
    maxFile: int, maxImage: int, maxBatch: int, maxPerPost: int, maxOutputFiles: int, maxOutputBytes: int)

  datatype Request = Request(
    schema: nat, source: Id, channel: Id, root: Id, anchor: Id, files: seq<InputFile>, limits: Limits,
    previous: Option<Path>, delivered: seq<Path>)

  datatype Manifest = Manifest(schema: nat, source: Id, anchor: Id, requestHash: Digest, files: seq<InputFile>)

  datatype Page = Page(schema: nat, previous: Option<Path>, batches: seq<Path>)

  datatype Content =
    | Raw(data: Data)
    | RequestDoc(request: Request)
    | ManifestDoc(manifest: Manifest)
    | CacheDoc(entry: InputFile)
    | IndexDoc(page: Page)
    | CurrentDoc(current: Id, index: Path, outbox: Path)

  type Files = map<Path, Content>

  /** The request without what belongs to a single run. */
  function Frozen(r: Request): Request {
    r.(previous := None, delivered := [])
  }

  function StartsWith(s: string, prefix: string): bool {
    prefix <= s
  }

  function SizeLimit(limits: Limits, mime: string): int {
    if StartsWith(mime, "image/") then limits.maxImage else limits.maxFile
  }

  /** validate_request. */
  predicate ValidRequest(r: Request) {
    && r.schema == 1 && r.source != 0 && r.channel != 0 && r.root != 0 && r.anchor != 0
    && (forall f :: f in r.files ==>
         f.post != 0 && f.file != 0 && f.channel != 0 && f.path == FilePath(f.file, PythonName(f.name)))
    && r.limits.maxFile > 0 && r.limits.maxImage > 0 && r.limits.maxBatch > 0 && r.limits.maxPerPost > 0
  }

  /** Request.Validate of the connector (internal/attachments/types.go:95-108). */
  predicate GoValid(r: Request) {
    && r.schema == 1 && r.source != 0 && r.channel != 0 && r.root != 0 && r.anchor != 0
    && (forall f :: f in r.files ==>
         f.file != 0 && f.post != 0 && f.channel != 0 && f.path == FilePath(f.file, GoName(f.name)))
    && r.limits.maxBatch >= 1 && r.limits.maxFile >= 1 && r.limits.maxImage >= 1
  }

  /** What the connector validates, the hook accepts, except for names that end in a separator and a per-post limit
      below one; and conversely, except for the names. */
  lemma ValidInBoth(r: Request)
    ensures var named := forall f :: f in r.files ==> !EndsInSeparator(f.name) || Clean(Base(f.name)) == DEFAULT;
            && (GoValid(r) ==> (ValidRequest(r) <==> r.limits.maxPerPost > 0 && named))
            && (ValidRequest(r) ==> (GoValid(r) <==> named))
  {
    forall f | f in r.files ensures GoName(f.name) == PythonName(f.name) <==>
        !EndsInSeparator(f.name) || Clean(Base(f.name)) == DEFAULT {
      AgreeExactly(f.name);
    }
  }

  /** The batch manifests are of this schema, about their own batch, and agree with the frozen requests beside them. */
  ghost predicate Hashed(files: Files) {
    forall a ::
      && (RequestPath(a) in files ==> files[RequestPath(a)].RequestDoc?)
      && (ManifestPath(a) in files ==>
            && files[ManifestPath(a)].ManifestDoc?
            && RequestPath(a) in files
            && files[ManifestPath(a)].manifest.requestHash == Sha256(files[RequestPath(a)])
            && files[ManifestPath(a)].manifest.schema == 1 && files[ManifestPath(a)].manifest.anchor == a
            && files[ManifestPath(a)].manifest.source == files[RequestPath(a)].request.source)
  }

  /** Requests, manifests, indexes and the rest of the workspace are as before, and no file is lost. */
  ghost predicate OnlyInputs(before: Files, after: Files) {
    && (forall p :: p in before ==> p in after)
    && (forall p :: p in after && !p.FilePath? && !p.CachePath? ==> p in before && after[p] == before[p])
  }

  predicate OfBatch(p: Path, anchor: Id) {
    p == RequestPath(anchor) || p == ManifestPath(anchor)
  }

  /** Besides input files and cache records only this batch changed; its request is frozen as asked, and stays once it
      is there. */
  ghost predicate OnlyBatch(before: Files, after: Files, r: Request) {
    && (forall p :: p in before ==> p in after)
    && (forall p :: p in after && !p.FilePath? && !p.CachePath? && !OfBatch(p, r.anchor) ==>
          p in before && after[p] == before[p])
    && (RequestPath(r.anchor) in after ==>
          after[RequestPath(r.anchor)] ==
          if RequestPath(r.anchor) in before then before[RequestPath(r.anchor)] else RequestDoc(Frozen(r)))
  }

  /** Cached bytes and records are those of the immutable files of the chat server. */
  ghost predicate Genuine(files: Files, contents: map<Id, Data>) {
    && (forall id :: CachePath(id) in files ==>
          && files[CachePath(id)].CacheDoc?
          && IsRecord(files[CachePath(id)].entry, id, contents))
    && (forall id, name :: FilePath(id, name) in files ==>
         id in contents && files[FilePath(id, name)] == Raw(contents[id]))
  }

  ghost predicate IsRecord(entry: InputFile, id: Id, contents: map<Id, Data>) {
    && entry.file == id && id in contents
    && entry.size == |contents[id]|
    && entry.sha == Some(Sha256(Raw(contents[id])))
  }

  class Store {
    var files: Files
    ghost var points: set<Files> // every state that a write has left, and a crash could have stopped at

    constructor ()
      ensures files == map[] && points == {}
    {
      files, points := map[], {};
    }

    /** Store.write: a temporary file replaced atomically. */
    method Write(path: Path, content: Content)
      modifies this
      ensures files == old(files)[path := content]
      ensures points == old(points) + {files}
    {
      files := files[path := content];
      points := points + {files};
    }
  }
}
