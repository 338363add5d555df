/** apphub/app/uploads.py: the upload pipeline. An extension allow-list,
    a destination named by the hash of the base name, a chunked copy that
    counts, hashes and enforces the size cap, an optional ClamAV verdict, and
    the MIME type with its fallback.

    SHA-256, `mimetypes.guess_type` and the ClamAV daemon are parameters:
    `digest` maps bytes to a 32-byte digest, `guessType` maps a name to a
    type or nothing, and `clamd` answers a command about a file's bytes. */
module Uploads {
  import opened Text
  import opened Http
  import opened Encoding
  import opened Paths

  /** A SHA-256 digest. */
  type Digest = d: seq<byte> | |d| == 32 witness seq(32, _ => 0)

  /** An uploaded file: the name the client sent and the bytes of its body. */
  datatype Upload = Upload(filename: string, content: seq<byte>)

  /** `UploadResult`. */
  datatype UploadResult = UploadResult(
    filename: string,
    storedPath: string,
    sizeBytes: int,
    sha256: string,
    mimeType: string)

  /** What the ClamAV socket yields: the decoded reply, or the exception
      raised while connecting, sending, receiving or decoding. */
  datatype ScanReply = Reply(text: string) | SocketError(exception: string)

  /** The oracles the pipeline calls. */
  datatype Oracles = Oracles(
    digest: seq<byte> -> Digest,
    guessType: string -> Option<string>,
    clamd: (string, seq<byte>) -> ScanReply)

  const BadExtension := HttpError(400, "File extension not allowed")
  const TooLarge := HttpError(400, "File too large")
  const Malware := HttpError(400, "Malware detected by ClamAV")
  const DefaultMime := "application/octet-stream"
  /** The size of one `read`: 1 MiB. */
  const ChunkSize := 1024 * 1024

  /** `any(name.endswith(ext) for ext in allowed)`. */
  function AnyEndsWith(name: string, allowed: seq<string>): (b: bool)
    ensures b <==> exists i :: 0 <= i < |allowed| && EndsWith(name, allowed[i])
    decreases |allowed|
  {
    if allowed == [] then false
    else if EndsWith(name, allowed[0]) then true
    else
      assert forall i :: 1 <= i < |allowed| ==> allowed[i] == allowed[1..][i - 1];
      AnyEndsWith(name, allowed[1..])
  }

  /** `_validate_extension(filename, allowed)`: the lower-cased name must end
      with one of the entries, which are compared as written. */
  function ValidateExtension(filename: string, allowed: seq<string>): (o: Outcome)
    ensures o == Pass <==> exists i :: 0 <= i < |allowed| && EndsWith(Lower(filename), allowed[i])
    ensures o.Fail? ==> o.error == BadExtension
  {
    if AnyEndsWith(Lower(filename), allowed) then Pass else Fail(BadExtension)
  }

  /** An entry holding an upper-case letter never matches, since only the
      name is lower-cased. */
  lemma UpperCaseEntryNeverMatches(filename: string, ext: string, k: int)
    requires 0 <= k < |ext| && IsUpper(ext[k])
    ensures !EndsWith(Lower(filename), ext)
  {
    var name := Lower(filename);
    if |ext| <= |name| {
      assert name[|name| - |ext|..][k] != ext[k];
    }
  }

  /** An empty entry in the list accepts every name. */
  lemma EmptyEntryAcceptsAll(filename: string, allowed: seq<string>)
    requires "" in allowed
    ensures ValidateExtension(filename, allowed) == Pass
  {
    var i :| 0 <= i < |allowed| && allowed[i] == "";
    assert EndsWith(Lower(filename), allowed[i]);
  }

  /** The check ignores the case of the name. */
  lemma ExtensionCaseInsensitive(filename: string, allowed: seq<string>)
    ensures ValidateExtension(Lower(filename), allowed) == ValidateExtension(filename, allowed)
  {
    LowerIdempotent(filename);
  }

  /** `os.path.basename(p)`: what follows the last "/". */
  function Basename(p: string): (b: string)
    ensures '/' !in b
    ensures |b| <= |p| && b == p[|p| - |b|..]
    ensures |b| < |p| ==> p[|p| - |b| - 1] == '/'
    decreases |p|
  {
    if p == [] || p[|p| - 1] == '/' then []
    else Basename(p[..|p| - 1]) + [p[|p| - 1]]
  }

  /** A name without "/" is its own base name. */
  lemma {:induction false} BasenameOfName(name: string)
    requires '/' !in name
    ensures Basename(name) == name
    decreases |name|
  {
    if name != [] {
      var init := name[..|name| - 1];
      BasenameOfName(init);
      assert init + [name[|name| - 1]] == name;
    }
  }

  /** A directory prefix is dropped: together with the postconditions of
      Basename this pins it down as the part after the last "/". */
  lemma {:induction false} BasenameAfterSlash(dir: string, name: string)
    requires '/' !in name
    ensures Basename(dir + "/" + name) == name
    decreases |name|
  {
    var p := dir + "/" + name;
    if name == [] {
      assert p[|p| - 1] == '/';
    } else {
      var init := name[..|name| - 1];
      BasenameAfterSlash(dir, init);
      assert p[..|p| - 1] == dir + "/" + init;
      assert p[|p| - 1] == name[|name| - 1];
      assert init + [name[|name| - 1]] == name;
    }
  }

  /** `f"{sha256(filename.encode()).hexdigest()}-{filename}"`. */
  function StoredName(digest: seq<byte> -> Digest, base: string): (name: string)
    ensures |name| == 65 + |base|
    ensures name[64] == '-' && name[65..] == base
    ensures forall i :: 0 <= i < 64 ==> IsHexDigit(name[i])
    ensures name[..64] == Hex(digest(Utf8(base)))
  {
    Hex(digest(Utf8(base))) + "-" + base
  }

  /** `storage_dir / StoredName(basename)`. */
  function Destination(dir: Path, digest: seq<byte> -> Digest, filename: string): Path {
    Div(dir, ParsePath(StoredName(digest, Basename(filename))))
  }

  /** A stored name is one plain relative path part. */
  lemma StoredNameIsPart(digest: seq<byte> -> Digest, base: string)
    requires '/' !in base
    ensures var name := StoredName(digest, base);
            IsPart(name) && name != ".." && ParsePath(name) == Path(false, [name])
  {
    var name := StoredName(digest, base);
    assert forall k :: 65 <= k < |name| ==> name[k] == base[k - 65];
    assert forall k :: 0 <= k < |name| ==> name[k] != '/';
    SplitNoSep(name, '/');
    assert !StartsWith(name, "/");
  }

  /** The stored name is one plain path part, so the destination is a direct
      child of the storage directory whatever the client sent. */
  lemma DestinationIsChild(dir: Path, digest: seq<byte> -> Digest, filename: string)
    ensures var name := StoredName(digest, Basename(filename));
            IsPart(name) && name != ".." &&
            Destination(dir, digest, filename) == Path(dir.absolute, dir.parts + [name])
  {
    StoredNameIsPart(digest, Basename(filename));
  }

  /** Different base names never share a destination; equal ones always do. */
  lemma DestinationDeterminesBasename(dir: Path, digest: seq<byte> -> Digest, f1: string, f2: string)
    ensures Destination(dir, digest, f1) == Destination(dir, digest, f2) <==> Basename(f1) == Basename(f2)
  {
    DestinationIsChild(dir, digest, f1);
    DestinationIsChild(dir, digest, f2);
    if Destination(dir, digest, f1) == Destination(dir, digest, f2) {
      var n1 := StoredName(digest, Basename(f1));
      var n2 := StoredName(digest, Basename(f2));
      assert (dir.parts + [n1])[|dir.parts|] == n1;
      assert (dir.parts + [n2])[|dir.parts|] == n2;
    }
  }

  /** The destination as a string (`str(destination)`). */
  function StoredPath(dir: Path, digest: seq<byte> -> Digest, filename: string): string {
    PathText(Destination(dir, digest, filename))
  }

  /** The command `_scan_clamav` sends. */
  function ScanCommand(path: string): string {
    "SCAN " + path + "\n"
  }

  /** The decision of `_scan_clamav`: skipped when disabled; otherwise a
      reply containing "FOUND" is malware and a socket failure propagates. */
  function ScanVerdict(enabled: bool, reply: ScanReply): (o: Outcome)
    ensures !enabled ==> o == Pass
    ensures enabled && reply.Reply? ==> (o == Fail(Malware) <==> Contains(reply.text, "FOUND"))
    ensures enabled && reply.Reply? ==> (o == Pass <==> !Contains(reply.text, "FOUND"))
    ensures enabled && reply.SocketError? ==> o == Fail(Unhandled(reply.exception))
  {
    if !enabled then Pass
    else match reply
      case SocketError(e) => Fail(Unhandled(e))
      case Reply(text) => if Contains(text, "FOUND") then Fail(Malware) else Pass
  }

  /** clamd echoes the scanned path in its reply ("<path>: OK"), so a clean
      file whose stored name contains "FOUND" is reported as malware. */
  lemma FoundInNameRejected(path: string, i: int)
    requires OccursAt(path, "FOUND", i)
    ensures ScanVerdict(true, Reply(path + ": OK")) == Fail(Malware)
  {
    var text := path + ": OK";
    assert text[i..i + 5] == path[i..i + 5];
    assert OccursAt(text, "FOUND", i);
  }

  /** `mime_type or "application/octet-stream"`. */
  function MimeOf(guess: Option<string>): (m: string)
    ensures m != ""
    ensures Truthy(guess) ==> m == guess.value
    ensures !Truthy(guess) ==> m == DefaultMime
  {
    if Truthy(guess) then guess.value else DefaultMime
  }

  /** `settings.max_upload_mb * 1024 * 1024`. */
  function MaxBytes(maxUploadMb: int): int {
    maxUploadMb * 1024 * 1024
  }

  /** The copy loop gives up exactly when some prefix it has read is over the
      cap, which is when the content is non-empty and over the cap (an empty
      body ends the loop before the first check). */
  predicate TooBig(size: int, maxBytes: int) {
    size > 0 && size > maxBytes
  }

  /** What `save_upload` returns. */
  function SaveOutcome(up: Upload, dir: Path, allowed: seq<string>, maxUploadMb: int,
                       clamavEnabled: bool, o: Oracles): (r: Result<UploadResult>)
    ensures r.Ok? <==>
              ValidateExtension(up.filename, allowed) == Pass &&
              !TooBig(|up.content|, MaxBytes(maxUploadMb)) &&
              ScanVerdict(clamavEnabled, o.clamd(ScanCommand(StoredPath(dir, o.digest, up.filename)), up.content)) == Pass
    ensures r.Err? ==> r.error in {BadExtension, TooLarge, Malware} || r.error.Unhandled?
  {
    if ValidateExtension(up.filename, allowed).Fail? then Err(BadExtension)
    else if TooBig(|up.content|, MaxBytes(maxUploadMb)) then Err(TooLarge)
    else
      var dest := StoredPath(dir, o.digest, up.filename);
      var verdict := ScanVerdict(clamavEnabled, o.clamd(ScanCommand(dest), up.content));
      if verdict.Fail? then Err(verdict.error)
      else
        var base := Basename(up.filename);
        Ok(UploadResult(base, dest, |up.content|, Hex(o.digest(up.content)), MimeOf(o.guessType(base))))
  }

  /** The files on disk after `save_upload`: untouched when the extension is
      refused; the destination removed when the upload is too large (even a
      file that was there before); otherwise the destination holds the
      content, also when the scan then refuses it. */
  function FilesAfter(files: map<string, seq<byte>>, up: Upload, dir: Path, allowed: seq<string>,
                      maxUploadMb: int, digest: seq<byte> -> Digest): map<string, seq<byte>>
  {
    if ValidateExtension(up.filename, allowed).Fail? then files
    else if TooBig(|up.content|, MaxBytes(maxUploadMb)) then files - {StoredPath(dir, digest, up.filename)}
    else files[StoredPath(dir, digest, up.filename) := up.content]
  }

  /** The directories `mkdir(parents=True)` makes sure of: `dir` and every
      ancestor named by a prefix of its parts. */
  function DirChain(dir: Path): (chain: set<string>)
    ensures dir.parts != [] ==> PathText(dir) in chain
  {
    assert dir.parts[..|dir.parts|] == dir.parts;
    set k | 1 <= k <= |dir.parts| :: PathText(Path(dir.absolute, dir.parts[..k]))
  }

  /** Every parent of the storage directory is in its chain. */
  lemma DirChainHoldsParents(dir: Path, k: nat)
    requires 1 <= k <= |dir.parts|
    ensures PathText(Path(dir.absolute, dir.parts[..k])) in DirChain(dir)
  {
  }

  /** The directories after `save_upload`: the storage directory and its
      parents are created once the extension has passed. */
  function DirsAfter(dirs: set<string>, up: Upload, dir: Path, allowed: seq<string>): set<string> {
    if ValidateExtension(up.filename, allowed).Fail? then dirs else dirs + DirChain(dir)
  }

  /** The storage the pipeline writes to: regular files by path, and the
      directories created. */
  class FileSystem {
    var files: map<string, seq<byte>>
    var dirs: set<string>

    constructor ()
      ensures files == map[] && dirs == {}
    {
      files := map[];
      dirs := {};
    }

    /** `mkdir(parents=True, exist_ok=True)`. */
    method MakeDirs(dir: Path)
      modifies this
      ensures dirs == old(dirs) + DirChain(dir) && files == old(files)
    {
      dirs := dirs + DirChain(dir);
    }

    /** `open("wb")`: creates the file, or truncates the one already there. */
    method Create(path: string)
      modifies this
      ensures files == old(files)[path := []] && dirs == old(dirs)
    {
      files := files[path := []];
    }

    /** `out.write(data)` on a file opened by Create. */
    method Append(path: string, data: seq<byte>)
      requires path in files
      modifies this
      ensures files == old(files)[path := old(files)[path] + data] && dirs == old(dirs)
    {
      files := files[path := files[path] + data];
    }

    /** `unlink(missing_ok=True)`. */
    method Unlink(path: string)
      modifies this
      ensures files == old(files) - {path} && dirs == old(dirs)
    {
      files := files - {path};
    }
  }

  /** `file.file.read(1024 * 1024)` at offset `pos`: up to one chunk, empty at the end. */
  function ReadChunk(content: seq<byte>, pos: nat): (chunk: seq<byte>)
    requires pos <= |content|
    ensures chunk == [] <==> pos == |content|
    ensures pos + |chunk| <= |content| && chunk == content[pos..pos + |chunk|]
  {
    if |content| - pos <= ChunkSize then content[pos..] else content[pos..pos + ChunkSize]
  }

  /** The copy loop of `save_upload`: read chunk by chunk, count, give up
      (removing the destination) as soon as the count passes the cap,
      otherwise hash and write the chunk. On success the destination holds
      the whole content and the count is its length. */
  method CopyChunks(fs: FileSystem, destination: string, content: seq<byte>, maxBytes: int)
    returns (tooBig: bool, size: int, hashed: seq<byte>)
    requires destination in fs.files && fs.files[destination] == []
    modifies fs
    ensures tooBig <==> TooBig(|content|, maxBytes)
    ensures tooBig ==> fs.files == old(fs.files) - {destination}
    ensures !tooBig ==> fs.files == old(fs.files)[destination := content]
    ensures !tooBig ==> size == |content| && hashed == content
    ensures fs.dirs == old(fs.dirs)
  {
    size := 0;
    hashed := [];
    while true
      invariant 0 <= size <= |content|
      invariant hashed == content[..size]
      invariant fs.files == old(fs.files)[destination := hashed]
      invariant fs.dirs == old(fs.dirs)
      invariant size > 0 ==> size <= maxBytes
      decreases |content| - size
    {
      var chunk := ReadChunk(content, size);
      if chunk == [] {
        break;
      }
      assert content[..size + |chunk|] == hashed + chunk;
      size := size + |chunk|;
      if size > maxBytes {
        fs.Unlink(destination);
        assert fs.files == old(fs.files) - {destination};
        return true, size, hashed;
      }
      hashed := hashed + chunk;
      fs.Append(destination, chunk);
    }
    assert hashed == content;
    tooBig := false;
  }

  /** Truncating a file and then removing or refilling it is the same as
      removing or filling it directly. */
  lemma RewriteFacts(files: map<string, seq<byte>>, path: string, content: seq<byte>)
    ensures files[path := []] - {path} == files - {path}
    ensures files[path := []][path := content] == files[path := content]
  {
  }

  /** `save_upload(file, storage_dir, allowed_exts)`. */
  method SaveUpload(fs: FileSystem, up: Upload, dir: Path, allowed: seq<string>, maxUploadMb: int,
                    clamavEnabled: bool, o: Oracles) returns (r: Result<UploadResult>)
    modifies fs
    ensures r == SaveOutcome(up, dir, allowed, maxUploadMb, clamavEnabled, o)
    ensures fs.files == FilesAfter(old(fs.files), up, dir, allowed, maxUploadMb, o.digest)
    ensures fs.dirs == DirsAfter(old(fs.dirs), up, dir, allowed)
  {
    var check := ValidateExtension(up.filename, allowed);
    if check.Fail? {
      return Err(check.error);
    }
    fs.MakeDirs(dir);
    var filename := Basename(up.filename);
    var destination := StoredPath(dir, o.digest, up.filename);
    var maxBytes := maxUploadMb * 1024 * 1024;
    ghost var files0 := fs.files;
    fs.Create(destination);
    var tooBig, size, hashed := CopyChunks(fs, destination, up.content, maxBytes);
    RewriteFacts(files0, destination, up.content);
    if tooBig {
      return Err(TooLarge);
    }
    var verdict := ScanVerdict(clamavEnabled, o.clamd(ScanCommand(destination), fs.files[destination]));
    if verdict.Fail? {
      return Err(verdict.error);
    }
    var mimeType := MimeOf(o.guessType(filename));
    return Ok(UploadResult(filename, destination, size, Hex(o.digest(hashed)), mimeType));
  }

  /** A successful upload reports the base name (free of "/"), the
      destination, the full length, the digest of the whole content (which
      reads back from its hex form) and the MIME type guessed from the base
      name, or "application/octet-stream" when there is no guess. */
  lemma ResultDescribesContent(up: Upload, dir: Path, allowed: seq<string>, maxUploadMb: int,
                               clamavEnabled: bool, o: Oracles)
    requires SaveOutcome(up, dir, allowed, maxUploadMb, clamavEnabled, o).Ok?
    ensures var res := SaveOutcome(up, dir, allowed, maxUploadMb, clamavEnabled, o).value;
            res.filename == Basename(up.filename) && '/' !in res.filename &&
            res.storedPath == StoredPath(dir, o.digest, up.filename) &&
            res.sizeBytes == |up.content| &&
            |res.sha256| == 64 && Unhex(res.sha256) == Some(o.digest(up.content)) &&
            res.mimeType == MimeOf(o.guessType(res.filename)) && res.mimeType != ""
  {
    HexRoundTrip(o.digest(up.content));
  }

  /** A body of exactly the cap is accepted by the size check; one byte more
      is refused. */
  lemma CapIsInclusive(up: Upload, dir: Path, allowed: seq<string>, maxUploadMb: int,
                       clamavEnabled: bool, o: Oracles)
    requires ValidateExtension(up.filename, allowed) == Pass
    ensures |up.content| == MaxBytes(maxUploadMb) ==>
              SaveOutcome(up, dir, allowed, maxUploadMb, clamavEnabled, o) != Err(TooLarge)
    ensures |up.content| == MaxBytes(maxUploadMb) + 1 && |up.content| > 0 ==>
              SaveOutcome(up, dir, allowed, maxUploadMb, clamavEnabled, o) == Err(TooLarge)
  {
  }

  /** A refused extension leaves the disk exactly as it was. */
  lemma RefusedExtensionTouchesNothing(files: map<string, seq<byte>>, dirs: set<string>, up: Upload,
                                       dir: Path, allowed: seq<string>, maxUploadMb: int, digest: seq<byte> -> Digest)
    requires ValidateExtension(up.filename, allowed).Fail?
    ensures FilesAfter(files, up, dir, allowed, maxUploadMb, digest) == files
    ensures DirsAfter(dirs, up, dir, allowed) == dirs
  {
  }

  /** A malware verdict does not remove the file: its bytes stay at the
      destination. */
  lemma MalwareStaysOnDisk(files: map<string, seq<byte>>, up: Upload, dir: Path, allowed: seq<string>,
                           maxUploadMb: int, o: Oracles)
    requires SaveOutcome(up, dir, allowed, maxUploadMb, true, o) == Err(Malware)
    ensures var dest := StoredPath(dir, o.digest, up.filename);
            var after := FilesAfter(files, up, dir, allowed, maxUploadMb, o.digest);
            dest in after && after[dest] == up.content
  {
  }

  /** Uploads with the same base name share one destination: a later upload
      replaces the bytes of an earlier one, and a later oversized one
      deletes the earlier file. */
  lemma SameBasenameShareDestination(files: map<string, seq<byte>>, up1: Upload, up2: Upload, dir: Path,
                                     allowed: seq<string>, maxUploadMb: int, digest: seq<byte> -> Digest)
    requires Basename(up1.filename) == Basename(up2.filename)
    requires ValidateExtension(up1.filename, allowed) == Pass && ValidateExtension(up2.filename, allowed) == Pass
    requires !TooBig(|up1.content|, MaxBytes(maxUploadMb))
    ensures var dest := StoredPath(dir, digest, up1.filename);
            var after := FilesAfter(FilesAfter(files, up1, dir, allowed, maxUploadMb, digest),
                                    up2, dir, allowed, maxUploadMb, digest);
            dest == StoredPath(dir, digest, up2.filename) &&
            (TooBig(|up2.content|, MaxBytes(maxUploadMb)) ==> dest !in after) &&
            (!TooBig(|up2.content|, MaxBytes(maxUploadMb)) ==> after[dest] == up2.content)
  {
  }
}
