/**
 Delivering one output: copy it chunk by chunk to a temporary file beside the final one, read that file back,
 compare digests, and rename. Every operation of the file system may fail, and a write may store other
 bytes than it was given without saying so.
 */
module StagedCopy {
  import opened Basics
  import opened JobModel
  import opened Handoff

  type Byte = bv8

  type Content = seq<Byte>

  type Directory = seq<string>

  datatype Path = Path(parent: Directory, name: string)

  type Files = map<Path, Content>

  const CHUNK_SIZE: nat := 1024 * 1024

  /** A digest of the bytes fed to it so far; distinct contents have distinct digests. */
  datatype Digest = Digest(fed: Content)
  {
    function Update(chunk: Content): Digest {
      Digest(fed + chunk)
    }
  }

  /** `finalized_path.with_name` */
  function TemporaryFor(finalized: Path): Path {
    Path(finalized.parent, "." + finalized.name + ".tmp")
  }

  lemma TemporaryIsAnotherFile(finalized: Path)
    ensures TemporaryFor(finalized) != finalized
  {
    assert |TemporaryFor(finalized).name| == |finalized.name| + 5;
  }

  /** What the storage does with one write: keeps it, raises after keeping something, or keeps something else. */
  datatype WriteEffect = Stored | WriteRaises(kept: Content) | Corrupted(kept: Content)

  datatype RenameEffect = Renamed | CrossDevice | RenameRaises

  /** How each operation of one copy goes; reads and writes are numbered from 0. */
  datatype Faults = Faults(
    mkdirRaises: bool, openSourceRaises: bool, openTemporaryRaises: bool, readRaises: nat -> bool,
    write: nat -> WriteEffect, closeRaises: bool, openCheckRaises: bool, checkRaises: nat -> bool, rename: RenameEffect)

  ghost predicate Faultless(f: Faults) {
    && !f.mkdirRaises && !f.openSourceRaises && !f.openTemporaryRaises && !f.closeRaises && !f.openCheckRaises
    && f.rename == Renamed && forall k: nat :: !f.readRaises(k) && f.write(k) == Stored && !f.checkRaises(k)
  }

  function ChunkAt(content: Content, offset: nat): Content {
    if offset >= |content| then []
    else if |content| - offset <= CHUNK_SIZE then content[offset..]
    else content[offset..offset + CHUNK_SIZE]
  }

  /** Files by path, and a record of every state the files have been in. */
  class FileSystem {
    var files: Files
    var directories: set<Directory>
    ghost var log: seq<Files>

    constructor (files: Files, directories: set<Directory>)
      ensures this.files == files && this.directories == directories && log == []
    {
      this.files, this.directories, log := files, directories, [];
    }

    method MakeDirectory(d: Directory, raises: bool) returns (ok: bool)
      modifies this`directories
      ensures ok == !raises && directories == if ok then old(directories) + {d} else old(directories)
    {
      ok := !raises;
      if ok {
        directories := directories + {d};
      }
    }

    /** Opening for writing empties the file. */
    method OpenForWriting(p: Path, raises: bool) returns (ok: bool)
      modifies this`files, this`log
      ensures ok == !raises
      ensures files == if ok then old(files)[p := []] else old(files)
      ensures log == if ok then old(log) + [files] else old(log)
    {
      ok := !raises;
      if ok {
        files := files[p := []];
        log := log + [files];
      }
    }

    method ReadChunk(p: Path, offset: nat, raises: bool) returns (ok: bool, chunk: Content)
      requires p in files
      ensures ok == !raises && (ok ==> chunk == ChunkAt(files[p], offset))
    {
      ok := !raises;
      chunk := if ok then ChunkAt(files[p], offset) else [];
    }

    method Append(p: Path, chunk: Content, effect: WriteEffect) returns (ok: bool)
      requires p in files
      modifies this`files, this`log
      ensures ok == !effect.WriteRaises?
      ensures files == old(files)[p := old(files)[p] + if effect.Stored? then chunk else effect.kept]
      ensures log == old(log) + [files]
    {
      ok := !effect.WriteRaises?;
      files := files[p := files[p] + if effect.Stored? then chunk else effect.kept];
      log := log + [files];
    }

    /** The rename is one step, and does nothing when it raises. */
    method Replace(from: Path, to: Path, effect: RenameEffect) returns (ok: bool)
      requires from in files
      modifies this`files, this`log
      ensures ok == effect.Renamed?
      ensures files == if ok then old(files)[to := old(files)[from]] - {from} else old(files)
      ensures log == if ok then old(log) + [files] else old(log)
    {
      ok := effect.Renamed?;
      if ok {
        files := files[to := files[from]] - {from};
        log := log + [files];
      }
    }

    /** `_compute_sha256_and_size`: the digest and size of a whole file, read in chunks. */
    method ComputeSha256AndSize(p: Path, openRaises: bool, readRaises: nat -> bool)
      returns (ok: bool, digest: Digest, size: nat)
      requires p in files
      ensures ok ==> digest == Digest(files[p]) && size == |files[p]|
      ensures ok <==> !openRaises && forall k: nat | IsRead(files[p], k) :: !readRaises(k)
    {
      digest, size := Digest([]), 0;
      if openRaises {
        return false, digest, size;
      }
      var k: nat := 0;
      while true
        invariant size == ReadSoFar(files[p], k) && digest == Digest(files[p][..size])
        invariant IsRead(files[p], k) && forall m: nat | m < k :: !readRaises(m)
        decreases |files[p]| - size
      {
        var readOk, chunk := ReadChunk(p, size, readRaises(k));
        if !readOk {
          return false, digest, size;
        }
        if chunk == [] {
          break;
        }
        NextChunk(files[p], size);
        digest := digest.Update(chunk);
        size := size + |chunk|;
        k := k + 1;
      }
      ok := true;
    }
  }

  /** The chunk with this number is asked for: the first, and any behind one that was not empty. */
  ghost predicate IsRead(content: Content, k: nat) {
    k == 0 || (k - 1) * CHUNK_SIZE < |content|
  }

  /** The chunk with this number is not empty. */
  ghost predicate IsWritten(content: Content, k: nat) {
    k * CHUNK_SIZE < |content|
  }

  /** How many bytes the chunks before this one hold. */
  function ReadSoFar(content: Content, k: nat): nat {
    if k * CHUNK_SIZE <= |content| then k * CHUNK_SIZE else |content|
  }

  lemma NextChunk(content: Content, offset: nat)
    requires offset <= |content|
    ensures ChunkAt(content, offset) == [] <==> offset == |content|
    ensures var after := offset + |ChunkAt(content, offset)|;
            after <= |content| && content[..after] == content[..offset] + ChunkAt(content, offset)
  {
  }

  datatype CopyResult =
    | DeliveredCopy(checksum: Digest, bytesWritten: nat)
    | FailedCopy(code: ErrorCode, retryable: bool, bytesWritten: nat)
    | RaisedCopy

  function Held(files: Files, p: Path): Option<Content> {
    if p in files then Some(files[p]) else None
  }

  /** In every recorded state from `from` on, the path holds its old content or the complete new one. */
  ghost predicate NeverPartial(log: seq<Files>, from: nat, p: Path, before: Option<Content>, after: Content) {
    forall i | from <= i < |log| :: Held(log[i], p) == before || Held(log[i], p) == Some(after)
  }

  /** Apart from `temporary` the files are the same. */
  ghost predicate SameBut(a: Files, b: Files, temporary: Path) {
    forall p | p != temporary :: Held(a, p) == Held(b, p)
  }

  /** What the storage made of chunk `k`. */
  function KeptOf(content: Content, f: Faults, k: nat): Content {
    match f.write(k)
    case Stored => ChunkAt(content, ReadSoFar(content, k))
    case WriteRaises(kept) => kept
    case Corrupted(kept) => kept
  }

  /** What the storage made of the first `k` chunks. */
  function Kept(content: Content, f: Faults, k: nat): Content {
    if k == 0 then [] else Kept(content, f, k - 1) + KeptOf(content, f, k - 1)
  }

  lemma NextRead(content: Content, k: nat)
    ensures ReadSoFar(content, k + 1) == ReadSoFar(content, k) + |ChunkAt(content, ReadSoFar(content, k))|
    ensures ChunkAt(content, ReadSoFar(content, k)) == [] <==> !IsWritten(content, k)
    ensures content[..ReadSoFar(content, k + 1)]
            == content[..ReadSoFar(content, k)] + ChunkAt(content, ReadSoFar(content, k))
  {
    NextChunk(content, ReadSoFar(content, k));
  }

  /** Storage that keeps what it is given keeps the content. */
  lemma {:induction false} KeptIsAll(content: Content, f: Faults, k: nat)
    requires forall m: nat :: f.write(m) == Stored
    ensures Kept(content, f, k) == content[..ReadSoFar(content, k)]
  {
    if k > 0 {
      KeptIsAll(content, f, k - 1);
      NextRead(content, k - 1);
    }
  }

  /** Reading the chunk or writing it raises. */
  ghost predicate StepFails(content: Content, f: Faults, k: nat) {
    IsRead(content, k) && (f.readRaises(k) || (IsWritten(content, k) && f.write(k).WriteRaises?))
  }

  ghost predicate FailsFirst(content: Content, f: Faults, k: nat) {
    StepFails(content, f, k) && forall m: nat | m < k :: !StepFails(content, f, m)
  }

  /** The failure of a step: of the source if its read raised, of the destination if its write did. */
  function StepFailure(content: Content, f: Faults, k: nat): CopyResult {
    FailedCopy(if f.readRaises(k) then SourceTransferFailed else DestinationNotWritable, true, ReadSoFar(content, k))
  }

  /** Chunk `k` is the empty one that ends the copy. */
  ghost predicate EndsAt(content: Content, k: nat) {
    IsRead(content, k) && !IsWritten(content, k)
  }

  /** One chunk: read, and unless it is empty, written. */
  method CopyChunk(fs: FileSystem, source: Path, temporary: Path, k: nat, f: Faults)
    returns (failure: Option<CopyResult>, chunk: Content)
    requires source in fs.files && temporary in fs.files && IsRead(fs.files[source], k)
    modifies fs`files, fs`log
    ensures temporary in fs.files && SameBut(fs.files, old(fs.files), temporary)
    ensures fs.log == old(fs.log) || fs.log == old(fs.log) + [fs.files]
    ensures var content := old(fs.files)[source];
            && (failure != None <==> StepFails(content, f, k))
            && (failure != None ==> failure == Some(StepFailure(content, f, k)))
            && (failure == None ==>
                  && chunk == ChunkAt(content, ReadSoFar(content, k))
                  && fs.files == if chunk == [] then old(fs.files)
                                 else old(fs.files)[temporary := old(fs.files)[temporary] + KeptOf(content, f, k)])
  {
    NextRead(fs.files[source], k);
    var readOk;
    readOk, chunk := fs.ReadChunk(source, ReadSoFar(fs.files[source], k), f.readRaises(k));
    if !readOk {
      return Some(FailedCopy(SourceTransferFailed, true, ReadSoFar(fs.files[source], k))), chunk;
    }
    failure := None;
    if chunk != [] {
      ghost var content := fs.files[source];
      var size := ReadSoFar(fs.files[source], k);
      var writeOk := fs.Append(temporary, chunk, f.write(k));
      if !writeOk {
        failure := Some(FailedCopy(DestinationNotWritable, true, size));
      }
    }
  }

  /** The copy loop: what was read, byte for byte, as its digest and length; or the first step's failure. */
  method CopyChunks(fs: FileSystem, source: Path, temporary: Path, f: Faults)
    returns (failure: Option<CopyResult>, digest: Digest, bytesWritten: nat)
    requires source in fs.files && temporary in fs.files && (source == temporary ==> fs.files[source] == [])
    modifies fs`files, fs`log
    ensures |fs.log| >= |old(fs.log)| && fs.log[..|old(fs.log)|] == old(fs.log)
    ensures forall i | |old(fs.log)| <= i < |fs.log| :: SameBut(fs.log[i], old(fs.files), temporary)
    ensures SameBut(fs.files, old(fs.files), temporary) && temporary in fs.files
    ensures failure.Some? ==>
              exists k: nat :: FailsFirst(old(fs.files)[source], f, k)
                               && failure == Some(StepFailure(old(fs.files)[source], f, k))
    ensures failure.None? ==>
              && digest == Digest(old(fs.files)[source]) && bytesWritten == |old(fs.files)[source]|
              && exists k: nat :: CopiedUntil(old(fs.files)[source], f, k)
                   && fs.files[temporary] == old(fs.files)[temporary] + Kept(old(fs.files)[source], f, k)
  {
    ghost var content := fs.files[source];
    bytesWritten, digest, failure := 0, Digest([]), None;
    var k: nat := 0;
    while true
      invariant source in fs.files && fs.files[source] == content && temporary in fs.files
      invariant SameBut(fs.files, old(fs.files), temporary)
      invariant bytesWritten == ReadSoFar(content, k) && digest == Digest(content[..bytesWritten])
      invariant IsRead(content, k) && forall m: nat | m < k :: !StepFails(content, f, m)
      invariant fs.files[temporary] == old(fs.files)[temporary] + Kept(content, f, k)
      invariant |fs.log| >= |old(fs.log)| && fs.log[..|old(fs.log)|] == old(fs.log)
      invariant forall i | |old(fs.log)| <= i < |fs.log| :: SameBut(fs.log[i], old(fs.files), temporary)
      decreases |content| - bytesWritten
    {
      NextRead(content, k);
      var chunk;
      failure, chunk := CopyChunk(fs, source, temporary, k, f);
      if failure.Some? {
        assert FailsFirst(content, f, k);
        return;
      }
      if chunk == [] {
        assert CopiedUntil(content, f, k);
        break;
      }
      assert Held(old(fs.files), source) == Held(fs.files, source);
      digest := digest.Update(chunk);
      bytesWritten := bytesWritten + |chunk|;
      k := k + 1;
    }
  }

  /** No step fails up to the empty chunk `k`, which ends the copy. */
  ghost predicate CopiedUntil(content: Content, f: Faults, k: nat) {
    EndsAt(content, k) && forall m: nat | m <= k :: !StepFails(content, f, m)
  }

  /** Where the copy goes and what the path policy says about both ends. */
  datatype Request = Request(source: Path, root: Directory, finalized: Path, sourceGreen: bool, destinationGreen: bool)

  /** How the check and the rename of a staged file end. */
  ghost predicate Finalizes(staged: Content, digest: Digest, bytesWritten: nat, f: Faults, r: CopyResult) {
    if f.openCheckRaises || exists k: nat :: IsRead(staged, k) && f.checkRaises(k) then
      r == FailedCopy(SourceTransferFailed, true, bytesWritten)
    else if |staged| != bytesWritten || Digest(staged) != digest then r == FailedCopy(FinalizeFailed, true, |staged|)
    else
      match f.rename
      case Renamed => r == DeliveredCopy(digest, bytesWritten)
      case CrossDevice => r == FailedCopy(FinalizeUnsupported, false, bytesWritten)
      case RenameRaises => r == FailedCopy(FinalizeFailed, true, bytesWritten)
  }

  /** Reading back the temporary file, and the rename. */
  method VerifyAndFinalize(fs: FileSystem, temporary: Path, finalized: Path, digest: Digest, bytesWritten: nat,
                           f: Faults)
    returns (r: CopyResult)
    requires temporary in fs.files && temporary != finalized
    modifies fs`files, fs`log
    ensures Finalizes(old(fs.files)[temporary], digest, bytesWritten, f, r)
    ensures r.DeliveredCopy? ==>
              && digest == Digest(old(fs.files)[temporary]) && r.checksum == digest && r.bytesWritten == bytesWritten
              && fs.files == old(fs.files)[finalized := old(fs.files)[temporary]] - {temporary}
              && fs.log == old(fs.log) + [fs.files]
    ensures !r.DeliveredCopy? ==> fs.files == old(fs.files) && fs.log == old(fs.log)
  {
    var ok, verified, size := fs.ComputeSha256AndSize(temporary, f.openCheckRaises, f.checkRaises);
    if !ok {
      return FailedCopy(SourceTransferFailed, true, bytesWritten);
    }
    if size != bytesWritten || verified != digest {
      return FailedCopy(FinalizeFailed, true, size);
    }
    var renamed := fs.Replace(temporary, finalized, f.rename);
    if !renamed {
      return if f.rename == CrossDevice then FailedCopy(FinalizeUnsupported, false, size)
             else FailedCopy(FinalizeFailed, true, size);
    }
    r := DeliveredCopy(verified, size);
  }

  /** The final path can be written: its directories, the source handle and the emptied temporary file. */
  method OpenBoth(fs: FileSystem, request: Request, f: Faults) returns (failure: Option<CopyResult>)
    requires request.source in fs.files
    modifies fs
    ensures failure == if f.mkdirRaises then Some(FailedCopy(DestinationNotWritable, true, 0))
                       else if f.openSourceRaises then Some(FailedCopy(SourceTransferFailed, true, 0))
                       else if f.openTemporaryRaises then Some(FailedCopy(DestinationNotWritable, true, 0))
                       else None
    ensures fs.directories == old(fs.directories) + if f.mkdirRaises then {} else {request.finalized.parent}
    ensures failure.Some? ==> fs.files == old(fs.files) && fs.log == old(fs.log)
    ensures failure.None? ==>
            fs.files == old(fs.files)[TemporaryFor(request.finalized) := []] && fs.log == old(fs.log) + [fs.files]
  {
    var made := fs.MakeDirectory(request.finalized.parent, f.mkdirRaises);
    if !made {
      return Some(FailedCopy(DestinationNotWritable, true, 0));
    }
    if f.openSourceRaises {
      return Some(FailedCopy(SourceTransferFailed, true, 0));
    }
    var writable := fs.OpenForWriting(TemporaryFor(request.finalized), f.openTemporaryRaises);
    if !writable {
      return Some(FailedCopy(DestinationNotWritable, true, 0));
    }
    failure := None;
  }

  /**
   How a copy ends whose files are open: by closing them in vain, by the first step that fails, or by what the check and
   the rename make of what was kept.
   */
  ghost predicate CopyEnds(content: Content, f: Faults, r: CopyResult) {
    if f.closeRaises then r == RaisedCopy
    else
      || (exists k: nat :: FailsFirst(content, f, k) && r == StepFailure(content, f, k))
      || (exists k: nat :: CopiedUntil(content, f, k)
                           && Finalizes(Kept(content, f, k), Digest(content), |content|, f, r))
  }

  lemma FaultlessDelivers(content: Content, f: Faults, r: CopyResult)
    requires Faultless(f) && CopyEnds(content, f, r)
    ensures r == DeliveredCopy(Digest(content), |content|)
  {
    forall k: nat ensures !StepFails(content, f, k) {
    }
    var k: nat :| CopiedUntil(content, f, k) && Finalizes(Kept(content, f, k), Digest(content), |content|, f, r);
    KeptIsAll(content, f, k);
  }

  lemma EndsAreReported(content: Content, f: Faults, r: CopyResult)
    requires CopyEnds(content, f, r)
    ensures r.FailedCopy? ==> CopyReports(r.code, r.retryable)
    ensures r.DeliveredCopy? ==> r == DeliveredCopy(Digest(content), |content|)
  {
  }

  /** The part of a copy after the files are open. */
  method CopyOpened(fs: FileSystem, source: Path, finalized: Path, f: Faults) returns (r: CopyResult)
    requires source in fs.files && TemporaryFor(finalized) in fs.files && fs.files[TemporaryFor(finalized)] == []
    modifies fs`files, fs`log
    ensures CopyEnds(old(fs.files)[source], f, r)
    ensures var temporary := TemporaryFor(finalized);
            && (!r.DeliveredCopy? ==> SameBut(fs.files, old(fs.files), temporary))
            && (r.DeliveredCopy? ==>
                  && finalized in fs.files && temporary !in fs.files && fs.files[finalized] == old(fs.files)[source]
                  && SameBut(fs.files, old(fs.files)[finalized := old(fs.files)[source]], temporary))
    ensures |fs.log| >= |old(fs.log)| && fs.log[..|old(fs.log)|] == old(fs.log)
    ensures NeverPartial(fs.log, |old(fs.log)|, finalized, Held(old(fs.files), finalized), old(fs.files)[source])
  {
    var temporary := TemporaryFor(finalized);
    TemporaryIsAnotherFile(finalized);
    ghost var content := fs.files[source];
    var failure, digest, bytesWritten := CopyChunks(fs, source, temporary, f);
    ghost var staged := fs.files;
    if f.closeRaises {
      return RaisedCopy;
    }
    if failure.Some? {
      return failure.value;
    }
    r := VerifyAndFinalize(fs, temporary, finalized, digest, bytesWritten, f);
    if r.DeliveredCopy? {
      forall p | p != temporary ensures Held(fs.files, p) == Held(old(fs.files)[finalized := content], p) {
        assert Held(staged, p) == Held(old(fs.files), p);
      }
    }
  }

  /**
   What a copy does to the files. For a source that is not the temporary file itself: a delivered copy is the whole
   source, byte for byte, and says so truthfully; in no state does the final path hold a part of it; and a copy that
   was not delivered changes no file but the temporary one. A source that is the temporary file is emptied when that
   file is opened, and is then "delivered" as nothing.
   */
  ghost predicate CopyKeeps(request: Request, before: Files, after: Files, log: seq<Files>, from: nat, r: CopyResult) {
    var source, finalized, temporary := request.source, request.finalized, TemporaryFor(request.finalized);
    if source == temporary then
      r.DeliveredCopy? ==> r.bytesWritten == 0 && Held(after, finalized) == Some([]) && source !in after
    else
      && (r.DeliveredCopy? ==>
            && source in before && r == DeliveredCopy(Digest(before[source]), |before[source]|)
            && finalized in after && after[finalized] == before[source] && temporary !in after
            && SameBut(after, before[finalized := before[source]], temporary))
      && (!r.DeliveredCopy? ==> SameBut(after, before, temporary))
      && Held(after, source) == Held(before, source)
      && (source in before ==> NeverPartial(log, from, finalized, Held(before, finalized), before[source]))
  }

  /** The part of a copy that is allowed and has a source and a destination. */
  method CopyAllowed(fs: FileSystem, request: Request, f: Faults) returns (r: CopyResult)
    requires request.source in fs.files
    modifies fs
    ensures |fs.log| >= |old(fs.log)| && CopyKeeps(request, old(fs.files), fs.files, fs.log, |old(fs.log)|, r)
    ensures if f.mkdirRaises then r == FailedCopy(DestinationNotWritable, true, 0)
            else if f.openSourceRaises then r == FailedCopy(SourceTransferFailed, true, 0)
            else if f.openTemporaryRaises then r == FailedCopy(DestinationNotWritable, true, 0)
            else if request.source == TemporaryFor(request.finalized) then CopyEnds([], f, r)
            else CopyEnds(old(fs.files)[request.source], f, r)
    ensures r.FailedCopy? ==> CopyReports(r.code, r.retryable)
    ensures Faultless(f) ==> r.DeliveredCopy?
  {
    TemporaryIsAnotherFile(request.finalized);
    var refused := OpenBoth(fs, request, f);
    if refused.Some? {
      return refused.value;
    }
    ghost var content := fs.files[request.source];
    r := CopyOpened(fs, request.source, request.finalized, f);
    assert (r.FailedCopy? ==> CopyReports(r.code, r.retryable)) && (Faultless(f) ==> r.DeliveredCopy?) by {
      EndsAreReported(content, f, r);
      if Faultless(f) {
        FaultlessDelivers(content, f, r);
      }
    }
    EmptiedIsSame(old(fs.files), fs.files, content, request.source, request.finalized, r.DeliveredCopy?);
  }

  /**
   `copy_output_to_destination`. The path policy, the source and the destination are asked in this order before anything
   is opened; then what fails first decides the answer.
   */
  method CopyOutput(fs: FileSystem, request: Request, f: Faults) returns (r: CopyResult)
    modifies fs
    ensures |fs.log| >= |old(fs.log)| && CopyKeeps(request, old(fs.files), fs.files, fs.log, |old(fs.log)|, r)
    ensures if !request.sourceGreen then r == FailedCopy(SourceTransferFailed, true, 0)
            else if !request.destinationGreen then r == FailedCopy(DestinationNotAllowlisted, false, 0)
            else if request.source !in old(fs.files) then r == FailedCopy(SourceTransferFailed, true, 0)
            else if request.root !in old(fs.directories) then r == FailedCopy(DestinationNotFound, true, 0)
            else if f.mkdirRaises then r == FailedCopy(DestinationNotWritable, true, 0)
            else if f.openSourceRaises then r == FailedCopy(SourceTransferFailed, true, 0)
            else if f.openTemporaryRaises then r == FailedCopy(DestinationNotWritable, true, 0)
            else if request.source == TemporaryFor(request.finalized) then CopyEnds([], f, r)
            else CopyEnds(old(fs.files)[request.source], f, r)
    ensures r.FailedCopy? ==> CopyReports(r.code, r.retryable)
    ensures r == RaisedCopy ==> f.closeRaises
    ensures (&& Faultless(f) && request.sourceGreen && request.destinationGreen
             && request.source in old(fs.files) && request.root in old(fs.directories)) ==> r.DeliveredCopy?
  {
    if !request.sourceGreen {
      return FailedCopy(SourceTransferFailed, true, 0);
    }
    if !request.destinationGreen {
      return FailedCopy(DestinationNotAllowlisted, false, 0);
    }
    if request.source !in fs.files {
      return FailedCopy(SourceTransferFailed, true, 0);
    }
    if request.root !in fs.directories {
      return FailedCopy(DestinationNotFound, true, 0);
    }
    r := CopyAllowed(fs, request, f);
  }

  /** What changed since the temporary file was emptied has changed since before. */
  lemma EmptiedIsSame(before: Files, after: Files, content: Content, source: Path, finalized: Path, delivered: bool)
    requires var temporary := TemporaryFor(finalized);
             var emptied := before[temporary := []];
             SameBut(after, if delivered then emptied[finalized := content] else emptied, temporary)
    ensures SameBut(after, if delivered then before[finalized := content] else before, TemporaryFor(finalized))
    ensures source != TemporaryFor(finalized) && source in before && content == before[source] ==>
              Held(after, source) == Held(before, source)
  {
    var temporary := TemporaryFor(finalized);
    forall p | p != temporary
      ensures Held(after, p) == Held(if delivered then before[finalized := content] else before, p)
    {
      assert Held(after, p)
          == Held(if delivered then before[temporary := []][finalized := content] else before[temporary := []], p);
    }
  }
}
