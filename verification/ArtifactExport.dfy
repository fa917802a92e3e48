/** Verified export: read an artifact in chunks, check every digest, and install the file under its name. */
module ArtifactExport {
  import opened Base
  import opened Framing
  import opened Storage

  /** The digest of bytes, as the text the server states it in. */
  type Digest = Bytes -> string

  datatype Response =
    | Unanswered
    | Chunk(bytes: Bytes, eof: bool, digest: string, nextOffset: u64)

  /** What the `i`th pass of the read loop meets: the response, and whether the write goes through. */
  datatype Pass = Pass(response: Response, writes: bool, partial: nat)

  type Server = nat -> Pass

  datatype ExportError = NoProgress | ChunkMismatch | OffsetOverflow | OffsetMismatch | SizeMismatch | DigestMismatch
    | RemoteFailure | IoFailure | WrongReference

  /** The chunks of the first `k` responses, in order. */
  ghost function Received(server: Server, k: nat): Bytes {
    if k == 0 then []
    else Received(server, k - 1) + if server(k - 1).response.Chunk? then server(k - 1).response.bytes else []
  }

  /** The `i`th response is a chunk that makes progress or ends the file, with its digest and the right next offset. */
  ghost predicate GoodResponse(sha: Digest, server: Server, i: nat) {
    var response := server(i).response;
    && response.Chunk?
    && (response.bytes != [] || response.eof)
    && sha(response.bytes) == response.digest
    && response.nextOffset == |Received(server, i)| + |response.bytes|
  }

  ghost predicate GoodPass(sha: Digest, server: Server, i: nat) {
    GoodResponse(sha, server, i) && server(i).writes
  }

  ghost predicate Ends(server: Server, i: nat) {
    server(i).response.Chunk? && server(i).response.eof
  }

  /** The stream is good and ends with the `k`th response. */
  ghost predicate Complete(sha: Digest, server: Server, k: nat) {
    k > 0 && forall i :: 0 <= i < k ==> GoodPass(sha, server, i) && (Ends(server, i) <==> i == k - 1)
  }

  ghost predicate Expected(sha: Digest, size: u64, digest: string, bytes: Bytes) {
    |bytes| == size && sha(bytes) == digest
  }

  /** The reads yield the expected artifact. */
  ghost predicate Yields(sha: Digest, server: Server, size: u64, digest: string, k: nat) {
    Complete(sha, server, k) && Expected(sha, size, digest, Received(server, k))
  }

  /** Where a complete stream ends is determined by the responses. */
  lemma {:induction false} CompleteOnce(sha: Digest, server: Server, j: nat, k: nat)
    requires Complete(sha, server, j) && Complete(sha, server, k)
    ensures j == k
  {
    assert Ends(server, j - 1) && Ends(server, k - 1);
  }

  lemma {:induction false} CompleteReaches(sha: Digest, server: Server, k: nat, i: nat)
    requires Complete(sha, server, k) && forall j :: 0 <= j < i ==> !Ends(server, j)
    ensures i < k
  {
    assert Ends(server, k - 1);
  }

  /** A bad pass before the end of the file rules out a complete stream. */
  lemma {:induction false} NotComplete(sha: Digest, server: Server, i: nat)
    requires !GoodPass(sha, server, i) && forall j :: 0 <= j < i ==> !Ends(server, j)
    ensures !exists k: nat :: Complete(sha, server, k)
  {
    forall k: nat ensures !Complete(sha, server, k) {
      if Complete(sha, server, k) {
        CompleteReaches(sha, server, k, i);
      }
    }
  }

  /** What is wrong with the `i`th response: each answer names a fault no other answer names. */
  ghost predicate Wrong(sha: Digest, server: Server, i: nat, e: ExportError) {
    var response := server(i).response;
    match e
    case RemoteFailure => response.Unanswered?
    case NoProgress => response.Chunk? && response.bytes == [] && !response.eof
    case ChunkMismatch =>
      response.Chunk? && (response.bytes != [] || response.eof) && sha(response.bytes) != response.digest
    case OffsetOverflow => Sound(sha, response) && |Received(server, i)| + |response.bytes| > U64_MAX
    case OffsetMismatch =>
      && Sound(sha, response) && |Received(server, i)| + |response.bytes| <= U64_MAX
      && response.nextOffset != |Received(server, i)| + |response.bytes|
    case _ => false
  }

  ghost predicate Sound(sha: Digest, response: Response) {
    response.Chunk? && (response.bytes != [] || response.eof) && sha(response.bytes) == response.digest
  }

  lemma {:induction false} WrongOneWay(sha: Digest, server: Server, i: nat, e: ExportError, f: ExportError)
    requires Wrong(sha, server, i, e)
    ensures !GoodResponse(sha, server, i) && (Wrong(sha, server, i, f) ==> e == f)
  {
  }

  /** The passes before `k` are good and do not end the file, and the one at `k` fails for this reason. */
  ghost predicate FailsAt(sha: Digest, server: Server, k: nat, e: ExportError) {
    && (forall j :: 0 <= j < k ==> GoodPass(sha, server, j) && !Ends(server, j))
    && (Wrong(sha, server, k, e) || (GoodResponse(sha, server, k) && !server(k).writes && e == IoFailure))
  }

  /** What a failing pass leaves in the file: the chunks before it, and what got out of a write that failed. */
  ghost function LeftBehind(sha: Digest, server: Server, k: nat): Bytes {
    Received(server, k) + if GoodResponse(sha, server, k) then Cut(server(k).response.bytes, server(k).partial) else []
  }

  function Cut(bytes: Bytes, n: nat): Bytes {
    if n <= |bytes| then bytes[..n] else bytes
  }

  /** What happens on the disk besides the writes of the loop. */
  datatype Faults = Faults(create: bool, sync: bool, install: bool, unlink: bool, cleanup: bool)

  /** The checks on the `i`th response. */
  method CheckResponse(sha: Digest, server: Server, i: nat, offset: u64) returns (r: Result<Bytes, ExportError>)
    requires offset == |Received(server, i)|
    ensures r.Ok? <==> GoodResponse(sha, server, i)
    ensures r.Err? ==> Wrong(sha, server, i, r.error)
    ensures r.Ok? ==> r.value == server(i).response.bytes && offset + |r.value| <= U64_MAX
  {
    var response := server(i).response;
    if response.Unanswered? {
      return Err(RemoteFailure);
    }
    if response.bytes == [] && !response.eof {
      return Err(NoProgress);
    }
    if sha(response.bytes) != response.digest {
      return Err(ChunkMismatch);
    }
    if offset + |response.bytes| > U64_MAX {
      return Err(OffsetOverflow);
    }
    if response.nextOffset != offset + |response.bytes| {
      return Err(OffsetMismatch);
    }
    return Ok(response.bytes);
  }

  /** The loop has received `i` good chunks and written them to the temporary file. */
  ghost predicate WrittenUpTo(sha: Digest, server: Server, i: nat, temporary: string, dir: Directory, offset: int) {
    && (forall j :: 0 <= j < i ==> GoodPass(sha, server, j) && !Ends(server, j))
    && temporary in Visible(dir) && Visible(dir)[temporary].bytes == Received(server, i)
    && offset == |Received(server, i)|
  }

  /**
   * The read loop. It terminates against any server, because a pass that goes on has moved the offset
   * and the offset is a `u64`; it stops at the end of the file or at the first bad pass.
   */
  method ReceiveChunks(sha: Digest, server: Server, temporary: string, dir: Directory, ghost destination: string)
    returns (r: Result<u64, ExportError>, dir': Directory, ghost trace: seq<Directory>, ghost k: nat)
    requires temporary in Visible(dir) && Visible(dir)[temporary].bytes == [] && destination != temporary
    ensures r.Ok? <==> exists n: nat :: Complete(sha, server, n)
    ensures r.Ok? ==> Complete(sha, server, k) && r.value == |Received(server, k)|
    ensures r.Err? ==> FailsAt(sha, server, k, r.error)
    ensures temporary in Visible(dir')
    ensures Visible(dir')[temporary].bytes == if r.Ok? then Received(server, k) else LeftBehind(sha, server, k)
    ensures Keeps(dir, dir', destination) && AllKeep(dir, trace, destination)
    ensures Leads(temporary, destination, dir, trace, dir')
  {
    dir', trace := dir, [];
    var offset: u64 := 0;
    var i := 0;
    while true
      invariant 0 <= i && WrittenUpTo(sha, server, i, temporary, dir', offset)
      invariant Keeps(dir, dir', destination) && AllKeep(dir, trace, destination)
      invariant Leads(temporary, destination, dir, trace, dir')
      decreases U64_MAX - offset
    {
      var checked := CheckResponse(sha, server, i, offset);
      if checked.Err? {
        NotComplete(sha, server, i);
        return Err(checked.error), dir', trace, i;
      }
      var bytes := checked.value;
      if !server(i).writes {
        NotComplete(sha, server, i);
        dir', trace := AppendStep(temporary, destination, dir, trace, dir', Cut(bytes, server(i).partial));
        return Err(IoFailure), dir', trace, i;
      }
      dir', trace := AppendStep(temporary, destination, dir, trace, dir', bytes);
      offset, i := offset + |bytes|, i + 1;
      if server(i - 1).response.eof {
        assert Complete(sha, server, i);
        return Ok(offset), dir', trace, i;
      }
    }
  }

  /** One write to the temporary file. */
  method AppendStep(temporary: string, ghost destination: string, ghost start: Directory, ghost before: seq<Directory>,
                    d: Directory, bytes: Bytes)
    returns (d': Directory, ghost trace: seq<Directory>)
    requires temporary in Visible(d) && destination != temporary
    requires Keeps(start, d, destination) && AllKeep(start, before, destination)
    requires Leads(temporary, destination, start, before, d)
    ensures temporary in Visible(d') && Visible(d')[temporary].bytes == Visible(d)[temporary].bytes + bytes
    ensures Keeps(start, d', destination) && AllKeep(start, trace, destination)
    ensures Leads(temporary, destination, start, trace, d')
  {
    d' := Append(d, temporary, bytes);
    trace := before + [d'];
    AppendKeepsOther(start, d, temporary, bytes, destination);
    assert Wrote(temporary, d, d');
    LeadsOn(temporary, destination, start, before, d, d');
  }

  /** Why nothing verified was written. */
  ghost predicate WriteFails(sha: Digest, server: Server, size: u64, digest: string, temporary: string, d: Directory,
                             faults: Faults, k: nat, e: ExportError) {
    if faults.create || temporary in Visible(d) then e == IoFailure
    else
      || FailsAt(sha, server, k, e)
      || (Complete(sha, server, k) && |Received(server, k)| != size && e == SizeMismatch)
      || (Complete(sha, server, k) && |Received(server, k)| == size && sha(Received(server, k)) != digest
          && e == DigestMismatch)
      || (Yields(sha, server, size, digest, k) && faults.sync && e == IoFailure)
  }

  /**
   * `write_verified_artifact`: succeeds exactly when the responses are the expected artifact and nothing
   * fails locally; the temporary file then holds that artifact, synced.
   */
  method WriteVerified(sha: Digest, server: Server, size: u64, digest: string, temporary: string,
                       dir: Directory, faults: Faults, ghost destination: string)
    returns (r: Result<(), ExportError>, dir': Directory, ghost trace: seq<Directory>, ghost k: nat)
    requires destination != temporary
    ensures r.Ok? <==>
              && temporary !in Visible(dir) && !faults.create && !faults.sync
              && exists n: nat :: Yields(sha, server, size, digest, n)
    ensures r.Ok? ==> Yields(sha, server, size, digest, k)
    ensures r.Ok? ==> temporary in Visible(dir') && Visible(dir')[temporary] == File(Received(server, k), true)
    ensures r.Err? ==> WriteFails(sha, server, size, digest, temporary, dir, faults, k, r.error)
    ensures r.Err? ==> (temporary in Visible(dir') <==> temporary in Visible(dir) || !faults.create)
    ensures Keeps(dir, dir', destination) && AllKeep(dir, trace, destination)
    ensures Leads(temporary, destination, dir, trace, dir')
  {
    dir', trace, k := dir, [], 0;
    if faults.create || temporary in Visible(dir) {
      return Err(IoFailure), dir', trace, k;
    }
    CreateKeepsOther(dir, dir, temporary, destination);
    var created := Create(dir, temporary);
    var received;
    received, dir', trace, k := ReceiveChunks(sha, server, temporary, created, destination);
    LeadsFirst(temporary, destination, dir, created, trace, dir');
    trace := [created] + trace;
    if received.Err? {
      return Err(received.error), dir', trace, k;
    }
    r, dir', trace :=
      CheckAndSync(sha, server, received.value, size, digest, temporary, dir, dir', faults, destination, trace, k);
  }

  /** The checks on the whole file, and its sync. */
  method CheckAndSync(sha: Digest, ghost server: Server, offset: u64, size: u64, digest: string, temporary: string,
                      ghost start: Directory, d: Directory, faults: Faults, ghost destination: string,
                      ghost before: seq<Directory>, ghost k: nat)
    returns (r: Result<(), ExportError>, d': Directory, ghost trace: seq<Directory>)
    requires destination != temporary && Complete(sha, server, k) && offset == |Received(server, k)|
    requires temporary in Visible(d) && Visible(d)[temporary].bytes == Received(server, k)
    requires Keeps(start, d, destination) && AllKeep(start, before, destination)
    requires Leads(temporary, destination, start, before, d)
    ensures r.Ok? <==> !faults.sync && exists n: nat :: Yields(sha, server, size, digest, n)
    ensures temporary in Visible(d')
    ensures r.Ok? ==> Yields(sha, server, size, digest, k) && Visible(d')[temporary] == File(Received(server, k), true)
    ensures r.Err? ==>
              || (|Received(server, k)| != size && r.error == SizeMismatch)
              || (|Received(server, k)| == size && sha(Received(server, k)) != digest && r.error == DigestMismatch)
              || (Yields(sha, server, size, digest, k) && faults.sync && r.error == IoFailure)
    ensures Keeps(start, d', destination) && AllKeep(start, trace, destination)
    ensures Leads(temporary, destination, start, trace, d')
  {
    forall n: nat | Complete(sha, server, n) ensures n == k { CompleteOnce(sha, server, k, n); }
    d', trace := d, before;
    if offset != size {
      return Err(SizeMismatch), d', trace;
    }
    if sha(Visible(d)[temporary].bytes) != digest {
      return Err(DigestMismatch), d', trace;
    }
    assert Yields(sha, server, size, digest, k);
    if faults.sync {
      return Err(IoFailure), d', trace;
    }
    AppendKeepsOther(start, d, temporary, [], destination);
    LeadsOn(temporary, destination, start, before, d, SyncFile(d, temporary));
    d' := SyncFile(d, temporary);
    trace := before + [d'];
    r := Ok(());
  }

  // ---------------------------------------------------------- one operation at a time

  ghost predicate Wrote(temporary: string, d: Directory, d': Directory) {
    temporary in Visible(d) && exists bytes :: d' == Append(d, temporary, bytes)
  }

  /** A single operation of the export on the disk. */
  ghost predicate IsStep(temporary: string, destination: string, d: Directory, d': Directory) {
    || (temporary !in Visible(d) && d' == Create(d, temporary))
    || Wrote(temporary, d, d')
    || (temporary in Visible(d) &&
        (d' == SyncFile(d, temporary) || d' == Remove(d, temporary) || d' == Rename(d, temporary, destination)
         || (destination !in Visible(d) && d' == HardLink(d, temporary, destination))))
  }

  type Steps = (Directory, Directory) -> bool

  ghost function StepsOf(temporary: string, destination: string): Steps {
    (d: Directory, d': Directory) => IsStep(temporary, destination, d, d')
  }

  /** The directories of `trace` follow one another by single operations, from `d` to `d'`: none is left out. */
  ghost predicate Leads(temporary: string, destination: string, d: Directory, trace: seq<Directory>, d': Directory) {
    LeadsBy(StepsOf(temporary, destination), d, trace, d')
  }

  ghost predicate LeadsBy(step: Steps, d: Directory, trace: seq<Directory>, d': Directory) {
    && d' == (if trace == [] then d else trace[|trace| - 1])
    && forall i :: 0 <= i < |trace| ==> StepAt(step, d, trace, i)
  }

  ghost predicate StepAt(step: Steps, d: Directory, trace: seq<Directory>, i: nat)
    requires i < |trace|
  {
    step(if i == 0 then d else trace[i - 1], trace[i])
  }

  lemma {:induction false} LeadsJoinBy(step: Steps, d: Directory, a: seq<Directory>, d': Directory, b: seq<Directory>,
                                       d'': Directory)
    requires LeadsBy(step, d, a, d') && LeadsBy(step, d', b, d'')
    ensures LeadsBy(step, d, a + b, d'')
  {
    var more := a + b;
    forall i | 0 <= i < |more| ensures StepAt(step, d, more, i) {
      assert i < |a| ==> StepAt(step, d, a, i);
      assert i >= |a| ==> StepAt(step, d', b, i - |a|);
    }
  }

  lemma {:induction false} LeadsOnce(step: Steps, d: Directory, d': Directory)
    requires step(d, d')
    ensures LeadsBy(step, d, [d'], d')
  {
  }

  lemma {:induction false} LeadsOn(temporary: string, destination: string, d: Directory, trace: seq<Directory>,
                                   d': Directory, d'': Directory)
    requires Leads(temporary, destination, d, trace, d') && IsStep(temporary, destination, d', d'')
    ensures Leads(temporary, destination, d, trace + [d''], d'')
  {
    LeadsOnce(StepsOf(temporary, destination), d', d'');
    LeadsJoinBy(StepsOf(temporary, destination), d, trace, d', [d''], d'');
  }

  lemma {:induction false} LeadsFirst(temporary: string, destination: string, d: Directory, d': Directory,
                                      trace: seq<Directory>, d'': Directory)
    requires IsStep(temporary, destination, d, d') && Leads(temporary, destination, d', trace, d'')
    ensures Leads(temporary, destination, d, [d'] + trace, d'')
  {
    LeadsOnce(StepsOf(temporary, destination), d, d');
    LeadsJoinBy(StepsOf(temporary, destination), d, [d'], d', trace, d'');
  }

  // -------------------------------------------------------------- what changes

  function Lookup(v: Listing, name: string): Option<File> {
    if name in v then Some(v[name]) else None
  }

  /** What `name` can turn out to hold: one entry per listing that could be visible. */
  ghost function Possible(d: Directory, name: string): set<Option<File>> {
    set i | 0 <= i < |d| :: Lookup(d[i], name)
  }

  /** The file under `name` is the one it was, now and in every listing that could come back. */
  ghost predicate Keeps(before: Directory, d: Directory, name: string) {
    Lookup(Visible(d), name) == Lookup(Visible(before), name) && Possible(d, name) <= Possible(before, name)
  }

  ghost predicate AllKeep(before: Directory, trace: seq<Directory>, name: string) {
    forall i :: 0 <= i < |trace| ==> Keeps(before, trace[i], name)
  }

  lemma {:induction false} AppendKeepsOther(before: Directory, d: Directory, temporary: string, bytes: Bytes,
                                            name: string)
    requires Keeps(before, d, name) && temporary in Visible(d) && name != temporary
    ensures Keeps(before, Append(d, temporary, bytes), name)
    ensures Keeps(before, SyncFile(d, temporary), name)
  {
  }

  lemma {:induction false} CreateKeepsOther(before: Directory, d: Directory, temporary: string, name: string)
    requires Keeps(before, d, name) && name != temporary
    ensures Keeps(before, Create(d, temporary), name)
    ensures Keeps(before, Remove(d, temporary), name)
  {
  }

  // ------------------------------------------------------------------ install

  datatype Reference = Reference(artifactId: string, digest: string, size: u64)

  ghost predicate Verified(sha: Digest, reference: Reference, f: Option<File>) {
    f.Some? && f.value.synced && Expected(sha, reference.size, reference.digest, f.value.bytes)
  }

  /** Wherever the destination is not what it was before, it holds the verified artifact. */
  ghost predicate Safe(sha: Digest, reference: Reference, before: Directory, d: Directory, destination: string) {
    && (Lookup(Visible(d), destination) == Lookup(Visible(before), destination)
        || Verified(sha, reference, Lookup(Visible(d), destination)))
    && forall f :: f in Possible(d, destination) ==> f in Possible(before, destination) || Verified(sha, reference, f)
  }

  lemma {:induction false} KeepingIsSafe(sha: Digest, reference: Reference, before: Directory, d: Directory,
                                         destination: string)
    requires Keeps(before, d, destination)
    ensures Safe(sha, reference, before, d, destination)
  {
  }

  lemma {:induction false} SafeThenKeeps(sha: Digest, reference: Reference, before: Directory, d: Directory,
                                         d': Directory, destination: string)
    requires Safe(sha, reference, before, d, destination) && Keeps(d, d', destination)
    ensures Safe(sha, reference, before, d', destination)
  {
  }

  lemma {:induction false} InstallIsSafe(sha: Digest, reference: Reference, before: Directory, d: Directory,
                                         temporary: string, destination: string)
    requires Keeps(before, d, destination) && temporary != destination && temporary in Visible(d)
    requires Verified(sha, reference, Some(Visible(d)[temporary]))
    ensures Safe(sha, reference, before, Rename(d, temporary, destination), destination)
    ensures destination !in Visible(d) ==>
              Safe(sha, reference, before, HardLink(d, temporary, destination), destination)
  {
  }

  /** The directories an installation passes through, none when it fails at once. */
  ghost predicate IsInstall(temporary: string, destination: string, overwrite: bool,
                            d: Directory, d': Directory, trace: seq<Directory>)
    requires temporary in Visible(d)
  {
    || (trace == [] && d' == d)
    || (overwrite && trace == [d'] && d' == Rename(d, temporary, destination))
    || (!overwrite && destination !in Visible(d) && trace == [d'] && d' == HardLink(d, temporary, destination))
    || (!overwrite && destination !in Visible(d) && trace == [HardLink(d, temporary, destination), d']
        && d' == Remove(HardLink(d, temporary, destination), temporary))
  }

  /** The failure that comes too late: the link is made and only the temporary name cannot be removed. */
  predicate LinkStays(destination: string, overwrite: bool, d: Directory, faults: Faults) {
    !overwrite && destination !in Visible(d) && !faults.install && faults.unlink
  }

  lemma {:induction false} InstallStepsAreSafe(sha: Digest, reference: Reference, before: Directory, d: Directory,
                                               d': Directory, temporary: string, destination: string, overwrite: bool,
                                               trace: seq<Directory>)
    requires Keeps(before, d, destination) && temporary != destination && temporary in Visible(d)
    requires Verified(sha, reference, Some(Visible(d)[temporary]))
    requires IsInstall(temporary, destination, overwrite, d, d', trace)
    ensures AllSafe(sha, reference, before, trace, destination) && Safe(sha, reference, before, d', destination)
  {
    KeepingIsSafe(sha, reference, before, d, destination);
    InstallIsSafe(sha, reference, before, d, temporary, destination);
    if |trace| == 2 {
      CreateKeepsOther(trace[0], trace[0], temporary, destination);
      SafeThenKeeps(sha, reference, before, trace[0], d', destination);
    }
  }

  lemma {:induction false} SafeConcat(sha: Digest, reference: Reference, before: Directory, a: seq<Directory>,
                                      b: seq<Directory>, destination: string)
    requires AllSafe(sha, reference, before, a, destination) && AllSafe(sha, reference, before, b, destination)
    ensures AllSafe(sha, reference, before, a + b, destination)
  {
  }

  lemma {:induction false} KeptTraceIsSafe(sha: Digest, reference: Reference, before: Directory, trace: seq<Directory>,
                                           destination: string)
    requires AllKeep(before, trace, destination)
    ensures AllSafe(sha, reference, before, trace, destination)
  {
  }

  /** `install_file`: rename over the destination, or link to a free name and drop the temporary one. */
  method InstallFile(temporary: string, destination: string, overwrite: bool, dir: Directory, faults: Faults)
    returns (r: Result<(), ExportError>, dir': Directory, ghost trace: seq<Directory>)
    requires temporary in Visible(dir) && temporary != destination
    ensures r.Ok? <==> !faults.install && (overwrite || (destination !in Visible(dir) && !faults.unlink))
    ensures r.Ok? ==>
              Lookup(Visible(dir'), destination) == Lookup(Visible(dir), temporary)
              && temporary !in Visible(dir')
    ensures IsInstall(temporary, destination, overwrite, dir, dir', trace)
    ensures Leads(temporary, destination, dir, trace, dir')
    ensures r.Err? ==> r.error == IoFailure && temporary in Visible(dir')
    ensures r.Err? ==> (trace != [] <==> LinkStays(destination, overwrite, dir, faults))
    ensures r.Err? && trace == [] ==> dir' == dir
    ensures r.Err? && trace != [] ==> Lookup(Visible(dir'), destination) == Lookup(Visible(dir), temporary)
  {
    if overwrite {
      if faults.install {
        return Err(IoFailure), dir, [];
      }
      dir' := Rename(dir, temporary, destination);
      LeadsFirst(temporary, destination, dir, dir', [], dir');
      return Ok(()), dir', [dir'];
    }
    if faults.install || destination in Visible(dir) {
      return Err(IoFailure), dir, [];
    }
    var linked := HardLink(dir, temporary, destination);
    LeadsFirst(temporary, destination, dir, linked, [], linked);
    if faults.unlink {
      return Err(IoFailure), linked, [linked];
    }
    dir' := Remove(linked, temporary);
    LeadsOn(temporary, destination, dir, [linked], linked, dir');
    assert [linked] + [dir'] == [linked, dir'];
    return Ok(()), dir', [linked, dir'];
  }

  /** The verified artifact gets written: the temporary name is free, the replies yield it and the file syncs. */
  ghost predicate Writes(sha: Digest, reference: Reference, server: Server, temporary: string, d: Directory,
                         faults: Faults) {
    && temporary !in Visible(d) && !faults.create && !faults.sync
    && exists n: nat :: Yields(sha, server, reference.size, reference.digest, n)
  }

  /** Writing and installing, before the clean-up of a failed export. */
  method WriteAndInstall(sha: Digest, reference: Reference, server: Server, temporary: string, destination: string,
                         overwrite: bool, dir: Directory, faults: Faults)
    returns (r: Result<(), ExportError>, dir': Directory, ghost trace: seq<Directory>, ghost k: nat)
    requires temporary != destination
    ensures AllSafe(sha, reference, dir, trace, destination) && Safe(sha, reference, dir, dir', destination)
    ensures !overwrite && destination in Visible(dir) ==>
              r.Err? && Keeps(dir, dir', destination) && AllKeep(dir, trace, destination)
    ensures r.Ok? ==>
              Lookup(Visible(dir'), destination) == Some(File(Received(server, k), true))
              && temporary !in Visible(dir')
    ensures r.Ok? ==> Yields(sha, server, reference.size, reference.digest, k)
    ensures r.Err? ==>
              (Lookup(Visible(dir'), destination) != Lookup(Visible(dir), destination) <==>
                 Writes(sha, reference, server, temporary, dir, faults)
                     && LinkStays(destination, overwrite, dir, faults))
    ensures r.Err? && Lookup(Visible(dir'), destination) == Lookup(Visible(dir), destination) ==>
              Keeps(dir, dir', destination)
    ensures r.Ok? <==>
              && Writes(sha, reference, server, temporary, dir, faults) && !faults.install
              && (overwrite || (destination !in Visible(dir) && !faults.unlink))
    ensures r.Err? ==>
              if Writes(sha, reference, server, temporary, dir, faults) then r.error == IoFailure
              else WriteFails(sha, server, reference.size, reference.digest, temporary, dir, faults, k, r.error)
    ensures r.Err? ==> (temporary in Visible(dir') <==> temporary in Visible(dir) || !faults.create)
    ensures Leads(temporary, destination, dir, trace, dir')
  {
    var written;
    written, dir', trace, k :=
      WriteVerified(sha, server, reference.size, reference.digest, temporary, dir, faults, destination);
    KeptTraceIsSafe(sha, reference, dir, trace, destination);
    KeepingIsSafe(sha, reference, dir, dir', destination);
    if written.Err? {
      return Err(written.error), dir', trace, k;
    }
    ghost var staged, steps := dir', [];
    r, dir', steps := InstallFile(temporary, destination, overwrite, dir', faults);
    InstallStepsAreSafe(sha, reference, dir, staged, dir', temporary, destination, overwrite, steps);
    SafeConcat(sha, reference, dir, trace, steps, destination);
    LeadsJoinBy(StepsOf(temporary, destination), dir, trace, staged, steps, dir');
    trace := trace + steps;
  }

  ghost predicate AllSafe(sha: Digest, reference: Reference, before: Directory, trace: seq<Directory>,
                          destination: string) {
    forall i :: 0 <= i < |trace| ==> Safe(sha, reference, before, trace[i], destination)
  }

  /**
   * `export_artifact`. At every intermediate point, and after any crash or power loss there, a
   * destination that changed holds the verified artifact; without `overwrite` an existing destination
   * never changes. A failed export leaves the destination alone, except that a link already made stays
   * when only the removal of the temporary name fails.
   */
  method ExportArtifact(sha: Digest, artifactId: string, answer: Option<Reference>, server: Server, temporary: string,
                        destination: string, overwrite: bool, dir: Directory, faults: Faults)
    returns (r: Result<(), ExportError>, dir': Directory, ghost trace: seq<Directory>, ghost k: nat)
    requires temporary != destination
    ensures answer.None? || answer.value.artifactId != artifactId ==> r.Err? && dir' == dir && trace == []
    ensures answer.Some? ==>
              AllSafe(sha, answer.value, dir, trace, destination) && Safe(sha, answer.value, dir, dir', destination)
    ensures !overwrite && destination in Visible(dir) ==>
              r.Err? && Keeps(dir, dir', destination) && AllKeep(dir, trace, destination)
    ensures r.Ok? ==> answer.Some? && Yields(sha, server, answer.value.size, answer.value.digest, k)
    ensures r.Ok? ==>
              Lookup(Visible(dir'), destination) == Some(File(Received(server, k), true))
              && temporary !in Visible(dir')
    ensures r.Err? ==>
              (Lookup(Visible(dir'), destination) != Lookup(Visible(dir), destination) <==>
                 answer.Some? && answer.value.artifactId == artifactId
                 && Writes(sha, answer.value, server, temporary, dir, faults)
                     && LinkStays(destination, overwrite, dir, faults))
    ensures r.Err? && Lookup(Visible(dir'), destination) == Lookup(Visible(dir), destination) ==>
              Keeps(dir, dir', destination)
    ensures r.Ok? <==>
              && answer.Some? && answer.value.artifactId == artifactId
              && Writes(sha, answer.value, server, temporary, dir, faults) && !faults.install
              && (overwrite || (destination !in Visible(dir) && !faults.unlink))
    ensures r.Err? ==>
              if answer.None? || answer.value.artifactId != artifactId then r.error == WrongReference
              else if Writes(sha, answer.value, server, temporary, dir, faults) then r.error == IoFailure
              else
                WriteFails(sha, server, answer.value.size, answer.value.digest, temporary, dir, faults, k, r.error)
    ensures r.Err? && r.error != WrongReference ==>
              (temporary in Visible(dir') <==> faults.cleanup && (temporary in Visible(dir) || !faults.create))
    ensures Leads(temporary, destination, dir, trace, dir')
  {
    if answer.None? || answer.value.artifactId != artifactId {
      if answer.Some? { KeepingIsSafe(sha, answer.value, dir, dir, destination); }
      return Err(WrongReference), dir, [], 0;
    }
    r, dir', trace, k := WriteAndInstall(sha, answer.value, server, temporary, destination, overwrite, dir, faults);
    if r.Err? && !faults.cleanup && temporary in Visible(dir') {
      LeadsOn(temporary, destination, dir, trace, dir', Remove(dir', temporary));
      CreateKeepsOther(dir', dir', temporary, destination);
      SafeThenKeeps(sha, answer.value, dir, dir', Remove(dir', temporary), destination);
      dir' := Remove(dir', temporary);
      trace := trace + [dir'];
    }
  }

  /** Such a failure exists for every artifact: one good reply, a free destination, and an unlink that fails. */
  lemma {:induction false} FailedExportCanInstall(sha: Digest, bytes: Bytes, temporary: string, destination: string)
    requires |bytes| <= U64_MAX && temporary != destination
    ensures var reference := Reference("artifact", sha(bytes), |bytes|);
            var server := (i: nat) => Pass(Chunk(bytes, true, sha(bytes), |bytes|), true, 0);
            var faults := Faults(false, false, false, true, false);
            && Writes(sha, reference, server, temporary, [map[]], faults)
            && LinkStays(destination, false, [map[]], faults)
  {
    var server := (i: nat) => Pass(Chunk(bytes, true, sha(bytes), |bytes|), true, 0);
    assert Received(server, 0) == [] && Received(server, 1) == [] + bytes == bytes;
    assert GoodPass(sha, server, 0) && Ends(server, 0);
    assert Yields(sha, server, |bytes|, sha(bytes), 1);
  }
}
