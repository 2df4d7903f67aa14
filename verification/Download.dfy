/** DownloadVerified: a size-capped download whose digest is checked, and which leaves a file behind
    only when both checks passed. */
module Download {
  import opened Wrappers
  import opened FileSystem
  import opened Verify
  import opened Int64

  datatype BodyEnd = Eof | Broken

  /** What the request comes to: no response, or a status and a body that arrives in chunks of any
      size and then ends or breaks off. */
  datatype Response = NoResponse | Response(status: int, chunks: seq<Bytes>, end: BodyEnd)

  function Flatten(chunks: seq<Bytes>): Bytes {
    if chunks == [] then [] else Flatten(chunks[..|chunks| - 1]) + chunks[|chunks| - 1]
  }

  function Body(response: Response): Bytes {
    if response.Response? then Flatten(response.chunks) else []
  }

  datatype Params = Params(sha256: string, maxBytes: Int64, pattern: Pattern)

  datatype DownloadError =
    Unreachable | BadStatus | NoTempFile | CopyFailed | CloseFailed | TooLarge | RereadFailed | DigestMismatch

  function Min(a: int, b: int): int {
    if a < b then a else b
  }

  function Max(a: int, b: int): int {
    if a < b then b else a
  }

  /** How many bytes io.LimitReader lets through at most. */
  function Limit(maxBytes: Int64): int {
    Max(0, Wrap64(maxBytes + 1))
  }

  /** A download that is worth keeping. */
  predicate Good(sha: Bytes -> Digest, response: Response, p: Params) {
    && response.Response? && response.status == 200 && response.end.Eof?
    && |Body(response)| <= p.maxBytes
    && HexEncode(sha(Body(response))) == p.sha256
  }

  /** What a download may stage: a beginning of body of at most limit bytes, in a file named like pattern. */
  datatype Plan = Plan(body: Bytes, limit: int, pattern: Pattern)

  function PlanOf(response: Response, maxBytes: Int64, pattern: Pattern): Plan {
    Plan(Body(response), Limit(maxBytes), pattern)
  }

  /** Only the one new file at p differs from orig. */
  predicate Staging(orig: Files, s: Files, p: Path, plan: Plan) {
    && p !in orig && p in s && s - {p} == orig && Matches(p, plan.pattern)
    && s[p] <= plan.body && |s[p]| <= plan.limit
  }

  ghost predicate DownloadState(orig: Files, s: Files, plan: Plan) {
    s == orig || exists p :: Staging(orig, s, p, plan)
  }

  ghost predicate TracedByDownload(orig: Files, trace: seq<Files>, since: nat, plan: Plan) {
    forall k :: since <= k < |trace| ==> DownloadState(orig, trace[k], plan)
  }

  /** A download leaves every path alone that its temporary file cannot have. */
  lemma DownloadStateKeeps(orig: Files, s: Files, plan: Plan, q: Path)
    requires DownloadState(orig, s, plan) && !Matches(q, plan.pattern)
    ensures Lookup(s, q) == Lookup(orig, q)
  {
    if s != orig {
      var p :| Staging(orig, s, p, plan);
      assert Lookup(s - {p}, q) == Lookup(s, q);
    }
  }

  lemma {:induction false} FlattenPrefix(chunks: seq<Bytes>, i: nat)
    requires i < |chunks|
    ensures Flatten(chunks[..i + 1]) == Flatten(chunks[..i]) + chunks[i]
    ensures Flatten(chunks[..i + 1]) <= Flatten(chunks)
    decreases |chunks| - i
  {
    assert chunks[..i + 1][..i] == chunks[..i];
    if i + 1 == |chunks| {
      assert chunks[..i + 1] == chunks;
    } else {
      FlattenPrefix(chunks, i + 1);
    }
  }

  /** A beginning of the next chunk continues what has been written so far. */
  lemma PieceContinues(chunks: seq<Bytes>, i: nat, take: nat)
    requires i < |chunks| && take <= |chunks[i]|
    ensures Flatten(chunks[..i]) + chunks[i][..take] <= Flatten(chunks)
    ensures take == |chunks[i]| ==> Flatten(chunks[..i]) + chunks[i][..take] == Flatten(chunks[..i + 1])
  {
    FlattenPrefix(chunks, i);
    var front := Flatten(chunks[..i]);
    assert front + chunks[i][..take] == (front + chunks[i])[..|front| + take];
    assert front + chunks[i][..take] == Flatten(chunks)[..|front| + take];
  }

  /** One write of io.Copy. */
  method CopyPiece(disk: Disk, p: Path, piece: Bytes, ghost orig: Files, ghost t0: seq<Files>, ghost plan: Plan)
      returns (ok: bool)
    requires disk.Valid() && p !in orig && Matches(p, plan.pattern) && p in disk.files && disk.files - {p} == orig
    requires disk.files[p] + piece <= plan.body && |disk.files[p]| + |piece| <= plan.limit
    requires t0 <= disk.trace && TracedByDownload(orig, disk.trace, |t0|, plan)
    modifies disk`files, disk`trace
    ensures disk.Valid() && t0 <= disk.trace && TracedByDownload(orig, disk.trace, |t0|, plan)
    ensures p in disk.files && disk.files - {p} == orig
    ensures ok ==> disk.files[p] == old(disk.files[p]) + piece
    ensures disk.smooth ==> ok
  {
    ghost var before := disk.files[p];
    ok := disk.Append(p, piece);
    ghost var n :| 0 <= n <= |piece| && disk.files == old(disk.files)[p := before + piece[..n]];
    assert before + piece[..n] == plan.body[..|before| + n];
    assert Staging(orig, disk.files, p, plan);
    TraceJoin(orig, t0, old(disk.trace), disk.trace, plan);
  }

  /** io.Copy from the limited body into the open file at p; n is the number of bytes copied. */
  method CopyLimited(disk: Disk, p: Path, chunks: seq<Bytes>, end: BodyEnd, limit: int, ghost orig: Files,
                     ghost pattern: Pattern)
      returns (n: int, ok: bool)
    requires disk.Valid() && p !in orig && Matches(p, pattern) && disk.files == orig[p := []]
    modifies disk`files, disk`trace
    ensures disk.Valid() && old(disk.trace) <= disk.trace
    ensures p in disk.files && disk.files - {p} == orig
    ensures TracedByDownload(orig, disk.trace, |old(disk.trace)|, Plan(Flatten(chunks), Max(0, limit), pattern))
    ensures ok ==>
              && n == Min(|Flatten(chunks)|, Max(0, limit))
              && disk.files[p] == Flatten(chunks)[..n]
              && (n < Max(0, limit) ==> end.Eof?)
    ensures disk.smooth ==> (ok <==> end.Eof? || |Flatten(chunks)| >= limit)
  {
    ghost var plan := Plan(Flatten(chunks), Max(0, limit), pattern);
    var left, i := limit, 0;
    n := 0;
    while i < |chunks| && left > 0
      invariant 0 <= i <= |chunks| && 0 <= n && left == limit - n && (left >= 0 || n == 0)
      invariant disk.Valid() && old(disk.trace) <= disk.trace
      invariant p in disk.files && disk.files - {p} == orig
      invariant disk.files[p] <= plan.body && |disk.files[p]| == n
      invariant left > 0 ==> disk.files[p] == Flatten(chunks[..i])
      invariant TracedByDownload(orig, disk.trace, |old(disk.trace)|, plan)
    {
      var take := Min(|chunks[i]|, left);
      PieceContinues(chunks, i, take);
      var wrote := CopyPiece(disk, p, chunks[i][..take], orig, old(disk.trace), plan);
      if !wrote {
        return n, false;
      }
      n, left, i := n + take, left - take, i + 1;
    }
    assert chunks[..|chunks|] == chunks;
    ok := left <= 0 || end.Eof?;
  }

  lemma TraceJoin(orig: Files, t0: seq<Files>, t1: seq<Files>, t2: seq<Files>, plan: Plan)
    requires t0 <= t1 && t1 <= t2
    requires TracedByDownload(orig, t1, |t0|, plan) && TracedByDownload(orig, t2, |t1|, plan)
    ensures t0 <= t2 && TracedByDownload(orig, t2, |t0|, plan)
  {
    assert t0 == t1[..|t0|] == t2[..|t1|][..|t0|] == t2[..|t0|];
    forall k | |t0| <= k < |t2| ensures DownloadState(orig, t2[k], plan) {
      if k < |t1| {
        assert t2[k] == t2[..|t1|][k] == t1[k];
      }
    }
  }

  /** Removing the staged file restores the files before the download. */
  method Discard(disk: Disk, p: Path, ghost orig: Files, ghost t0: seq<Files>, ghost plan: Plan)
    requires disk.Valid() && p !in orig && disk.files - {p} == orig
    requires t0 <= disk.trace && TracedByDownload(orig, disk.trace, |t0|, plan)
    modifies disk`files, disk`trace, disk`refusedRemovals
    ensures disk.Valid() && t0 <= disk.trace && TracedByDownload(orig, disk.trace, |t0|, plan)
    ensures disk.refusedRemovals >= old(disk.refusedRemovals)
    ensures disk.smooth ==> disk.refusedRemovals == old(disk.refusedRemovals)
    ensures disk.files == orig || disk.refusedRemovals > old(disk.refusedRemovals)
  {
    disk.Remove(p);
    TraceJoin(orig, t0, old(disk.trace), disk.trace, plan);
  }

  /** verifySHA256. Reading the file back may fail. */
  method VerifySHA256(disk: Disk, sha: Bytes -> Digest, path: Path, wantHex: string)
      returns (r: Result<(), DownloadError>)
    requires path in disk.files
    ensures r.Ok? ==> HexEncode(sha(disk.files[path])) == wantHex
    ensures r.Err? ==> r.error.RereadFailed? || r.error.DigestMismatch?
    ensures r == Err(DigestMismatch) ==> HexEncode(sha(disk.files[path])) != wantHex
    ensures disk.smooth ==> (r.Ok? <==> HexEncode(sha(disk.files[path])) == wantHex)
  {
    var rereadFailed := disk.Trouble();
    if rereadFailed {
      return Err(RereadFailed);
    }
    return if HexEncode(sha(disk.files[path])) != wantHex then Err(DigestMismatch) else Ok(());
  }

  /** DownloadVerified up to the size test. */
  method Receive(disk: Disk, response: Response, maxBytes: Int64, pattern: Pattern)
      returns (r: Result<Path, DownloadError>)
    requires disk.Valid()
    modifies disk`files, disk`trace, disk`refusedRemovals
    ensures disk.Valid() && old(disk.trace) <= disk.trace
    ensures disk.refusedRemovals >= old(disk.refusedRemovals)
    ensures r.Ok? ==>
              && response.Response? && response.status == 200
              && r.value !in old(disk.files) && Matches(r.value, pattern)
              && disk.refusedRemovals == old(disk.refusedRemovals)
    ensures r.Ok? && maxBytes < MAX_INT64 ==>
              && response.end.Eof? && |Body(response)| <= maxBytes
              && disk.files == old(disk.files)[r.value := Body(response)]
    ensures r.Ok? && maxBytes == MAX_INT64 ==> disk.files == old(disk.files)[r.value := []]
    ensures r.Err? ==>
              && !r.error.RereadFailed? && !r.error.DigestMismatch?
              && (disk.files == old(disk.files) || disk.refusedRemovals > old(disk.refusedRemovals))
    ensures r == Err(Unreachable) <==> response.NoResponse?
    ensures r == Err(BadStatus) <==> response.Response? && response.status != 200
    ensures r == Err(TooLarge) ==> response.Response? && |Body(response)| > maxBytes
    ensures disk.smooth && maxBytes < MAX_INT64 && response.Response? && response.status == 200 ==>
              && (r == Err(TooLarge) <==> |Body(response)| > maxBytes)
              && (r == Err(CopyFailed) <==> |Body(response)| <= maxBytes && response.end.Broken?)
              && (r.Ok? <==> |Body(response)| <= maxBytes && response.end.Eof?)
    ensures disk.smooth ==> disk.refusedRemovals == old(disk.refusedRemovals)
    ensures TracedByDownload(old(disk.files), disk.trace, |old(disk.trace)|, PlanOf(response, maxBytes, pattern))
  {
    ghost var orig := disk.files;
    if response.NoResponse? {
      return Err(Unreachable);
    }
    if response.status != 200 {
      return Err(BadStatus);
    }
    ghost var body, plan := Body(response), PlanOf(response, maxBytes, pattern);
    var created := disk.CreateTemp(pattern);
    if created.None? {
      return Err(NoTempFile);
    }
    var path := created.value;
    assert Staging(orig, disk.files, path, plan);
    ghost var staged := disk.trace;
    var n, ok := CopyLimited(disk, path, response.chunks, response.end, Wrap64(maxBytes + 1), orig, pattern);
    TraceJoin(orig, old(disk.trace), staged, disk.trace, plan);
    var closeFailed := disk.Trouble();
    if !ok || closeFailed {
      Discard(disk, path, orig, old(disk.trace), plan);
      return Err(if ok then CloseFailed else CopyFailed);
    }
    if n > maxBytes {
      Discard(disk, path, orig, old(disk.trace), plan);
      return Err(TooLarge);
    }
    assert maxBytes < MAX_INT64 ==> n == |body| && body[..n] == body;
    return Ok(path);
  }

  method DownloadVerified(disk: Disk, sha: Bytes -> Digest, response: Response, p: Params)
      returns (r: Result<Path, DownloadError>)
    requires disk.Valid()
    modifies disk
    ensures disk.Valid() && old(disk.trace) <= disk.trace && disk.dirs == old(disk.dirs)
    ensures disk.refusedRemovals >= old(disk.refusedRemovals)
    // a path is returned only for the whole, small enough, authentic body
    ensures r.Ok? && p.maxBytes < MAX_INT64 ==>
              && response.Response? && response.status == 200 && response.end.Eof?
              && var body := Body(response);
                 && r.value !in old(disk.files)
                 && disk.files == old(disk.files)[r.value := body]
                 && |body| <= p.maxBytes
                 && HexEncode(sha(body)) == p.sha256
    // the cap that overflows lets nothing through
    ensures r.Ok? && p.maxBytes == MAX_INT64 ==>
              && r.value !in old(disk.files)
              && disk.files == old(disk.files)[r.value := []] && HexEncode(sha([])) == p.sha256
    ensures r.Ok? ==> disk.refusedRemovals == old(disk.refusedRemovals) && Matches(r.value, p.pattern)
    // after an error nothing is left, unless the operating system refused the removal
    ensures r.Err? ==>
              || disk.files == old(disk.files)
              || disk.refusedRemovals > old(disk.refusedRemovals)
    ensures r == Err(Unreachable) <==> response.NoResponse?
    ensures r == Err(BadStatus) <==> response.Response? && response.status != 200
    ensures r == Err(TooLarge) ==> response.Response? && |Body(response)| > p.maxBytes
    ensures r == Err(DigestMismatch) && p.maxBytes < MAX_INT64 ==>
              response.Response? && HexEncode(sha(Body(response))) != p.sha256
    // and a good download fails only if something outside the code goes wrong
    ensures disk.smooth && p.maxBytes < MAX_INT64 ==>
              (r.Ok? <==>
               && response.Response? && response.status == 200 && response.end.Eof?
               && |Body(response)| <= p.maxBytes && HexEncode(sha(Body(response))) == p.sha256)
    ensures disk.smooth ==> disk.refusedRemovals == old(disk.refusedRemovals)
    // the staged file never holds more than maxBytes + 1 bytes
    ensures TracedByDownload(old(disk.files), disk.trace, |old(disk.trace)|,
                             PlanOf(response, p.maxBytes, p.pattern))
  {
    ghost var orig := disk.files;
    var received := Receive(disk, response, p.maxBytes, p.pattern);
    if received.Err? {
      return received;
    }
    var path := received.value;
    var verified := VerifySHA256(disk, sha, path, p.sha256);
    if verified.Err? {
      Discard(disk, path, orig, old(disk.trace), PlanOf(response, p.maxBytes, p.pattern));
      return Err(verified.error);
    }
    return Ok(path);
  }
}
