/** applyEngineUpdate: download the engine package, unpack it over the install directory, check the
    unpacked engine's signer. */
module EngineUpdate {
  import opened Wrappers
  import opened FileSystem
  import opened Extract
  import Download
  import Paths
  import Verify

  const MAX_ENGINE_UPDATE_BYTES: int := 200 * 1024 * 1024
  const ENGINE_PRODUCT_ID := "solarbeam-engine"

  datatype Args = Args(
    releaseID: string, version: string, url: string, sha256: string, signerFingerprint: string, productID: string)

  /** validateUpdateArgs. */
  predicate ValidArgs(a: Args) {
    && a.releaseID != "" && a.version != "" && a.url != ""
    && a.sha256 != "" && a.signerFingerprint != "" && a.productID != ""
    && Verify.ValidLowerHex256(a.sha256) && Verify.ValidLowerHex256(a.signerFingerprint)
    && a.productID == ENGINE_PRODUCT_ID
  }

  /** What accepted arguments amount to. */
  ghost predicate Addressed(a: Args) {
    && a.releaseID != "" && a.version != "" && a.url != "" && a.productID == "solarbeam-engine"
    && Verify.IsEncoding(a.sha256) && Verify.IsEncoding(a.signerFingerprint)
  }

  lemma AcceptedIffAddressed(a: Args)
    ensures ValidArgs(a) <==> Addressed(a)
  {
    Verify.ValidIffEncoding(a.sha256);
    Verify.ValidIffEncoding(a.signerFingerprint);
  }

  datatype Error =
    | BadArgs
    | EngineRunning
    | NotConfigured
    | DownloadFailed(d: Download.DownloadError)
    | NoInstallDir
    | ExtractFailed(z: ZipError)
    | BadSignature

  /** What the zip container in a file holds, if it is one. */
  type Unzip = Bytes -> Option<seq<Entry>>

  /** engineInstallDir: the configured root, or else the directory the engine is in. */
  function InstallDir(root: Option<Dest>, engine: Option<Dest>): Option<Dest> {
    if root.Some? then root
    else
      match engine
      case None => None
      case Some(e) => Some(e.(comps := if e.comps == [] then [] else e.comps[..|e.comps| - 1]))
  }

  /** A configured root is used, whatever the engine's path is. */
  lemma RootFirst(root: Dest, engine: Option<Dest>)
    ensures InstallDir(Some(root), engine) == Some(root)
    ensures InstallDir(None, engine).None? <==> engine.None?
  {
  }

  /** Without one, a package's file with the engine's own base name goes to the engine's own path. */
  lemma EngineEntryTarget(engine: Dest, dir: seq<string>, name: string, content: Bytes)
    requires engine.comps == dir + [name] && dir != [] && Paths.Clean(engine.comps)
    ensures InstallDir(None, Some(engine)) == Some(Dest(engine.volume, dir))
    ensures Accepted(Dest(engine.volume, dir), Entry(name, false, content))
    ensures OpOf(InstallDir(None, Some(engine)).value, Entry(name, false, content))
            == Put(Paths.Abs(engine.volume, engine.comps), content)
  {
    assert engine.comps[..|engine.comps| - 1] == dir;
    assert engine.comps[|dir|] == name;
    assert forall i :: 0 <= i < |dir| ==> engine.comps[i] == dir[i];
    PlainName(Dest(engine.volume, dir), name, content);
  }

  /** So a package whose last such entry holds content leaves it there. */
  lemma EngineInPlace(orig: Files, engine: Dest, dir: seq<string>, name: string, unzip: Unzip, body: Bytes, p: Path,
                      s: Files, refused: bool, content: Bytes)
    requires engine.comps == dir + [name] && dir != [] && Paths.Clean(engine.comps)
    requires Installed(orig, None, Some(engine), unzip, body, p, s, refused)
    requires p != Paths.Abs(engine.volume, engine.comps)
    requires var entries := unzip(body).value;
             entries != [] && entries[|entries| - 1] == Entry(name, false, content)
    ensures Lookup(s, Paths.Abs(engine.volume, engine.comps)) == Some(content)
  {
    EngineEntryTarget(engine, dir, name, content);
    var target := Paths.Abs(engine.volume, engine.comps);
    InstalledLast(orig, None, Some(engine), unzip, body, p, s, refused, target, content);
  }

  lemma InstalledLast(orig: Files, root: Option<Dest>, engine: Option<Dest>, unzip: Unzip, body: Bytes, p: Path,
                      s: Files, refused: bool, target: Path, content: Bytes)
    requires Installed(orig, root, engine, unzip, body, p, s, refused) && p != target
    requires var d, entries := InstallDir(root, engine).value, unzip(body).value;
             entries != [] && OpOf(d, entries[|entries| - 1]) == Put(target, content)
    ensures Lookup(s, target) == Some(content)
  {
    var ops := Ops(InstallDir(root, engine).value, unzip(body).value);
    LastPut(orig[p := body], ops, target, content);
  }

  lemma LastPut(files: Files, ops: seq<Op>, target: Path, content: Bytes)
    requires ops != [] && ops[|ops| - 1] == Put(target, content)
    ensures Lookup(Extracted(files, ops), target) == Some(content)
  {
  }

  /** Whether a file's content carries the signer with a fingerprint, as Authenticode sees it. */
  type Signers = (Bytes, string) -> bool

  /** The engine at its configured path carries the requested signer. */
  predicate Signed(signers: Signers, engine: Option<Dest>, args: Args, s: Files) {
    && engine.Some?
    && var path := Paths.Abs(engine.value.volume, engine.value.comps);
       path in s && signers(s[path], args.signerFingerprint)
  }

  /** The names of staged packages. */
  function StagingPattern(tempDir: Path): Pattern {
    Pattern(tempDir + "\\solarbeam-engine-update-", ".zip")
  }

  function ParamsOf(args: Args, tempDir: Path): Download.Params {
    Download.Params(args.sha256, MAX_ENGINE_UPDATE_BYTES, StagingPattern(tempDir))
  }

  /** What a download of this package may stage. */
  function StagedPlan(tempDir: Path, body: Bytes): Download.Plan {
    Download.Plan(body, Download.Limit(MAX_ENGINE_UPDATE_BYTES), StagingPattern(tempDir))
  }

  function Entries(unzip: Unzip, body: Bytes): seq<Entry> {
    if unzip(body).Some? then unzip(body).value else []
  }

  ghost predicate UnpackedTo(
    orig: Files, body: Bytes, d: Dest, entries: seq<Entry>, p: Path, unpacked: Files, s: Files)
  {
    SomePrefixState(orig[p := body], d, entries, unpacked) && (s == unpacked || s == unpacked - {p})
  }

  /** The package is staged at p and a prefix of it is unpacked; the last step takes p away again. */
  ghost predicate PackageState(
    orig: Files, d: Dest, entries: seq<Entry>, plan: Download.Plan, p: Path, s: Files)
  {
    && p !in orig && Matches(p, plan.pattern)
    && exists unpacked :: UnpackedTo(orig, plan.body, d, entries, p, unpacked, s)
  }

  /** A state an engine update goes through. */
  ghost predicate UpdateState(orig: Files, d: Dest, entries: seq<Entry>, plan: Download.Plan, s: Files) {
    Download.DownloadState(orig, s, plan) || exists p :: PackageState(orig, d, entries, plan, p, s)
  }

  ghost predicate TracedByUpdate(
    orig: Files, d: Dest, entries: seq<Entry>, plan: Download.Plan, trace: seq<Files>, since: nat)
  {
    forall k :: since <= k < |trace| ==> UpdateState(orig, d, entries, plan, trace[k])
  }

  ghost predicate Traced(root: Option<Dest>, engine: Option<Dest>, unzip: Unzip, plan: Download.Plan,
                         orig: Files, trace: seq<Files>, since: nat)
  {
    InstallDir(root, engine).Some? ==>
      TracedByUpdate(orig, InstallDir(root, engine).value, Entries(unzip, plan.body), plan, trace, since)
  }

  /** The package at p, where there was nothing, is small enough and has the digest asked for. */
  ghost predicate Authentic(
    orig: Files, sha: Bytes -> Verify.Digest, response: Download.Response, args: Args, p: Path)
  {
    && response.Response? && p !in orig
    && |Download.Body(response)| <= 200 * 1024 * 1024
    && Verify.HexEncode(sha(Download.Body(response))) == args.sha256
  }

  /** s is orig with the whole package unpacked over the install directory, and nothing else; refused
      tells whether the package itself could not be removed. */
  ghost predicate Installed(orig: Files, root: Option<Dest>, engine: Option<Dest>, unzip: Unzip, body: Bytes,
                            p: Path, s: Files, refused: bool)
  {
    && InstallDir(root, engine).Some? && unzip(body).Some?
    && var d, entries := InstallDir(root, engine).value, unzip(body).value;
       && AllAccepted(d, entries, |entries|)
       && var unpacked := Extracted(orig[p := body], Ops(d, entries));
          s == if refused then unpacked else unpacked - {p}
  }

  /** What it takes to install the archive of a staged package over the files and directories before it. */
  ghost predicate CanInstall(files: Files, dirs: set<Path>, archive: Option<seq<Entry>>, signers: Signers,
                             engine: Option<Dest>, args: Args, d: Dest)
  {
    && Paths.Abs(d.volume, d.comps) !in files
    && archive.Some? && Unpackable(files, dirs + {Paths.Abs(d.volume, d.comps)}, d, archive.value)
    && Signed(signers, engine, args, Extracted(files, Ops(d, archive.value)))
  }

  /** Success means that the engine carries the requested signer once the package is unpacked. And if nothing
      outside the code goes wrong, the package is staged exactly if it is a good download for a configured
      engine, and the update succeeds exactly if that package can be installed. */
  ghost predicate Explained(files: Files, dirs: set<Path>, sha: Bytes -> Verify.Digest, unzip: Unzip,
                            signers: Signers, root: Option<Dest>, engine: Option<Dest>, tempDir: Path,
                            response: Download.Response, args: Args, r: Result<(), Error>, staged: Option<Path>,
                            smooth: bool)
  {
    && (r.Ok? ==> staged.Some? && InstallDir(root, engine).Some?)
    && (r.Ok? ==>
          Signed(signers, engine, args,
                 Extracted(files[staged.value := Download.Body(response)],
                           Ops(InstallDir(root, engine).value, Entries(unzip, Download.Body(response))))))
    && (smooth ==>
          (staged.Some? <==>
           && (root.Some? || engine.Some?)
           && Download.Good(sha, response, Download.Params(args.sha256, 200 * 1024 * 1024, StagingPattern(tempDir)))))
    && (smooth && staged.Some? ==>
          && InstallDir(root, engine).Some?
          && (r.Ok? <==> CanInstall(files[staged.value := Download.Body(response)], dirs,
                                    unzip(Download.Body(response)), signers, engine, args,
                                    InstallDir(root, engine).value)))
  }

  /** MkdirAll, extractZip and the Authenticode check, with the package staged at p. */
  method Unpack(disk: Disk, unzip: Unzip, signers: Signers, engine: Option<Dest>, args: Args, d: Dest, p: Path)
      returns (r: Result<(), Error>)
    requires disk.Valid() && p in disk.files
    modifies disk
    ensures disk.Valid() && old(disk.trace) <= disk.trace
    ensures disk.refusedRemovals >= old(disk.refusedRemovals)
    ensures TracedByPrefixes(old(disk.files), d, Entries(unzip, old(disk.files[p])), disk.trace, |old(disk.trace)|)
    ensures SomePrefixState(old(disk.files), d, Entries(unzip, old(disk.files[p])), disk.files)
    ensures r.Ok? || r == Err(BadSignature) ==>
              && unzip(old(disk.files[p])).Some?
              && var entries := unzip(old(disk.files[p])).value;
                 && AllAccepted(d, entries, |entries|)
                 && disk.files == Extracted(old(disk.files), Ops(d, entries))
                 && disk.refusedRemovals == old(disk.refusedRemovals)
    ensures r.Ok? ==>
              && engine.Some?
              && var path := Paths.Abs(engine.value.volume, engine.value.comps);
                 path in disk.files && signers(disk.files[path], args.signerFingerprint)
    ensures r.Err? ==> r.error.NoInstallDir? || r.error.ExtractFailed? || r.error.BadSignature?
    ensures r == Err(NoInstallDir) || r == Err(ExtractFailed(OpenArchive)) ==> disk.files == old(disk.files)
    ensures disk.smooth ==>
              (r.Ok? <==> CanInstall(old(disk.files), old(disk.dirs), unzip(old(disk.files[p])), signers, engine,
                                     args, d))
    ensures disk.smooth ==> disk.refusedRemovals == old(disk.refusedRemovals)
  {
    ghost var orig := disk.files;
    ghost var entries := Entries(unzip, orig[p]);
    NothingUnpacked(orig, d, entries);
    var made := disk.MkdirAll(Paths.Abs(d.volume, d.comps));
    if !made {
      return Err(NoInstallDir);
    }
    var archive := unzip(disk.files[p]);
    var extracted := ExtractZip(disk, archive, d);
    if extracted.Err? {
      if extracted.error != OpenArchive {
        StoppedIsPrefix(orig, d, entries, extracted.error, disk.files,
                        disk.refusedRemovals > old(disk.refusedRemovals));
      } else {
        assert disk.files == disk.trace[|disk.trace| - 1] == orig;
      }
      return Err(ExtractFailed(extracted.error));
    }
    assert entries[..|entries|] == entries;
    assert PrefixState(orig, d, entries, |entries|, disk.files);
    var trouble := disk.Trouble();
    return if trouble || !Signed(signers, engine, args, disk.files) then Err(BadSignature) else Ok(());
  }

  lemma NothingUnpacked(orig: Files, d: Dest, entries: seq<Entry>)
    ensures SomePrefixState(orig, d, entries, orig)
  {
    assert Ops(d, entries[..0]) == [];
    assert PrefixState(orig, d, entries, 0, orig);
  }

  lemma StoppedIsPrefix(orig: Files, d: Dest, entries: seq<Entry>, e: ZipError, s: Files, refused: bool)
    requires Stopped(orig, d, entries, e, s, refused)
    ensures SomePrefixState(orig, d, entries, s)
  {
    var i :| StoppedAt(orig, d, entries, i, e, s, refused);
    assert PrefixState(orig, d, entries, i, s);
  }

  /** The part of applyEngineUpdate that follows the download, with its deferred removal of the package. */
  method UnpackAndDiscard(disk: Disk, unzip: Unzip, signers: Signers, engine: Option<Dest>, args: Args, d: Dest,
                          p: Path, ghost orig: Files, ghost t0: seq<Files>, ghost plan: Download.Plan)
      returns (r: Result<(), Error>)
    requires disk.Valid() && p !in orig && Matches(p, plan.pattern)
    requires disk.files == orig[p := plan.body] && t0 <= disk.trace
    requires TracedByUpdate(orig, d, Entries(unzip, plan.body), plan, disk.trace, |t0|)
    modifies disk
    ensures disk.Valid() && t0 <= disk.trace
    ensures disk.refusedRemovals >= old(disk.refusedRemovals)
    ensures TracedByUpdate(orig, d, Entries(unzip, plan.body), plan, disk.trace, |t0|)
    ensures p !in disk.files || disk.refusedRemovals > old(disk.refusedRemovals)
    ensures r.Err? ==> r.error.NoInstallDir? || r.error.ExtractFailed? || r.error.BadSignature?
    ensures r.Ok? || r == Err(BadSignature) ==>
              && unzip(plan.body).Some?
              && var entries := unzip(plan.body).value;
                 && AllAccepted(d, entries, |entries|)
                 && var unpacked := Extracted(old(disk.files), Ops(d, entries));
                    disk.files == if disk.refusedRemovals > old(disk.refusedRemovals) then unpacked else unpacked - {p}
    ensures r == Err(NoInstallDir) || r == Err(ExtractFailed(OpenArchive)) ==>
              disk.files == orig || disk.refusedRemovals > old(disk.refusedRemovals)
    ensures r.Ok? ==> Signed(signers, engine, args, Extracted(old(disk.files), Ops(d, Entries(unzip, plan.body))))
    ensures disk.smooth ==>
              (r.Ok? <==> CanInstall(old(disk.files), old(disk.dirs), unzip(plan.body), signers, engine, args, d))
  {
    PutAndTake(orig, p, plan.body);
    ghost var t1 := disk.trace;
    r := Unpack(disk, unzip, signers, engine, args, d, p);
    Discard(disk, d, Entries(unzip, plan.body), p, orig, t0, t1, plan);
  }

  lemma PutAndTake(orig: Files, p: Path, body: Bytes)
    requires p !in orig
    ensures orig[p := body] - {p} == orig
  {
  }

  /** The deferred removal of the package. */
  method Discard(disk: Disk, d: Dest, ghost entries: seq<Entry>, p: Path, ghost orig: Files, ghost t0: seq<Files>,
                 ghost t1: seq<Files>, ghost plan: Download.Plan)
    requires disk.Valid() && p !in orig && Matches(p, plan.pattern) && t0 <= t1 <= disk.trace
    requires TracedByUpdate(orig, d, entries, plan, t1, |t0|)
    requires TracedByPrefixes(orig[p := plan.body], d, entries, disk.trace, |t1|)
    requires SomePrefixState(orig[p := plan.body], d, entries, disk.files)
    modifies disk`files, disk`trace, disk`refusedRemovals
    ensures disk.Valid() && t0 <= disk.trace && TracedByUpdate(orig, d, entries, plan, disk.trace, |t0|)
    ensures disk.refusedRemovals >= old(disk.refusedRemovals)
    ensures disk.files == if disk.refusedRemovals > old(disk.refusedRemovals) then old(disk.files)
                          else old(disk.files) - {p}
  {
    disk.Remove(p);
    UnpackPart(orig, d, entries, plan, p, t0, t1, old(disk.trace), old(disk.files), disk.trace);
  }

  method ApplyEngineUpdate(disk: Disk, sha: Bytes -> Verify.Digest, unzip: Unzip, signers: Signers,
                           root: Option<Dest>, engine: Option<Dest>, tempDir: Path, response: Download.Response,
                           args: Args)
      returns (r: Result<(), Error>, ghost staged: Option<Path>)
    requires disk.Valid()
    modifies disk
    ensures disk.Valid() && old(disk.trace) <= disk.trace
    ensures disk.refusedRemovals >= old(disk.refusedRemovals)
    ensures r == Err(NotConfigured) <==> InstallDir(root, engine).None?
    ensures r == Err(NotConfigured) ==> disk.files == old(disk.files) && disk.trace == old(disk.trace)
    ensures r.Err? ==> !r.error.BadArgs? && !r.error.EngineRunning?
    // every state on the way is accounted for
    ensures Traced(root, engine, unzip, StagedPlan(tempDir, Download.Body(response)), old(disk.files), disk.trace,
                   |old(disk.trace)|)
    // only an authentic package is unpacked, and then in full, also when the signer check fails after it
    ensures staged.Some? ==> Authentic(old(disk.files), sha, response, args, staged.value)
    ensures r.Ok? || r == Err(BadSignature) ==>
              && staged.Some?
              && Installed(old(disk.files), root, engine, unzip, Download.Body(response), staged.value, disk.files,
                           disk.refusedRemovals > old(disk.refusedRemovals))
    // success means that the engine in place carries the requested signer, and failure has a reason
    ensures Explained(old(disk.files), old(disk.dirs), sha, unzip, signers, root, engine, tempDir, response, args, r,
                      staged, disk.smooth)
    // nothing staged remains
    ensures staged.Some? ==>
              staged.value !in disk.files || disk.refusedRemovals > old(disk.refusedRemovals)
    ensures staged.None? || r == Err(NoInstallDir) || r == Err(ExtractFailed(OpenArchive)) ==>
              disk.files == old(disk.files) || disk.refusedRemovals > old(disk.refusedRemovals)
  {
    staged := None;
    ghost var orig, plan := disk.files, StagedPlan(tempDir, Download.Body(response));
    var installDir := InstallDir(root, engine);
    if installDir.None? {
      return Err(NotConfigured), None;
    }
    var d := installDir.value;
    ghost var entries := Entries(unzip, plan.body);
    var downloaded := Download.DownloadVerified(disk, sha, response, ParamsOf(args, tempDir));
    DownloadPart(orig, d, entries, plan, disk.trace, |old(disk.trace)|);
    if downloaded.Err? {
      return Err(DownloadFailed(downloaded.error)), None;
    }
    var p := downloaded.value;
    staged := Some(p);
    r := UnpackAndDiscard(disk, unzip, signers, engine, args, d, p, orig, old(disk.trace), plan);
  }

  lemma DownloadPart(orig: Files, d: Dest, entries: seq<Entry>, plan: Download.Plan, trace: seq<Files>, since: nat)
    requires Download.TracedByDownload(orig, trace, since, plan)
    ensures TracedByUpdate(orig, d, entries, plan, trace, since)
  {
    forall k | since <= k < |trace| ensures UpdateState(orig, d, entries, plan, trace[k]) {
      assert Download.DownloadState(orig, trace[k], plan);
    }
  }

  /** The states of the download, then of the unpacking, then perhaps the one without the package. */
  lemma UnpackPart(orig: Files, d: Dest, entries: seq<Entry>, plan: Download.Plan, p: Path,
                   t0: seq<Files>, t1: seq<Files>, t2: seq<Files>, unpacked: Files, t3: seq<Files>)
    requires p !in orig && Matches(p, plan.pattern)
    requires t0 <= t1 <= t2 <= t3
    requires TracedByUpdate(orig, d, entries, plan, t1, |t0|)
    requires TracedByPrefixes(orig[p := plan.body], d, entries, t2, |t1|)
    requires SomePrefixState(orig[p := plan.body], d, entries, unpacked)
    requires t3 == t2 || t3 == t2 + [unpacked - {p}]
    ensures t0 <= t3 && TracedByUpdate(orig, d, entries, plan, t3, |t0|)
  {
    assert t0 == t1[..|t0|] == t2[..|t1|][..|t0|] == t2[..|t0|] == t3[..|t2|][..|t0|] == t3[..|t0|];
    forall k | |t0| <= k < |t3| ensures UpdateState(orig, d, entries, plan, t3[k]) {
      if k < |t1| {
        assert t3[k] == t3[..|t2|][k] == t2[..|t1|][k] == t1[k];
      } else if k < |t2| {
        assert t3[k] == t2[k];
        assert UnpackedTo(orig, plan.body, d, entries, p, t3[k], t3[k]);
        assert PackageState(orig, d, entries, plan, p, t3[k]);
      } else {
        assert UnpackedTo(orig, plan.body, d, entries, p, unpacked, t3[k]);
        assert PackageState(orig, d, entries, plan, p, t3[k]);
      }
    }
  }

  /** Crash safety of a whole engine update, from the first byte of the download on, for a first install as
      for an update: a path that does not end in ".tmp" holds what it held, if anything, or the complete
      content of an entry for it, or it is the staged package. */
  lemma UpdateCrashSafe(orig: Files, d: Dest, entries: seq<Entry>, plan: Download.Plan, s: Files, q: Path)
    requires UpdateState(orig, d, entries, plan, s)
    requires !IsTemp(q)
    ensures || Lookup(s, q) == Lookup(orig, q)
            || (exists j :: 0 <= j < |entries| && OpOf(d, entries[j]).Put?
                            && OpOf(d, entries[j]).target == q
                            && Lookup(s, q) == Some(entries[j].content))
            || (q !in orig && Matches(q, plan.pattern) && q in s && s[q] <= plan.body)
  {
    if Download.DownloadState(orig, s, plan) {
      if s != orig {
        var p :| Download.Staging(orig, s, p, plan);
        assert p != q ==> Lookup(s - {p}, q) == Lookup(s, q);
      }
    } else {
      var p :| PackageState(orig, d, entries, plan, p, s);
      PackageCrashSafe(orig, d, entries, plan, p, s, q);
    }
  }

  lemma PackageCrashSafe(orig: Files, d: Dest, entries: seq<Entry>, plan: Download.Plan, p: Path, s: Files, q: Path)
    requires PackageState(orig, d, entries, plan, p, s) && !IsTemp(q)
    ensures || Lookup(s, q) == Lookup(orig, q)
            || (exists j :: 0 <= j < |entries| && OpOf(d, entries[j]).Put?
                            && OpOf(d, entries[j]).target == q
                            && Lookup(s, q) == Some(entries[j].content))
            || (q == p && Lookup(s, q) == Some(plan.body))
  {
    var unpacked :| UnpackedTo(orig, plan.body, d, entries, p, unpacked, s);
    var n: nat :| PrefixState(orig[p := plan.body], d, entries, n, unpacked);
    CrashSafe(orig[p := plan.body], d, entries, n, unpacked, q);
  }

  /** So the engine itself, whatever its package, is never left half-written: its path is not one that a
      staged package can have, because it ends differently. */
  lemma EngineNeverPartial(orig: Files, d: Dest, entries: seq<Entry>, plan: Download.Plan, s: Files, enginePath: Path)
    requires UpdateState(orig, d, entries, plan, s)
    requires HasSuffix(enginePath, ".exe") && plan.pattern.after == ".zip"
    ensures || Lookup(s, enginePath) == Lookup(orig, enginePath)
            || (exists j :: 0 <= j < |entries| && OpOf(d, entries[j]).Put?
                            && OpOf(d, entries[j]).target == enginePath
                            && Lookup(s, enginePath) == Some(entries[j].content))
  {
    OneSuffix(enginePath, ".exe", ".tmp");
    OneSuffix(enginePath, ".exe", ".zip");
    UpdateCrashSafe(orig, d, entries, plan, s, enginePath);
  }

  /** Containment of a whole engine update: in every state, a path that is neither inside the install
      directory nor named like a staged package is untouched; with the exception, as for extraction, of the
      directory's own ".tmp" sibling. */
  lemma UpdateOutsideUntouched(orig: Files, d: Dest, entries: seq<Entry>, plan: Download.Plan, s: Files, q: Path)
    requires Paths.Clean(d.comps) && d.comps != []
    requires UpdateState(orig, d, entries, plan, s)
    requires !Inside(d, q) && !Matches(q, plan.pattern)
    requires q == Paths.Abs(d.volume, d.comps) + ".tmp" ==>
               forall e :: e in entries && !IsDir(e) ==> Paths.Target(d.comps, e.name) != d.comps
    ensures Lookup(s, q) == Lookup(orig, q)
  {
    if Download.DownloadState(orig, s, plan) {
      Download.DownloadStateKeeps(orig, s, plan, q);
    } else {
      var p :| PackageState(orig, d, entries, plan, p, s);
      var unpacked :| UnpackedTo(orig, plan.body, d, entries, p, unpacked, s);
      var n: nat :| PrefixState(orig[p := plan.body], d, entries, n, unpacked);
      OutsideUntouched(orig[p := plan.body], d, entries, n, unpacked, q);
    }
  }
}
