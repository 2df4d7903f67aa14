/** Agent self-update: the product policy, the single-flight pipeline of update.Manager, and the light
    agent's binary swap. */
module SelfUpdate {
  import opened Wrappers
  import opened FileSystem
  import Verify
  import Download

  const MAX_DOWNLOAD_BYTES: int := 200 * 1024 * 1024

  datatype UpdateArgs = UpdateArgs(
    releaseID: string, version: string, url: string, sha256: string,
    agentProfile: string, signerFingerprint: string, productID: string)

  datatype ProductPolicy = ProductPolicy(productID: string, profile: string, signers: set<string>)

  datatype PolicyError = WrongProduct | WrongProfile | UntrustedSigner

  function PolicyValidate(p: ProductPolicy, args: UpdateArgs): Result<(), PolicyError> {
    if args.productID != p.productID then Err(WrongProduct)
    else if args.agentProfile != p.profile then Err(WrongProfile)
    else if args.signerFingerprint !in p.signers then Err(UntrustedSigner)
    else Ok(())
  }

  datatype Config = Config(allowedHost: string, policy: ProductPolicy)

  datatype ArgsError = Missing | BadDigest | BadFingerprint | Policy(e: PolicyError) | BadURL | WrongHost

  /** hostOf is the host name of a URL that parses. */
  function ValidateArgs(cfg: Config, hostOf: string -> Option<string>, a: UpdateArgs): Result<(), ArgsError> {
    if a.releaseID == "" || a.version == "" || a.url == "" || a.sha256 == ""
       || a.agentProfile == "" || a.signerFingerprint == "" || a.productID == "" then Err(Missing)
    else if !Verify.ValidLowerHex256(a.sha256) then Err(BadDigest)
    else if !Verify.ValidLowerHex256(a.signerFingerprint) then Err(BadFingerprint)
    else
      match PolicyValidate(cfg.policy, a)
      case Err(e) => Err(Policy(e))
      case Ok(_) =>
        match hostOf(a.url)
        case None => Err(BadURL)
        case Some(host) =>
          if cfg.allowedHost != "" && host != cfg.allowedHost then Err(WrongHost) else Ok(())
  }

  /** What accepted arguments amount to: this product, this profile, a trusted signer, a digest that is
      the encoding of 32 bytes, and an allowed host. */
  ghost predicate Trusted(cfg: Config, hostOf: string -> Option<string>, a: UpdateArgs) {
    && a.releaseID != "" && a.version != "" && a.url != ""
    && a.productID == cfg.policy.productID != ""
    && a.agentProfile == cfg.policy.profile != ""
    && a.signerFingerprint in cfg.policy.signers
    && Verify.IsEncoding(a.sha256) && Verify.IsEncoding(a.signerFingerprint)
    && hostOf(a.url).Some?
    && (cfg.allowedHost == "" || hostOf(a.url) == Some(cfg.allowedHost))
  }

  lemma AcceptedIffTrusted(cfg: Config, hostOf: string -> Option<string>, a: UpdateArgs)
    ensures ValidateArgs(cfg, hostOf, a).Ok? <==> Trusted(cfg, hostOf, a)
  {
    Verify.ValidIffEncoding(a.sha256);
    Verify.ValidIffEncoding(a.signerFingerprint);
  }

  // ---- the binary swap -----------------------------------------------------------

  function OldPath(exe: Path): Path {
    exe + ".old"
  }

  /** The executable's path holds one of the two binaries, or the old one waits beside it. */
  predicate Recoverable(s: Files, exe: Path, oldBytes: Bytes, newBytes: Bytes) {
    || Lookup(s, exe) == Some(oldBytes)
    || Lookup(s, exe) == Some(newBytes)
    || Lookup(s, OldPath(exe)) == Some(oldBytes)
  }

  ghost predicate AllRecoverable(trace: seq<Files>, since: nat, exe: Path, oldBytes: Bytes, newBytes: Bytes) {
    forall k :: since <= k < |trace| ==> Recoverable(trace[k], exe, oldBytes, newBytes)
  }

  /** Nothing but the executable and its ".old" sibling differs. */
  ghost predicate SameElsewhere(a: Files, b: Files, exe: Path) {
    forall p | p != exe && p != OldPath(exe) :: Lookup(a, p) == Lookup(b, p)
  }

  lemma SameMinus(a: Files, b: Files, exe: Path, d: Path)
    requires SameElsewhere(a, b, exe)
    ensures SameElsewhere(a - {d}, b - {d}, exe)
  {
    forall p | p != exe && p != OldPath(exe) ensures Lookup(a - {d}, p) == Lookup(b - {d}, p) {
      assert Lookup(a, p) == Lookup(b, p);
    }
  }

  datatype ApplyError = NoExecutable | BadSignature | RenameFailed | MoveFailed

  /** What the operating system answers to an update that gets to its ApplyFn: whether the executable's path
      and the signature are found good, whether exe.old may be removed, the executable renamed to it, the new
      one renamed into place, the old one renamed back, and exe.old removed at the end. */
  datatype Answers = Answers(
    known: bool, signed: bool, clears: bool, setsAside: bool, movesIn: bool, putsBack: bool, tidies: bool)

  /** What the two renames come to; present tells whether the executable is there. */
  function SwapResult(a: Answers, present: bool, exe: Path, dirs: set<Path>): Result<(), ApplyError> {
    if !(present && a.setsAside && OldPath(exe) !in dirs) then Err(RenameFailed)
    else if !(a.movesIn && exe !in dirs) then Err(MoveFailed)
    else Ok(())
  }

  function ApplyResult(a: Answers, present: bool, exe: Path, dirs: set<Path>): Result<(), ApplyError> {
    if !a.known then Err(NoExecutable)
    else if !a.signed then Err(BadSignature)
    else SwapResult(a, present, exe, dirs)
  }

  /** The ".old" sibling, if there is one, is removed before the swap. */
  predicate Clears(a: Answers) {
    a.known && a.signed && a.clears
  }

  /** The executable, if it is there, is set aside and neither replaced nor put back. */
  predicate Strands(a: Answers, exe: Path, dirs: set<Path>) {
    ApplyResult(a, true, exe, dirs) == Err(MoveFailed) && !(a.putsBack && exe !in dirs)
  }

  /** A copy of the executable is there, in place or as the ".old" sibling. */
  predicate HasCopy(s: Files, exe: Path) {
    exe in s || OldPath(exe) in s
  }

  ghost predicate AllHaveCopy(trace: seq<Files>, since: nat, exe: Path) {
    forall k :: since <= k < |trace| ==> HasCopy(trace[k], exe)
  }

  ghost predicate CopiesAs(s: Files, orig: Files, exe: Path) {
    Lookup(s, exe) == Lookup(orig, exe) && Lookup(s, OldPath(exe)) == Lookup(orig, OldPath(exe))
  }

  /** t0 leads to orig, and what follows leaves both copies alone. */
  ghost predicate CopiesKept(orig: Files, t0: seq<Files>, t1: seq<Files>, exe: Path) {
    && t0 != [] && t0[|t0| - 1] == orig && t0 <= t1
    && forall k :: |t0| - 1 <= k < |t1| ==> CopiesAs(t1[k], orig, exe)
  }

  /** The ".old" copy stays as it was, unless it is cleared. */
  ghost predicate OldKept(trace: seq<Files>, since: nat, orig: Files, exe: Path, clears: bool) {
    !clears ==> forall k :: since <= k < |trace| ==> Lookup(trace[k], OldPath(exe)) == Lookup(orig, OldPath(exe))
  }

  /** What becomes of the two copies of the executable; a are the answers, if ApplyFn is reached. */
  ghost predicate CopiesOf(orig: Files, files: Files, exe: Path, dirs: set<Path>, trace: seq<Files>, since: nat,
                           a: Option<Answers>, newBytes: Bytes)
  {
    var clears := a.Some? && Clears(a.value);
    && since > 0
    && (exe in files <==> exe in orig && !(a.Some? && Strands(a.value, exe, dirs)))
    // if it was there, no crash on the way loses both the old and the new executable
    && (exe in orig ==> AllRecoverable(trace, since, exe, orig[exe], newBytes))
    // in general a copy stays exactly if there was one, in place or not cleared away
    && (AllHaveCopy(trace, since - 1, exe) <==> exe in orig || (OldPath(exe) in orig && !clears))
    && (exe !in orig ==> (OldPath(exe) in files <==> OldPath(exe) in orig && !clears))
    && (exe in orig && exe !in files ==> OldPath(exe) in files)
  }

  /** The states of an update: t0 before it, up to t1 its download, up to t2 its ApplyFn. */
  lemma CopiesThroughout(orig: Files, t0: seq<Files>, t1: seq<Files>, t2: seq<Files>, files: Files, exe: Path,
                         dirs: set<Path>, a: Option<Answers>, newBytes: Bytes)
    requires CopiesKept(orig, t0, t1, exe) && t1 <= t2 && t2[|t2| - 1] == files
    requires exe in orig ==> AllRecoverable(t2, |t1|, exe, orig[exe], newBytes)
    requires exe !in orig ==> OldKept(t2, |t1|, orig, exe, a.Some? && Clears(a.value))
    requires exe in files <==> exe in orig && !(a.Some? && Strands(a.value, exe, dirs))
    requires exe !in orig ==>
               (OldPath(exe) in files <==> OldPath(exe) in orig && !(a.Some? && Clears(a.value)))
    requires exe in orig && exe !in files ==> OldPath(exe) in files
    ensures t0 <= t2 && CopiesOf(orig, files, exe, dirs, t2, |t0|, a, newBytes)
  {
    assert t0 == t1[..|t0|] == t2[..|t1|][..|t0|] == t2[..|t0|];
    assert forall k :: |t0| - 1 <= k < |t1| ==> t2[k] == t2[..|t1|][k] == t1[k];
    if exe in orig {
      forall k | |t0| - 1 <= k < |t2| ensures Recoverable(t2[k], exe, orig[exe], newBytes) {
      }
      assert forall k :: |t0| - 1 <= k < |t2| && Recoverable(t2[k], exe, orig[exe], newBytes) ==> HasCopy(t2[k], exe);
    } else if OldPath(exe) in orig && !(a.Some? && Clears(a.value)) {
      forall k | |t0| - 1 <= k < |t2| ensures HasCopy(t2[k], exe) {
        assert Lookup(t2[k], OldPath(exe)) == Lookup(orig, OldPath(exe));
      }
    } else if a.Some? && Clears(a.value) {
      assert !HasCopy(t2[|t2| - 1], exe);
    } else {
      assert !HasCopy(t2[|t0| - 1], exe);
    }
  }

  /** The two renames and the rollback. The executable may be missing, after an earlier rollback that
      was refused. */
  method SwapBinaries(disk: Disk, exe: Path, downloaded: Path, a: Answers) returns (r: Result<(), ApplyError>)
    requires disk.Valid() && downloaded in disk.files
    requires downloaded != exe && downloaded != OldPath(exe)
    modifies disk`files, disk`trace
    ensures disk.Valid() && old(disk.trace) <= disk.trace
    ensures r == SwapResult(a, exe in old(disk.files), exe, disk.dirs)
    ensures r.Ok? <==> a.setsAside && a.movesIn && exe in old(disk.files) && exe !in disk.dirs
                       && exe + ".old" !in disk.dirs
    ensures exe !in old(disk.files) ==> disk.trace == old(disk.trace)
    ensures exe in old(disk.files) ==>
              AllRecoverable(disk.trace, |old(disk.trace)|, exe, old(disk.files)[exe], old(disk.files[downloaded]))
    ensures r.Ok? ==>
              && Lookup(disk.files, exe) == Some(old(disk.files[downloaded]))
              && SameElsewhere(disk.files, old(disk.files) - {downloaded}, exe)
              && OldPath(exe) in disk.files
    ensures r.Err? ==>
              && SameElsewhere(disk.files, old(disk.files), exe)
              && (exe in old(disk.files) ==>
                    var stranded := r == Err(MoveFailed) && !(a.putsBack && exe !in disk.dirs);
                    && Lookup(disk.files, if stranded then OldPath(exe) else exe) == Some(old(disk.files)[exe])
                    && (exe in disk.files <==> !stranded))
  {
    var oldPath := OldPath(exe);
    assert oldPath != exe;
    var moved := disk.RenameWhen(exe, oldPath, a.setsAside);
    if !moved {
      return Err(RenameFailed);
    }
    moved := disk.RenameWhen(downloaded, exe, a.movesIn);
    if !moved {
      var _ := disk.RenameWhen(oldPath, exe, a.putsBack);
      return Err(MoveFailed);
    }
    return Ok(());
  }

  lemma RecoverableJoin(t0: seq<Files>, t1: seq<Files>, t2: seq<Files>, exe: Path, oldBytes: Bytes, newBytes: Bytes)
    requires t0 <= t1 && t1 <= t2
    requires AllRecoverable(t1, |t0|, exe, oldBytes, newBytes) && AllRecoverable(t2, |t1|, exe, oldBytes, newBytes)
    ensures t0 <= t2 && AllRecoverable(t2, |t0|, exe, oldBytes, newBytes)
  {
    assert t0 == t1[..|t0|] == t2[..|t1|][..|t0|] == t2[..|t0|];
    forall k | |t0| <= k < |t2| ensures Recoverable(t2[k], exe, oldBytes, newBytes) {
      if k < |t1| {
        assert t2[k] == t2[..|t1|][k] == t1[k];
      }
    }
  }

  /** applyLightUpdate once the path and the signature are found good. */
  method ClearAndSwap(disk: Disk, exe: Path, downloaded: Path, a: Answers) returns (r: Result<(), ApplyError>)
    requires disk.Valid() && downloaded in disk.files && a.known && a.signed
    requires downloaded != exe && downloaded != OldPath(exe)
    modifies disk`files, disk`trace, disk`refusedRemovals
    ensures disk.Valid() && old(disk.trace) <= disk.trace
    ensures disk.refusedRemovals >= old(disk.refusedRemovals)
    ensures r == SwapResult(a, exe in old(disk.files), exe, disk.dirs)
    ensures r.Ok? ==>
              && Lookup(disk.files, exe) == Some(old(disk.files[downloaded]))
              && SameElsewhere(disk.files, old(disk.files) - {downloaded}, exe)
              && (OldPath(exe) in disk.files <==> !a.tidies)
    ensures r.Err? ==>
              && SameElsewhere(disk.files, old(disk.files), exe)
              && (exe in old(disk.files) ==>
                    Lookup(disk.files, if Strands(a, exe, disk.dirs) then OldPath(exe) else exe)
                    == Some(old(disk.files)[exe]))
    ensures exe in old(disk.files) ==>
              AllRecoverable(disk.trace, |old(disk.trace)|, exe, old(disk.files)[exe], old(disk.files[downloaded]))
    ensures exe in disk.files <==> exe in old(disk.files) && !Strands(a, exe, disk.dirs)
    ensures exe !in old(disk.files) ==>
              && OldKept(disk.trace, |old(disk.trace)|, old(disk.files), exe, a.clears)
              && (OldPath(exe) in disk.files <==> OldPath(exe) in old(disk.files) && !a.clears)
  {
    ghost var orig, t0, newBytes := disk.files, disk.trace, disk.files[downloaded];
    assert OldPath(exe) != exe;
    disk.RemoveWhen(OldPath(exe), a.clears);
    ghost var t1, files1 := disk.trace, disk.files;
    SameMinus(files1, orig, exe, downloaded);
    r := SwapBinaries(disk, exe, downloaded, a);
    if exe in orig {
      RecoverableJoin(t0, t1, disk.trace, exe, orig[exe], newBytes);
    }
    if r.Ok? {
      ghost var t2 := disk.trace;
      disk.RemoveWhen(OldPath(exe), a.tidies);
      RecoverableJoin(t0, t2, disk.trace, exe, orig[exe], newBytes);
    }
  }

  /** What it takes to replace the executable. */
  predicate Granted(a: Answers, exe: Path, files: Files, dirs: set<Path>) {
    && a.known && a.signed && a.setsAside && a.movesIn
    && exe in files && exe !in dirs && exe + ".old" !in dirs
  }

  /** applyLightUpdate. */
  method ApplyLightUpdate(disk: Disk, exe: Path, downloaded: Path, a: Answers) returns (r: Result<(), ApplyError>)
    requires disk.Valid() && downloaded in disk.files
    requires downloaded != exe && downloaded != OldPath(exe)
    modifies disk`files, disk`trace, disk`refusedRemovals
    ensures disk.Valid() && old(disk.trace) <= disk.trace
    ensures disk.refusedRemovals >= old(disk.refusedRemovals)
    ensures r == ApplyResult(a, exe in old(disk.files), exe, disk.dirs)
    // the removals decide nothing, nor does the answer to the rollback
    ensures r.Ok? <==> && a.known && a.signed && a.setsAside && a.movesIn
                       && exe in old(disk.files) && exe !in disk.dirs && exe + ".old" !in disk.dirs
    ensures (r == Err(NoExecutable) <==> !a.known) && (r == Err(BadSignature) <==> a.known && !a.signed)
    // an executable that was there is missing afterwards only if neither it nor the new one could be put there
    ensures exe in old(disk.files) && exe !in disk.files ==>
              && a.known && a.signed && a.setsAside
              && (exe in disk.dirs || (!a.movesIn && !a.putsBack))
    // a copy stays exactly if it was in place, or the ".old" one was there and its removal is not reached or granted
    ensures AllHaveCopy(disk.trace, |old(disk.trace)| - 1, exe)
            <==> exe in old(disk.files) || (exe + ".old" in old(disk.files) && !(a.known && a.signed && a.clears))
    ensures r.Ok? ==>
              && Lookup(disk.files, exe) == Some(old(disk.files[downloaded]))
              && SameElsewhere(disk.files, old(disk.files) - {downloaded}, exe)
              && (OldPath(exe) in disk.files <==> !a.tidies)
    ensures r.Err? ==>
              && SameElsewhere(disk.files, old(disk.files), exe)
              && (exe in old(disk.files) ==>
                    Lookup(disk.files, if Strands(a, exe, disk.dirs) then OldPath(exe) else exe)
                    == Some(old(disk.files)[exe]))
    // a missing executable is not put back, and its only copy is removed unless that is refused
    ensures exe !in old(disk.files) ==> OldKept(disk.trace, |old(disk.trace)|, old(disk.files), exe, Clears(a))
    ensures CopiesOf(old(disk.files), disk.files, exe, disk.dirs, disk.trace, |old(disk.trace)|, Some(a),
                     old(disk.files[downloaded]))
  {
    ghost var orig, t0, newBytes := disk.files, disk.trace, disk.files[downloaded];
    assert OldPath(exe) != exe;
    if !a.known {
      CopiesThroughout(orig, t0, t0, t0, orig, exe, disk.dirs, Some(a), newBytes);
      return Err(NoExecutable);
    }
    if !a.signed {
      CopiesThroughout(orig, t0, t0, t0, orig, exe, disk.dirs, Some(a), newBytes);
      return Err(BadSignature);
    }
    r := ClearAndSwap(disk, exe, downloaded, a);
    CopiesThroughout(orig, t0, t0, disk.trace, disk.files, exe, disk.dirs, Some(a), newBytes);
  }

  // ---- the pipeline --------------------------------------------------------------

  class SingleFlight {
    var inFlight: bool

    constructor ()
      ensures !inFlight
    {
      inFlight := false;
    }

    method TryBegin() returns (ok: bool)
      modifies this
      ensures ok == !old(inFlight) && inFlight
    {
      if inFlight {
        return false;
      }
      inFlight := true;
      return true;
    }

    method End()
      modifies this
      ensures !inFlight
    {
      inFlight := false;
    }
  }

  /** One call of ApplyFn, and what the operating system answered to it. */
  datatype Application = Application(file: Bytes, args: UpdateArgs, answers: Answers)

  /** What Update did that the rest of the machine can see. */
  datatype Event = SessionChecked(active: bool) | Applied(application: Application)

  /** The two session checks find a session or not; answers are what the operating system answers if the
      update gets to its ApplyFn. */
  datatype Request = Request(
    response: Download.Response, args: UpdateArgs, busyBefore: bool, busyAfter: bool, answers: Answers)

  function ApplicationOf(q: Request): Application {
    Application(Download.Body(q.response), q.args, q.answers)
  }

  datatype UpdateError =
    | InProgress
    | BadArgs(a: ArgsError)
    | SessionActive
    | DownloadFailed(d: Download.DownloadError)
    | NoApplyFn
    | ApplyFailed(e: ApplyError)

  class Manager {
    const cfg: Config
    const flight: SingleFlight
    const hasApplyFn: bool
    const hasSessionFn: bool
    // where the running executable is, or should be
    const exe: Path
    // where downloads are staged
    const stagingDir: Path
    ghost var events: seq<Event>

    function StagingPattern(): Pattern {
      Pattern(stagingDir + "\\fleet-agent-update-", ".exe")
    }

    /** The executable is not named like a staged download. */
    ghost predicate Apart() {
      !Matches(exe, StagingPattern())
    }

    function Staged(response: Download.Response): Download.Plan {
      Download.PlanOf(response, MAX_DOWNLOAD_BYTES, StagingPattern())
    }

    constructor (cfg: Config, hasApplyFn: bool, hasSessionFn: bool, exe: Path, stagingDir: Path)
      requires !Matches(exe, Pattern(stagingDir + "\\fleet-agent-update-", ".exe"))
      ensures Apart()
      ensures this.cfg == cfg && this.exe == exe && this.stagingDir == stagingDir && events == []
      ensures this.hasApplyFn == hasApplyFn && this.hasSessionFn == hasSessionFn
      ensures fresh(flight) && !flight.inFlight
    {
      this.cfg, this.exe, this.stagingDir := cfg, exe, stagingDir;
      this.hasApplyFn, this.hasSessionFn := hasApplyFn, hasSessionFn;
      events := [];
      flight := new SingleFlight();
    }

    /** SessionActiveFn; without one no session is ever reported. */
    method SessionIsActive(busy: bool) returns (active: bool)
      modifies this`events
      ensures active == (hasSessionFn && busy)
      ensures !hasSessionFn ==> events == old(events)
      ensures hasSessionFn ==> events == old(events) + [SessionChecked(active)]
    {
      if !hasSessionFn {
        return false;
      }
      active := busy;
      events := events + [SessionChecked(active)];
    }

    function ParamsOf(args: UpdateArgs): Download.Params {
      Download.Params(args.sha256, MAX_DOWNLOAD_BYTES, StagingPattern())
    }

    /** What it takes to get to ApplyFn. */
    ghost predicate Reaches(sha: Bytes -> Verify.Digest, hostOf: string -> Option<string>, q: Request) {
      && Trusted(cfg, hostOf, q.args)
      && (hasSessionFn ==> !q.busyBefore && !q.busyAfter)
      && Download.Good(sha, q.response, Download.Params(q.args.sha256, 200 * 1024 * 1024, StagingPattern()))
      && hasApplyFn
    }

    /** The events of an update that reaches ApplyFn: both session checks said no. */
    ghost function UpToApply(x: Application): seq<Event> {
      (if hasSessionFn then [SessionChecked(false), SessionChecked(false)] else []) + [Applied(x)]
    }

    /** Only session checks were added to the events. */
    ghost predicate OnlyChecks(before: seq<Event>, after: seq<Event>) {
      before <= after && forall k :: |before| <= k < |after| ==> after[k].SessionChecked?
    }

    /** The last thing that happened was a session check that said yes. */
    ghost predicate SessionSeen(before: seq<Event>, after: seq<Event>) {
      |before| < |after| && after[|after| - 1] == SessionChecked(true)
    }

    /** Everything up to ApplyFn: arguments, session, download, session again. */
    method Stage(disk: Disk, sha: Bytes -> Verify.Digest, hostOf: string -> Option<string>, q: Request)
        returns (r: Result<Path, UpdateError>)
      requires disk.Valid()
      modifies this`events, disk
      ensures disk.Valid() && old(disk.trace) <= disk.trace && disk.refusedRemovals >= old(disk.refusedRemovals)
      ensures disk.dirs == old(disk.dirs)
      ensures Download.TracedByDownload(old(disk.files), disk.trace, |old(disk.trace)|, Staged(q.response))
      ensures OnlyChecks(old(events), events)
      ensures r.Err? && r.error.BadArgs? <==> !Trusted(cfg, hostOf, q.args)
      ensures r.Ok? ==> Reaches(sha, hostOf, q)
      ensures disk.smooth ==> (r.Ok? <==> Reaches(sha, hostOf, q))
      ensures r.Ok? ==>
                && q.response.Response?
                && r.value !in old(disk.files) && Matches(r.value, StagingPattern())
                && disk.files == old(disk.files)[r.value := Download.Body(q.response)]
                && disk.refusedRemovals == old(disk.refusedRemovals)
                && events == old(events) + (if hasSessionFn then [SessionChecked(false), SessionChecked(false)] else [])
      ensures r.Err? ==>
                && !r.error.InProgress? && !r.error.ApplyFailed?
                && (r.error.SessionActive? ==> SessionSeen(old(events), events))
                && (disk.files == old(disk.files) || disk.refusedRemovals > old(disk.refusedRemovals))
    {
      var valid := ValidateArgs(cfg, hostOf, q.args);
      AcceptedIffTrusted(cfg, hostOf, q.args);
      if valid.Err? {
        return Err(BadArgs(valid.error));
      }
      var active := SessionIsActive(q.busyBefore);
      if active {
        return Err(SessionActive);
      }
      r := Fetch(disk, sha, q);
    }

    /** The download, and the session again. */
    method Fetch(disk: Disk, sha: Bytes -> Verify.Digest, q: Request) returns (r: Result<Path, UpdateError>)
      requires disk.Valid()
      modifies this`events, disk
      ensures disk.Valid() && old(disk.trace) <= disk.trace && disk.refusedRemovals >= old(disk.refusedRemovals)
      ensures disk.dirs == old(disk.dirs)
      ensures Download.TracedByDownload(old(disk.files), disk.trace, |old(disk.trace)|, Staged(q.response))
      ensures OnlyChecks(old(events), events)
      ensures r.Ok? ==> Download.Good(sha, q.response, ParamsOf(q.args))
      ensures disk.smooth ==>
                (r.Err? && r.error.DownloadFailed? <==> !Download.Good(sha, q.response, ParamsOf(q.args)))
      // after a download that succeeded
      ensures !(r.Err? && r.error.DownloadFailed?) ==>
                && (r == Err(NoApplyFn) <==> !hasApplyFn)
                && (r == Err(SessionActive) <==> hasApplyFn && hasSessionFn && q.busyAfter)
      ensures r.Ok? ==>
                && q.response.Response?
                && r.value !in old(disk.files) && Matches(r.value, StagingPattern())
                && disk.files == old(disk.files)[r.value := Download.Body(q.response)]
                && disk.refusedRemovals == old(disk.refusedRemovals)
                && events == old(events) + (if hasSessionFn then [SessionChecked(false)] else [])
      ensures r.Err? ==>
                && (r.error.DownloadFailed? || r.error.NoApplyFn? || r.error.SessionActive?)
                && (r.error.SessionActive? ==> SessionSeen(old(events), events))
                && (disk.files == old(disk.files) || disk.refusedRemovals > old(disk.refusedRemovals))
    {
      var staged := Download.DownloadVerified(disk, sha, q.response, ParamsOf(q.args));
      if staged.Err? {
        return Err(DownloadFailed(staged.error));
      }
      var path := staged.value;
      if !hasApplyFn {
        Download.Discard(disk, path, old(disk.files), old(disk.trace), Staged(q.response));
        return Err(NoApplyFn);
      }
      var active := SessionIsActive(q.busyAfter);
      if active {
        Download.Discard(disk, path, old(disk.files), old(disk.trace), Staged(q.response));
        return Err(SessionActive);
      }
      return Ok(path);
    }

    /** ApplyFn on the staged file, which is removed when it fails. */
    method CallApplyFn(disk: Disk, path: Path, args: UpdateArgs, a: Answers, ghost orig: Files)
        returns (r: Result<(), UpdateError>)
      requires disk.Valid() && path !in orig && Matches(path, StagingPattern()) && Apart()
      requires path in disk.files && disk.files == orig[path := disk.files[path]]
      modifies this`events, disk`files, disk`trace, disk`refusedRemovals
      ensures disk.Valid() && old(disk.trace) <= disk.trace && disk.refusedRemovals >= old(disk.refusedRemovals)
      ensures events == old(events) + [Applied(Application(old(disk.files[path]), args, a))]
      ensures r == Reported(ApplyResult(a, exe in orig, exe, disk.dirs))
      ensures exe in orig ==>
                AllRecoverable(disk.trace, |old(disk.trace)|, exe, orig[exe], old(disk.files[path]))
      ensures exe !in orig ==> OldKept(disk.trace, |old(disk.trace)|, orig, exe, Clears(a))
      ensures r.Ok? ==> Lookup(disk.files, exe) == Some(old(disk.files[path]))
      ensures SameElsewhere(disk.files, orig, exe) || disk.refusedRemovals > old(disk.refusedRemovals)
      ensures r.Err? && exe in orig ==>
                Lookup(disk.files, if Strands(a, exe, disk.dirs) then OldPath(exe) else exe) == Some(orig[exe])
      ensures exe in disk.files <==> exe in orig && !Strands(a, exe, disk.dirs)
      ensures exe !in orig ==> (OldPath(exe) in disk.files <==> OldPath(exe) in orig && !Clears(a))
    {
      events := events + [Applied(Application(disk.files[path], args, a))];
      OldIsNotExe(exe, path);
      var applied := ApplyLightUpdate(disk, exe, path, a);
      assert orig[path := old(disk.files[path])] - {path} == orig;
      if applied.Err? {
        ghost var trace := disk.trace;
        SameMinus(disk.files, old(disk.files), exe, path);
        disk.Remove(path);
        if exe in orig {
          RecoverableJoin(old(disk.trace), trace, disk.trace, exe, orig[exe], old(disk.files[path]));
        }
        return Err(ApplyFailed(applied.error));
      }
      return Ok(());
    }

    /** The same, after a download that left both copies alone. */
    method Commit(disk: Disk, path: Path, args: UpdateArgs, a: Answers, ghost orig: Files, ghost t0: seq<Files>)
        returns (r: Result<(), UpdateError>)
      requires disk.Valid() && path !in orig && Matches(path, StagingPattern()) && Apart()
      requires path in disk.files && disk.files == orig[path := disk.files[path]]
      requires CopiesKept(orig, t0, disk.trace, exe)
      modifies this`events, disk`files, disk`trace, disk`refusedRemovals
      ensures disk.Valid() && t0 <= disk.trace
      ensures events == old(events) + [Applied(Application(old(disk.files[path]), args, a))]
      ensures r == Reported(ApplyResult(a, exe in orig, exe, disk.dirs))
      ensures r.Ok? ==> Lookup(disk.files, exe) == Some(old(disk.files[path]))
      ensures SameElsewhere(disk.files, orig, exe) || disk.refusedRemovals > old(disk.refusedRemovals)
      ensures disk.refusedRemovals >= old(disk.refusedRemovals)
      ensures r.Err? && exe in orig ==>
                Lookup(disk.files, if Strands(a, exe, disk.dirs) then OldPath(exe) else exe) == Some(orig[exe])
      ensures CopiesOf(orig, disk.files, exe, disk.dirs, disk.trace, |t0|, Some(a), old(disk.files[path]))
    {
      r := CallApplyFn(disk, path, args, a, orig);
      CopiesThroughout(orig, t0, old(disk.trace), disk.trace, disk.files, exe, disk.dirs, Some(a),
                       old(disk.files[path]));
    }

    /** ApplyFn is reached at most once, only with the authentic body of trusted arguments, and with no
        session at either check; ran tells whether it is. */
    ghost predicate EventsOf(before: seq<Event>, after: seq<Event>, sha: Bytes -> Verify.Digest,
                             hostOf: string -> Option<string>, q: Request, ran: bool)
    {
      if !ran then OnlyChecks(before, after)
      else
        && q.response.Response?
        && after == before + UpToApply(ApplicationOf(q))
        && Verify.HexEncode(sha(Download.Body(q.response))) == q.args.sha256
        && |Download.Body(q.response)| <= 200 * 1024 * 1024
        && Trusted(cfg, hostOf, q.args)
    }

    /** The part of Update inside the single-flight slot. */
    method Perform(disk: Disk, sha: Bytes -> Verify.Digest, hostOf: string -> Option<string>, q: Request)
        returns (r: Result<(), UpdateError>)
      requires disk.Valid() && Apart()
      modifies this`events, disk
      ensures disk.Valid() && old(disk.trace) <= disk.trace && disk.dirs == old(disk.dirs)
      ensures r.Err? ==> !r.error.InProgress?
      ensures r.Err? && r.error.BadArgs? <==> !Trusted(cfg, hostOf, q.args)
      ensures r == Err(SessionActive) ==> SessionSeen(old(events), events)
      ensures EventsOf(old(events), events, sha, hostOf, q, Ran(r))
      ensures Ran(r) ==> r == Reported(ApplyResult(q.answers, exe in old(disk.files), exe, disk.dirs))
      ensures Ran(r) ==> Reaches(sha, hostOf, q)
      ensures disk.smooth ==> (Ran(r) <==> Reaches(sha, hostOf, q))
      ensures Ran(r) ==> (r.Ok? <==> Granted(q.answers, exe, old(disk.files), disk.dirs))
      ensures r.Ok? ==> Lookup(disk.files, exe) == Some(Download.Body(q.response))
      ensures SameElsewhere(disk.files, old(disk.files), exe) || disk.refusedRemovals > old(disk.refusedRemovals)
      ensures r.Err? && exe in old(disk.files) ==>
                Lookup(disk.files, if Ran(r) && Strands(q.answers, exe, disk.dirs) then OldPath(exe) else exe)
                == Some(old(disk.files)[exe])
      ensures CopiesOf(old(disk.files), disk.files, exe, disk.dirs, disk.trace, |old(disk.trace)|,
                       if Ran(r) then Some(q.answers) else None, Download.Body(q.response))
    {
      ghost var orig, t0 := disk.files, disk.trace;
      var staged := Stage(disk, sha, hostOf, q);
      DownloadKeepsCopies(orig, t0, disk.trace, Staged(q.response));
      if staged.Err? {
        KeptCopies(orig, t0, disk.trace, disk.files, exe, disk.dirs, Download.Body(q.response));
        return Err(staged.error);
      }
      assert disk.files[staged.value] == Download.Body(q.response);
      AppliedLast(old(events), ApplicationOf(q));
      r := Commit(disk, staged.value, q.args, q.answers, orig, t0);
    }

    lemma AppliedLast(before: seq<Event>, x: Application)
      ensures before + (if hasSessionFn then [SessionChecked(false), SessionChecked(false)] else [])
              + [Applied(x)] == before + UpToApply(x)
    {
    }

    /** update.Manager.Update. */
    method Update(disk: Disk, sha: Bytes -> Verify.Digest, hostOf: string -> Option<string>, q: Request)
        returns (r: Result<(), UpdateError>)
      requires disk.Valid() && Apart()
      modifies this`events, flight, disk
      ensures disk.Valid() && old(disk.trace) <= disk.trace && disk.dirs == old(disk.dirs)
      // single flight: refused exactly while another update holds the slot, which is free again after
      ensures flight.inFlight == old(flight.inFlight)
      ensures old(flight.inFlight) <==> r == Err(InProgress)
      ensures r == Err(InProgress) ==> disk.trace == old(disk.trace) && events == old(events)
      ensures !old(flight.inFlight) ==> (r.Err? && r.error.BadArgs? <==> !Trusted(cfg, hostOf, q.args))
      ensures r == Err(SessionActive) ==> SessionSeen(old(events), events)
      // the events tell whether ApplyFn was reached; if so the answers decide
      ensures EventsOf(old(events), events, sha, hostOf, q, Ran(r))
      ensures Ran(r) ==> r == Reported(ApplyResult(q.answers, exe in old(disk.files), exe, disk.dirs))
      ensures Ran(r) ==> Reaches(sha, hostOf, q)
      ensures disk.smooth && !old(flight.inFlight) ==> (Ran(r) <==> Reaches(sha, hostOf, q))
      ensures Ran(r) ==> (r.Ok? <==> Granted(q.answers, exe, old(disk.files), disk.dirs))
      ensures r.Ok? ==> Lookup(disk.files, exe) == Some(Download.Body(q.response))
      // nothing staged remains
      ensures SameElsewhere(disk.files, old(disk.files), exe) || disk.refusedRemovals > old(disk.refusedRemovals)
      // after an error the old executable is in place, or beside it if it was stranded
      ensures r.Err? && exe in old(disk.files) ==>
                Lookup(disk.files, if Ran(r) && Strands(q.answers, exe, disk.dirs) then OldPath(exe) else exe)
                == Some(old(disk.files)[exe])
      ensures CopiesOf(old(disk.files), disk.files, exe, disk.dirs, disk.trace, |old(disk.trace)|,
                       if Ran(r) then Some(q.answers) else None, Download.Body(q.response))
    {
      var begun := flight.TryBegin();
      if !begun {
        KeptCopies(disk.files, disk.trace, disk.trace, disk.files, exe, disk.dirs, Download.Body(q.response));
        return Err(InProgress);
      }
      r := Perform(disk, sha, hostOf, q);
      flight.End();
    }

    /** A download in progress leaves both copies of the executable alone. */
    lemma DownloadKeepsCopies(orig: Files, t0: seq<Files>, t1: seq<Files>, plan: Download.Plan)
      requires Apart() && plan.pattern == StagingPattern()
      requires t0 != [] && t0[|t0| - 1] == orig && t0 <= t1
      requires Download.TracedByDownload(orig, t1, |t0|, plan)
      ensures CopiesKept(orig, t0, t1, exe)
    {
      forall k | |t0| - 1 <= k < |t1| ensures CopiesAs(t1[k], orig, exe) {
        if k == |t0| - 1 {
          assert t1[k] == t1[..|t0|][k];
        } else {
          OldNeverMatches(exe, plan.pattern);
          Download.DownloadStateKeeps(orig, t1[k], plan, exe);
          Download.DownloadStateKeeps(orig, t1[k], plan, OldPath(exe));
        }
      }
    }

    /** Any updates one after the other; results are theirs. */
    method UpdateAll(disk: Disk, sha: Bytes -> Verify.Digest, hostOf: string -> Option<string>,
                     requests: seq<Request>)
        returns (results: seq<Result<(), UpdateError>>)
      requires disk.Valid() && Apart()
      modifies this`events, flight, disk
      ensures disk.Valid() && |results| == |requests| && old(disk.trace) <= disk.trace
      ensures disk.dirs == old(disk.dirs)
      // the results tell the truth: those that say so, and no others, got to ApplyFn, in this order
      ensures Applications(events) == Applications(old(events)) + Applying(requests, results)
      // the executable is in place exactly if it was and no answer stranded it
      ensures exe in disk.files
              <==> exe in old(disk.files)
                   && NoneStranded(Applying(requests, results), |Applying(requests, results)|, exe, disk.dirs)
      // a copy of it is there in every state exactly if one was, and none was cleared away while the
      // executable was missing
      ensures AllHaveCopy(disk.trace, |old(disk.trace)| - 1, exe)
              <==> HasCopy(old(disk.files), exe)
                   && NoneClearedWhileMissing(exe in old(disk.files), Applying(requests, results), exe, disk.dirs)
    {
      results := [];
      ghost var orig, t0, dirs, done := disk.files, disk.trace, disk.dirs, [];
      assert requests[..0] == [];
      for i := 0 to |requests|
        invariant disk.Valid() && |results| == i && t0 <= disk.trace && disk.dirs == dirs
        invariant done == Applying(requests[..i], results)
        invariant Applications(events) == Applications(old(events)) + done
        invariant Standing(orig, disk.files, t0, disk.trace, done, exe, dirs)
      {
        var r := UpdateNext(disk, sha, hostOf, requests[i], orig, t0, done);
        ApplyingSnoc(requests, results, i, r);
        done := done + (if Ran(r) then [ApplicationOf(requests[i])] else []);
        results := results + [r];
      }
      assert requests[..|requests|] == requests;
    }

    /** One of them, after those in done. */
    method UpdateNext(disk: Disk, sha: Bytes -> Verify.Digest, hostOf: string -> Option<string>, q: Request,
                      ghost orig: Files, ghost t0: seq<Files>, ghost done: seq<Application>)
        returns (r: Result<(), UpdateError>)
      requires disk.Valid() && Apart() && t0 <= disk.trace
      requires Standing(orig, disk.files, t0, disk.trace, done, exe, disk.dirs)
      modifies this`events, flight, disk
      ensures disk.Valid() && t0 <= disk.trace && disk.dirs == old(disk.dirs)
      ensures Applications(events) == Applications(old(events)) + (if Ran(r) then [ApplicationOf(q)] else [])
      ensures Standing(orig, disk.files, t0, disk.trace, done + (if Ran(r) then [ApplicationOf(q)] else []), exe,
                       disk.dirs)
    {
      ghost var trace, files, before := disk.trace, disk.files, events;
      r := Update(disk, sha, hostOf, q);
      EventsApplied(before, events, sha, hostOf, q, Ran(r));
      StandingStep(orig, files, disk.files, t0, trace, disk.trace, done, q, Ran(r), exe, disk.dirs);
    }

    lemma EventsApplied(before: seq<Event>, after: seq<Event>, sha: Bytes -> Verify.Digest,
                        hostOf: string -> Option<string>, q: Request, ran: bool)
      requires EventsOf(before, after, sha, hostOf, q, ran)
      ensures Applications(after) == Applications(before) + (if ran then [ApplicationOf(q)] else [])
    {
      if ran {
        var checks := if hasSessionFn then [SessionChecked(false), SessionChecked(false)] else [];
        assert after[..|after| - 1] == before + checks;
        ChecksOnly(before, before + checks);
      } else {
        ChecksOnly(before, after);
      }
    }

    lemma {:induction false} ChecksOnly(before: seq<Event>, after: seq<Event>)
      requires OnlyChecks(before, after)
      ensures Applications(after) == Applications(before)
      decreases |after|
    {
      if |before| < |after| {
        ChecksOnly(before, after[..|after| - 1]);
      } else {
        assert before == after;
      }
    }
  }

  /** What update.Manager makes of ApplyFn's result. */
  function Reported(applied: Result<(), ApplyError>): Result<(), UpdateError> {
    if applied.Err? then Err(ApplyFailed(applied.error)) else Ok(())
  }

  /** The result is that of an update that got to its ApplyFn. */
  predicate Ran(r: Result<(), UpdateError>) {
    r.Ok? || r.error.ApplyFailed?
  }

  function Applications(events: seq<Event>): seq<Application> {
    if events == [] then []
    else
      var e := events[|events| - 1];
      Applications(events[..|events| - 1]) + (if e.Applied? then [e.application] else [])
  }

  /** The requests that got to ApplyFn, in order. */
  function Applying(requests: seq<Request>, results: seq<Result<(), UpdateError>>): seq<Application>
    requires |requests| == |results|
  {
    if requests == [] then []
    else
      var m := |requests| - 1;
      Applying(requests[..m], results[..m]) + (if Ran(results[m]) then [ApplicationOf(requests[m])] else [])
  }

  lemma ApplyingSnoc(requests: seq<Request>, results: seq<Result<(), UpdateError>>, i: nat, r: Result<(), UpdateError>)
    requires i < |requests| && |results| == i
    ensures Applying(requests[..i + 1], results + [r])
            == Applying(requests[..i], results) + (if Ran(r) then [ApplicationOf(requests[i])] else [])
  {
    assert requests[..i + 1][..i] == requests[..i];
    assert (results + [r])[..i] == results;
  }

  lemma KeptCopies(orig: Files, t0: seq<Files>, t1: seq<Files>, files: Files, exe: Path, dirs: set<Path>,
                   newBytes: Bytes)
    requires CopiesKept(orig, t0, t1, exe) && t1[|t1| - 1] == files
    ensures CopiesOf(orig, files, exe, dirs, t1, |t0|, None, newBytes)
    ensures exe in orig ==> Lookup(files, exe) == Some(orig[exe])
  {
    assert CopiesAs(t1[|t1| - 1], orig, exe);
    CopiesThroughout(orig, t0, t1, t1, files, exe, dirs, None, newBytes);
  }

  lemma CopyJoin(t0: seq<Files>, t1: seq<Files>, t2: seq<Files>, exe: Path)
    requires t0 != [] && t0 <= t1 <= t2
    ensures t0 <= t2
    ensures AllHaveCopy(t2, |t0| - 1, exe)
            <==> AllHaveCopy(t1, |t0| - 1, exe) && AllHaveCopy(t2, |t1| - 1, exe)
  {
    assert t0 == t1[..|t0|] == t2[..|t1|][..|t0|] == t2[..|t0|];
    assert forall k :: 0 <= k < |t1| ==> t2[k] == t2[..|t1|][k] == t1[k];
  }

  /** None of the first n applications stranded the executable. */
  predicate NoneStranded(done: seq<Application>, n: nat, exe: Path, dirs: set<Path>)
    requires n <= |done|
  {
    forall i :: 0 <= i < n ==> !Strands(done[i].answers, exe, dirs)
  }

  /** None cleared the ".old" copy after the executable had gone missing. */
  predicate NoneClearedWhileMissing(present: bool, done: seq<Application>, exe: Path, dirs: set<Path>) {
    forall j :: 0 <= j < |done| && Clears(done[j].answers) ==> present && NoneStranded(done, j, exe, dirs)
  }

  lemma OneMoreApplication(present: bool, done: seq<Application>, x: Application, exe: Path, dirs: set<Path>)
    ensures NoneStranded(done + [x], |done| + 1, exe, dirs)
            <==> NoneStranded(done, |done|, exe, dirs) && !Strands(x.answers, exe, dirs)
    ensures NoneClearedWhileMissing(present, done + [x], exe, dirs)
            <==> NoneClearedWhileMissing(present, done, exe, dirs)
                 && (Clears(x.answers) ==> present && NoneStranded(done, |done|, exe, dirs))
  {
    var done' := done + [x];
    assert forall i :: 0 <= i < |done| ==> done'[i] == done[i];
    assert done'[|done|] == x;
    forall j | 0 <= j <= |done| ensures NoneStranded(done', j, exe, dirs) <==> NoneStranded(done, j, exe, dirs) {
    }
    if NoneStranded(done', |done| + 1, exe, dirs) {
      assert !Strands(done'[|done|].answers, exe, dirs);
      assert NoneStranded(done', |done|, exe, dirs);
    }
    if NoneClearedWhileMissing(present, done', exe, dirs) {
      forall j | 0 <= j < |done| && Clears(done[j].answers) ensures present && NoneStranded(done, j, exe, dirs) {
        assert Clears(done'[j].answers);
      }
    }
  }

  /** How things stand after the applications so far, from orig on. */
  ghost predicate Standing(orig: Files, files: Files, t0: seq<Files>, trace: seq<Files>, done: seq<Application>,
                           exe: Path, dirs: set<Path>)
  {
    var kept := HasCopy(orig, exe) && NoneClearedWhileMissing(exe in orig, done, exe, dirs);
    && t0 != []
    && (exe in files <==> exe in orig && NoneStranded(done, |done|, exe, dirs))
    && (AllHaveCopy(trace, |t0| - 1, exe) <==> kept)
    && (exe !in files ==> (OldPath(exe) in files <==> kept))
  }

  lemma StandingStep(orig: Files, files: Files, files': Files, t0: seq<Files>, t1: seq<Files>, t2: seq<Files>,
                     done: seq<Application>, q: Request, ran: bool, exe: Path, dirs: set<Path>)
    requires Standing(orig, files, t0, t1, done, exe, dirs) && t0 <= t1 && t1 <= t2
    requires CopiesOf(files, files', exe, dirs, t2, |t1|, if ran then Some(q.answers) else None,
                      Download.Body(q.response))
    ensures t0 <= t2
    ensures Standing(orig, files', t0, t2, done + (if ran then [ApplicationOf(q)] else []), exe, dirs)
  {
    CopyJoin(t0, t1, t2, exe);
    OneMoreApplication(exe in orig, done, ApplicationOf(q), exe, dirs);
    assert done + [] == done;
  }

  lemma OldNeverMatches(exe: Path, pattern: Pattern)
    requires pattern.after == ".exe"
    ensures !Matches(OldPath(exe), pattern)
  {
    if Matches(OldPath(exe), pattern) {
      OldIsNotExe(exe, OldPath(exe));
    }
  }

  lemma OldIsNotExe(exe: Path, path: Path)
    requires HasSuffix(path, ".exe")
    ensures path != OldPath(exe)
  {
    assert HasSuffix(OldPath(exe), ".old");
    OneSuffix(path, ".exe", ".old");
  }
}
