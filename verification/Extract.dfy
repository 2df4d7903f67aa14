/** extractZip and extractZipFile: unpacking an engine package over its install directory. */
module Extract {
  import opened Wrappers
  import opened FileSystem
  import Paths

  /** content is what the entry yields when it is read to its end without an error. */
  datatype Entry = Entry(name: string, dirBit: bool, content: Bytes)

  predicate IsDir(e: Entry) {
    e.dirBit || (e.name != "" && e.name[|e.name| - 1] == '/')
  }

  /** An install directory: volume name and the components below the volume's root. */
  datatype Dest = Dest(volume: string, comps: seq<string>)

  predicate Accepted(d: Dest, e: Entry) {
    Paths.Accepted(d.volume, d.comps, e.name)
  }

  /** The first n entries all pass the guard. */
  predicate AllAccepted(d: Dest, entries: seq<Entry>, n: nat)
    requires n <= |entries|
  {
    forall i :: 0 <= i < n ==> Accepted(d, entries[i])
  }

  /** What an entry does to the files: nothing for a directory, otherwise the complete content
      appears at its target. */
  datatype Op = Nothing | Put(target: Path, content: Bytes)

  function OpOf(d: Dest, e: Entry): Op {
    if IsDir(e) then Nothing else Put(Paths.Join(d.volume, d.comps, e.name), e.content)
  }

  function Ops(d: Dest, entries: seq<Entry>): (ops: seq<Op>)
    ensures |ops| == |entries|
    ensures forall i :: 0 <= i < |ops| ==> ops[i] == OpOf(d, entries[i])
  {
    seq(|entries|, i requires 0 <= i < |entries| => OpOf(d, entries[i]))
  }

  function Temp(op: Op): Path
    requires op.Put?
  {
    op.target + ".tmp"
  }

  function Apply(files: Files, op: Op): Files {
    match op
    case Nothing => files
    case Put(target, content) => (files - {Temp(op)})[target := content]
  }

  /** The files after the entries, in order. */
  function Extracted(files: Files, ops: seq<Op>): Files {
    if ops == [] then files
    else Apply(Extracted(files, ops[..|ops| - 1]), ops[|ops| - 1])
  }

  predicate AgreeOff(a: Files, b: Files, p: Path) {
    a - {p} == b - {p}
  }

  /** s is what the first n entries make of orig, except that the temporary file of the next entry
      may be there in any shape. Only accepted entries have been looked at. */
  ghost predicate PrefixState(orig: Files, d: Dest, entries: seq<Entry>, n: nat, s: Files) {
    && n <= |entries|
    && AllAccepted(d, entries, n)
    && var before := Extracted(orig, Ops(d, entries[..n]));
       || s == before
       || (n < |entries| && Accepted(d, entries[n]) && !IsDir(entries[n])
           && AgreeOff(s, before, Temp(OpOf(d, entries[n]))))
  }

  ghost predicate SomePrefixState(orig: Files, d: Dest, entries: seq<Entry>, s: Files) {
    exists n :: PrefixState(orig, d, entries, n, s)
  }

  // ---- the code ------------------------------------------------------------

  datatype Stage = OpenEntry | OpenTemp | Copy | Close | Rename

  /** Whether the temporary file exists when a stage fails. */
  predicate Staged(s: Stage) {
    s.Copy? || s.Close? || s.Rename?
  }

  /** The temporary file is in some shape, or everything is in place. */
  predicate StagingState(before: Files, op: Op, s: Files)
    requires op.Put?
  {
    AgreeOff(s, before, Temp(op)) || s == Apply(before, op)
  }

  /** Every state since `since` is one of staging the entry. */
  predicate TracedByStaging(before: Files, op: Op, trace: seq<Files>, since: nat)
    requires op.Put?
  {
    forall k :: since <= k < |trace| ==> StagingState(before, op, trace[k])
  }

  lemma StagingJoin(before: Files, op: Op, t0: seq<Files>, t1: seq<Files>, t2: seq<Files>)
    requires op.Put? && t0 <= t1 && t1 <= t2
    requires TracedByStaging(before, op, t1, |t0|) && TracedByStaging(before, op, t2, |t1|)
    ensures t0 <= t2 && TracedByStaging(before, op, t2, |t0|)
  {
    assert t0 == t1[..|t0|] == t2[..|t1|][..|t0|] == t2[..|t0|];
    assert forall k :: |t0| <= k < |t1| ==> t2[k] == t2[..|t1|][k] == t1[k];
  }

  /** io.Copy of the entry into the open temporary file, in pieces of any size. */
  method CopyEntry(disk: Disk, tmp: Path, content: Bytes, ghost op: Op, ghost orig: Files, ghost t0: seq<Files>)
      returns (ok: bool)
    requires disk.Valid() && op.Put? && tmp == Temp(op) && tmp in disk.files && disk.files[tmp] == []
    requires AgreeOff(disk.files, orig, tmp) && t0 <= disk.trace && TracedByStaging(orig, op, disk.trace, |t0|)
    modifies disk`files, disk`trace
    ensures disk.Valid() && t0 <= disk.trace && TracedByStaging(orig, op, disk.trace, |t0|)
    ensures AgreeOff(disk.files, orig, tmp) && tmp in disk.files
    ensures ok ==> disk.files[tmp] == content
    ensures disk.smooth ==> ok
  {
    var copied := 0;
    while copied < |content|
      invariant 0 <= copied <= |content|
      invariant disk.Valid() && t0 <= disk.trace && TracedByStaging(orig, op, disk.trace, |t0|)
      invariant AgreeOff(disk.files, orig, tmp)
      invariant tmp in disk.files && disk.files[tmp] == content[..copied]
    {
      var n: int := *;
      if n <= 0 || n > |content| - copied {
        n := |content| - copied;
      }
      var broken := disk.Trouble();
      if broken {
        return false;
      }
      ghost var trace := disk.trace;
      var wrote := disk.Append(tmp, content[copied..copied + n]);
      StagingJoin(orig, op, t0, trace, disk.trace);
      if !wrote {
        return false;
      }
      assert content[..copied] + content[copied..copied + n] == content[..copied + n];
      copied := copied + n;
    }
    assert content[..copied] == content;
    var badChecksum := disk.Trouble();
    return !badChecksum;
  }

  /** Removing the temporary file after an error. */
  method Unstage(disk: Disk, tmp: Path, ghost op: Op, ghost orig: Files, ghost t0: seq<Files>)
    requires disk.Valid() && op.Put? && tmp == Temp(op)
    requires AgreeOff(disk.files, orig, tmp) && t0 <= disk.trace && TracedByStaging(orig, op, disk.trace, |t0|)
    modifies disk`files, disk`trace, disk`refusedRemovals
    ensures disk.Valid() && t0 <= disk.trace && TracedByStaging(orig, op, disk.trace, |t0|)
    ensures AgreeOff(disk.files, orig, tmp) && disk.refusedRemovals >= old(disk.refusedRemovals)
    ensures disk.smooth ==> disk.refusedRemovals == old(disk.refusedRemovals)
    ensures tmp !in disk.files || disk.refusedRemovals > old(disk.refusedRemovals)
  {
    disk.Remove(tmp);
    StagingJoin(orig, op, t0, old(disk.trace), disk.trace);
  }

  method ExtractZipFile(disk: Disk, content: Bytes, destPath: Path) returns (r: Result<(), Stage>)
    requires disk.Valid()
    modifies disk
    ensures disk.Valid() && disk.dirs == old(disk.dirs) && old(disk.trace) <= disk.trace
    ensures disk.refusedRemovals >= old(disk.refusedRemovals)
    ensures r.Ok? ==> disk.refusedRemovals == old(disk.refusedRemovals)
    ensures r.Ok? ==> disk.files == Apply(old(disk.files), Put(destPath, content))
    ensures r.Ok? ==> Lookup(disk.files, destPath) == Some(content) && destPath + ".tmp" !in disk.files
    ensures disk.smooth ==> (r.Ok? <==> destPath + ".tmp" !in disk.dirs && destPath !in disk.dirs)
    ensures disk.smooth ==> disk.refusedRemovals == old(disk.refusedRemovals)
    ensures r.Err? ==> AgreeOff(disk.files, old(disk.files), destPath + ".tmp")
    ensures r.Err? && !Staged(r.error) ==> disk.files == old(disk.files)
    ensures r.Err? && Staged(r.error) ==>
              destPath + ".tmp" !in disk.files || disk.refusedRemovals > old(disk.refusedRemovals)
    ensures TracedByStaging(old(disk.files), Put(destPath, content), disk.trace, |old(disk.trace)|)
  {
    ghost var orig, t0, op := disk.files, disk.trace, Put(destPath, content);
    var unreadable := disk.Trouble();
    if unreadable {
      return Err(OpenEntry);
    }
    var tmp := destPath + ".tmp";
    assert tmp != destPath;
    var ok := disk.OpenTruncated(tmp);
    if !ok {
      return Err(OpenTemp);
    }
    ok := CopyEntry(disk, tmp, content, op, orig, t0);
    if !ok {
      Unstage(disk, tmp, op, orig, t0);
      return Err(Copy);
    }
    var badClose := disk.Trouble();
    if badClose {
      Unstage(disk, tmp, op, orig, t0);
      return Err(Close);
    }
    ghost var trace, staged := disk.trace, disk.files;
    ok := disk.Rename(tmp, destPath);
    if !ok {
      Unstage(disk, tmp, op, orig, t0);
      return Err(Rename);
    }
    assert disk.files == (staged - {tmp})[destPath := content] == Apply(orig, op);
    StagingJoin(orig, op, t0, trace, disk.trace);
    return Ok(());
  }

  datatype ZipError =
    | OpenArchive
    | Escapes(index: nat)
    | MakeDir(index: nat)
    | InEntry(index: nat, stage: Stage)

  /** What an error at entry f, the i-th, leaves of the files before it: all of them, and nothing new
      unless a temporary file whose removal was refused. */
  predicate EntryFailed(before: Files, d: Dest, f: Entry, i: nat, e: ZipError, s: Files, refused: bool) {
    match e
    case OpenArchive => false
    case Escapes(index) => index == i && !Accepted(d, f) && s == before
    case MakeDir(index) => index == i && Accepted(d, f) && s == before
    case InEntry(index, stage) =>
      && index == i && Accepted(d, f) && !IsDir(f)
      && if Staged(stage) then AgreeOff(s, before, Temp(OpOf(d, f))) && (Temp(OpOf(d, f)) !in s || refused)
         else s == before
  }

  /** The directory an entry needs: itself, or the one its file is in. */
  function DirOf(d: Dest, f: Entry): Path {
    if IsDir(f) then Paths.Join(d.volume, d.comps, f.name) else ParentDir(d, f)
  }

  /** A file is in the way of the directory, or a directory in the way of the file. */
  predicate Obstructed(files: Files, dirs: set<Path>, d: Dest, f: Entry) {
    || DirOf(d, f) in files
    || (!IsDir(f) && (Temp(OpOf(d, f)) in dirs + {DirOf(d, f)} || OpOf(d, f).target in dirs + {DirOf(d, f)}))
  }

  /** An entry is a directory if it says so or if its name ends in "/"; otherwise its content is what its
      path holds afterwards. */
  ghost predicate EntryDone(before: Files, d: Dest, f: Entry, s: Files) {
    if f.dirBit || (exists stem :: f.name == stem + "/") then s == before
    else Lookup(s, Paths.Join(d.volume, d.comps, f.name)) == Some(f.content)
  }

  lemma DirBySlash(f: Entry)
    ensures IsDir(f) <==> f.dirBit || exists stem :: f.name == stem + "/"
  {
    if f.name != "" && f.name[|f.name| - 1] == '/' {
      assert f.name == f.name[..|f.name| - 1] + "/";
    }
  }

  /** The body of extractZip's loop, on the i-th entry. */
  method ExtractEntry(disk: Disk, d: Dest, f: Entry, i: nat) returns (r: Result<(), ZipError>)
    requires disk.Valid()
    modifies disk
    ensures disk.Valid() && old(disk.trace) <= disk.trace
    ensures disk.refusedRemovals >= old(disk.refusedRemovals)
    ensures disk.smooth ==>
              var path, dirs := Paths.Join(d.volume, d.comps, f.name), old(disk.dirs) + {DirOf(d, f)};
              (r.Ok? <==>
               && Accepted(d, f) && DirOf(d, f) !in old(disk.files)
               && (IsDir(f) || (path + ".tmp" !in dirs && path !in dirs)))
    ensures disk.smooth ==> disk.refusedRemovals == old(disk.refusedRemovals)
    ensures r.Ok? ==> EntryDone(old(disk.files), d, f, disk.files)
    // no directory before the guard
    ensures disk.dirs == old(disk.dirs) || (Accepted(d, f) && disk.dirs == old(disk.dirs) + {DirOf(d, f)})
    ensures r.Ok? ==> disk.dirs == old(disk.dirs) + {DirOf(d, f)}
    ensures if IsDir(f) || !Accepted(d, f) then disk.trace == old(disk.trace)
            else TracedByStaging(old(disk.files), OpOf(d, f), disk.trace, |old(disk.trace)|)
    ensures r.Ok? ==>
              && disk.refusedRemovals == old(disk.refusedRemovals)
              && Accepted(d, f) && disk.files == Apply(old(disk.files), OpOf(d, f))
    ensures r.Err? ==>
              EntryFailed(old(disk.files), d, f, i, r.error, disk.files,
                          disk.refusedRemovals > old(disk.refusedRemovals))
  {
    var entryPath := Paths.Join(d.volume, d.comps, f.name);
    var destAbs := Paths.Abs(d.volume, d.comps);
    if entryPath != destAbs && !Paths.HasPrefix(entryPath, destAbs + [Paths.SEP]) {
      return Err(Escapes(i));
    }
    DirBySlash(f);
    var made := disk.MkdirAll(DirOf(d, f));
    if !made {
      return Err(MakeDir(i));
    }
    if IsDir(f) {
      return Ok(());
    }
    var res := ExtractZipFile(disk, f.content, entryPath);
    return if res.Err? then Err(InEntry(i, res.error)) else Ok(());
  }

  /** What an error return leaves: every entry before the reported one in full, and of that one what
      EntryFailed says. */
  ghost predicate Stopped(orig: Files, d: Dest, entries: seq<Entry>, e: ZipError, s: Files, refused: bool) {
    exists i :: StoppedAt(orig, d, entries, i, e, s, refused)
  }

  ghost predicate StoppedAt(
    orig: Files, d: Dest, entries: seq<Entry>, i: nat, e: ZipError, s: Files, refused: bool)
  {
    && i < |entries| && AllAccepted(d, entries, i)
    && EntryFailed(Extracted(orig, Ops(d, entries[..i])), d, entries[i], i, e, s, refused)
  }

  /** Every state since `since` is a prefix of the archive. */
  ghost predicate TracedByPrefixes(orig: Files, d: Dest, entries: seq<Entry>, trace: seq<Files>, since: nat) {
    forall k :: since <= k < |trace| ==> SomePrefixState(orig, d, entries, trace[k])
  }

  /** The directories after the entries, in order. */
  function DirsAfter(dirs: set<Path>, d: Dest, entries: seq<Entry>): set<Path> {
    if entries == [] then dirs
    else DirsAfter(dirs, d, entries[..|entries| - 1]) + {DirOf(d, entries[|entries| - 1])}
  }

  /** The i-th entry is accepted and nothing is in its way when its turn comes. */
  predicate Passes(orig: Files, dirs: set<Path>, d: Dest, entries: seq<Entry>, i: nat)
    requires i < |entries|
  {
    && Accepted(d, entries[i])
    && !Obstructed(Extracted(orig, Ops(d, entries[..i])), DirsAfter(dirs, d, entries[..i]), d, entries[i])
  }

  /** The whole archive can be unpacked. */
  ghost predicate Unpackable(orig: Files, dirs: set<Path>, d: Dest, entries: seq<Entry>) {
    forall i :: 0 <= i < |entries| ==> Passes(orig, dirs, d, entries, i)
  }

  predicate NeededBy(d: Dest, f: Entry, p: Path) {
    Accepted(d, f) && p == DirOf(d, f)
  }

  /** Only directories that accepted entries need were made. */
  ghost predicate DirsFrom(before: set<Path>, after: set<Path>, d: Dest, entries: seq<Entry>) {
    forall p :: p in after ==> p in before || exists i :: 0 <= i < |entries| && NeededBy(d, entries[i], p)
  }

  /** The first i entries are extracted in full. */
  ghost predicate At(
    orig: Files, dirs: set<Path>, d: Dest, entries: seq<Entry>, i: nat, files: Files, dirs': set<Path>)
  {
    && i <= |entries| && AllAccepted(d, entries, i)
    && files == Extracted(orig, Ops(d, entries[..i])) && dirs' == DirsAfter(dirs, d, entries[..i])
  }

  ghost predicate PassedUpTo(orig: Files, dirs: set<Path>, d: Dest, entries: seq<Entry>, n: nat) {
    n <= |entries| && forall i :: 0 <= i < n ==> Passes(orig, dirs, d, entries, i)
  }

  lemma AtStart(orig: Files, dirs: set<Path>, d: Dest, entries: seq<Entry>)
    ensures At(orig, dirs, d, entries, 0, orig, dirs) && PassedUpTo(orig, dirs, d, entries, 0)
  {
    assert Ops(d, entries[..0]) == [];
  }

  lemma AtNext(orig: Files, dirs: set<Path>, d: Dest, entries: seq<Entry>, i: nat, files: Files, dirs': set<Path>)
    requires At(orig, dirs, d, entries, i, files, dirs') && i < |entries| && Accepted(d, entries[i])
    ensures At(orig, dirs, d, entries, i + 1, Apply(files, OpOf(d, entries[i])), dirs' + {DirOf(d, entries[i])})
  {
    ExtractedSnoc(orig, d, entries, i);
    OneMoreAccepted(d, entries, i);
    DirsAfterSnoc(dirs, d, entries, i);
  }

  lemma PassesNow(orig: Files, dirs: set<Path>, d: Dest, entries: seq<Entry>, i: nat, files: Files, dirs': set<Path>)
    requires At(orig, dirs, d, entries, i, files, dirs') && i < |entries|
    ensures Passes(orig, dirs, d, entries, i) <==> Accepted(d, entries[i]) && !Obstructed(files, dirs', d, entries[i])
  {
  }

  lemma PassedNext(orig: Files, dirs: set<Path>, d: Dest, entries: seq<Entry>, i: nat)
    requires i < |entries|
    ensures PassedUpTo(orig, dirs, d, entries, i) ==>
              (PassedUpTo(orig, dirs, d, entries, i + 1) <==> Passes(orig, dirs, d, entries, i))
    ensures !Passes(orig, dirs, d, entries, i) ==> !Unpackable(orig, dirs, d, entries)
  {
    if PassedUpTo(orig, dirs, d, entries, i) && Passes(orig, dirs, d, entries, i) {
      forall j | 0 <= j < i + 1 ensures Passes(orig, dirs, d, entries, j) {
        if j < i {
        }
      }
    }
  }

  lemma DirsAfterSnoc(dirs: set<Path>, d: Dest, entries: seq<Entry>, i: nat)
    requires i < |entries|
    ensures DirsAfter(dirs, d, entries[..i + 1]) == DirsAfter(dirs, d, entries[..i]) + {DirOf(d, entries[i])}
  {
    assert entries[..i + 1][..i] == entries[..i];
  }

  lemma {:induction false} DirsAfterFrom(dirs: set<Path>, d: Dest, entries: seq<Entry>, i: nat)
    requires i <= |entries| && AllAccepted(d, entries, i)
    ensures DirsFrom(dirs, DirsAfter(dirs, d, entries[..i]), d, entries)
  {
    if i > 0 {
      DirsAfterFrom(dirs, d, entries, i - 1);
      DirsAfterSnoc(dirs, d, entries, i - 1);
      var before := DirsAfter(dirs, d, entries[..i - 1]);
      forall p | p in before + {DirOf(d, entries[i - 1])}
        ensures p in dirs || exists j :: 0 <= j < |entries| && NeededBy(d, entries[j], p)
      {
        if p !in before {
          assert NeededBy(d, entries[i - 1], p);
        }
      }
    }
  }

  /** One round of extractZip's loop, and where it leads. */
  method ExtractNext(disk: Disk, d: Dest, entries: seq<Entry>, i: nat, ghost orig: Files, ghost dirs: set<Path>,
                     ghost t0: seq<Files>)
      returns (r: Result<(), ZipError>)
    requires disk.Valid() && t0 <= disk.trace && i < |entries|
    requires At(orig, dirs, d, entries, i, disk.files, disk.dirs)
    requires TracedByPrefixes(orig, d, entries, disk.trace, |t0|)
    requires disk.smooth ==> PassedUpTo(orig, dirs, d, entries, i)
    modifies disk
    ensures disk.Valid() && t0 <= disk.trace && TracedByPrefixes(orig, d, entries, disk.trace, |t0|)
    ensures disk.refusedRemovals >= old(disk.refusedRemovals)
    ensures r.Ok? || disk.smooth ==> disk.refusedRemovals == old(disk.refusedRemovals)
    ensures DirsFrom(dirs, disk.dirs, d, entries)
    ensures r.Ok? ==> At(orig, dirs, d, entries, i + 1, disk.files, disk.dirs)
    ensures r.Ok? && disk.smooth ==> PassedUpTo(orig, dirs, d, entries, i + 1)
    ensures r.Err? && disk.smooth ==> !Unpackable(orig, dirs, d, entries)
    ensures r.Err? ==>
              && r.error != OpenArchive
              && StoppedAt(orig, d, entries, i, r.error, disk.files, disk.refusedRemovals > old(disk.refusedRemovals))
  {
    ghost var files, dirs', trace := disk.files, disk.dirs, disk.trace;
    DirsAfterFrom(dirs, d, entries, i);
    PassesNow(orig, dirs, d, entries, i, files, dirs');
    PassedNext(orig, dirs, d, entries, i);
    r := ExtractEntry(disk, d, entries[i], i);
    EntryTraced(orig, d, entries, i, t0, trace, disk.trace);
    if r.Ok? {
      AtNext(orig, dirs, d, entries, i, files, dirs');
    }
  }

  method ExtractZip(disk: Disk, archive: Option<seq<Entry>>, d: Dest) returns (r: Result<(), ZipError>)
    requires disk.Valid()
    modifies disk
    ensures disk.Valid() && old(disk.trace) <= disk.trace
    ensures disk.refusedRemovals >= old(disk.refusedRemovals)
    ensures r.Ok? || disk.smooth ==> disk.refusedRemovals == old(disk.refusedRemovals)
    ensures archive.None? ==> r == Err(OpenArchive)
    ensures r == Err(OpenArchive) ==> disk.trace == old(disk.trace) && disk.dirs == old(disk.dirs)
    // every state a crash can leave behind is a prefix of the archive
    ensures archive.Some? ==>
              TracedByPrefixes(old(disk.files), d, archive.value, disk.trace, |old(disk.trace)|)
    ensures r.Ok? ==>
              && archive.Some?
              && AllAccepted(d, archive.value, |archive.value|)
              && disk.files == Extracted(old(disk.files), Ops(d, archive.value))
              && disk.dirs == DirsAfter(old(disk.dirs), d, archive.value)
    ensures r.Err? && r.error != OpenArchive ==>
              archive.Some? && Stopped(old(disk.files), d, archive.value, r.error, disk.files,
                                       disk.refusedRemovals > old(disk.refusedRemovals))
    ensures archive.Some? ==> DirsFrom(old(disk.dirs), disk.dirs, d, archive.value)
    // it fails only for the archive or for what is in the way, unless something outside the code goes wrong
    ensures disk.smooth ==>
              (r.Ok? <==> archive.Some? && Unpackable(old(disk.files), old(disk.dirs), d, archive.value))
  {
    var unopened := disk.Trouble();
    if archive.None? || unopened {
      return Err(OpenArchive);
    }
    var entries := archive.value;
    ghost var orig, t0, dirs := disk.files, disk.trace, disk.dirs;
    var i := 0;
    AtStart(orig, dirs, d, entries);
    while i < |entries|
      invariant 0 <= i <= |entries|
      invariant disk.Valid() && t0 <= disk.trace && TracedByPrefixes(orig, d, entries, disk.trace, |t0|)
      invariant disk.refusedRemovals == old(disk.refusedRemovals)
      invariant At(orig, dirs, d, entries, i, disk.files, disk.dirs) && DirsFrom(dirs, disk.dirs, d, entries)
      invariant disk.smooth ==> PassedUpTo(orig, dirs, d, entries, i)
    {
      var res := ExtractNext(disk, d, entries, i, orig, dirs, t0);
      if res.Err? {
        return Err(res.error);
      }
      i := i + 1;
    }
    assert entries[..i] == entries;
    return Ok(());
  }

  lemma OneMoreAccepted(d: Dest, entries: seq<Entry>, i: nat)
    requires i < |entries| && AllAccepted(d, entries, i) && Accepted(d, entries[i])
    ensures AllAccepted(d, entries, i + 1)
  {
    forall j | 0 <= j < i + 1 ensures Accepted(d, entries[j]) {
      if j == i {
      } else {
      }
    }
  }

  lemma StagingIsPrefix(orig: Files, d: Dest, entries: seq<Entry>, i: nat, s: Files)
    requires i < |entries| && AllAccepted(d, entries, i) && AllAccepted(d, entries, i + 1)
    requires Accepted(d, entries[i]) && !IsDir(entries[i])
    requires StagingState(Extracted(orig, Ops(d, entries[..i])), OpOf(d, entries[i]), s)
    requires Extracted(orig, Ops(d, entries[..i + 1]))
             == Apply(Extracted(orig, Ops(d, entries[..i])), OpOf(d, entries[i]))
    ensures SomePrefixState(orig, d, entries, s)
  {
    if s == Extracted(orig, Ops(d, entries[..i + 1])) {
      assert PrefixState(orig, d, entries, i + 1, s);
    } else {
      assert PrefixState(orig, d, entries, i, s);
    }
  }

  /** The states of the i-th entry after those of the entries before. */
  lemma EntryTraced(orig: Files, d: Dest, entries: seq<Entry>, i: nat, t0: seq<Files>, t1: seq<Files>, t2: seq<Files>)
    requires i < |entries| && AllAccepted(d, entries, i) && t0 <= t1 && t1 <= t2
    requires TracedByPrefixes(orig, d, entries, t1, |t0|)
    requires if IsDir(entries[i]) || !Accepted(d, entries[i]) then t2 == t1
             else TracedByStaging(Extracted(orig, Ops(d, entries[..i])), OpOf(d, entries[i]), t2, |t1|)
    ensures t0 <= t2 && TracedByPrefixes(orig, d, entries, t2, |t0|)
  {
    assert t0 == t1[..|t0|] == t2[..|t1|][..|t0|] == t2[..|t0|];
    forall k | |t0| <= k < |t2| ensures SomePrefixState(orig, d, entries, t2[k]) {
      if k < |t1| {
        assert t2[k] == t2[..|t1|][k] == t1[k];
      } else {
        ExtractedSnoc(orig, d, entries, i);
        OneMoreAccepted(d, entries, i);
        StagingIsPrefix(orig, d, entries, i, t2[k]);
      }
    }
  }

  /** filepath.Dir of an entry's path. */
  function ParentDir(d: Dest, e: Entry): Path {
    var cs := Paths.Target(d.comps, e.name);
    Paths.Abs(d.volume, if cs == [] then [] else cs[..|cs| - 1])
  }

  lemma ExtractedSnoc(orig: Files, d: Dest, entries: seq<Entry>, i: nat)
    requires i < |entries|
    ensures Extracted(orig, Ops(d, entries[..i + 1]))
            == Apply(Extracted(orig, Ops(d, entries[..i])), OpOf(d, entries[i]))
  {
    assert Ops(d, entries[..i + 1])[..i] == Ops(d, entries[..i]);
  }

  // ---- what it means for one path -----------------------------------------

  predicate IsTemp(p: Path) {
    HasSuffix(p, ".tmp")
  }

  /** The content of the last entry for p. */
  function LastContent(ops: seq<Op>, p: Path): Option<Bytes> {
    if ops == [] then None
    else
      var op := ops[|ops| - 1];
      if op.Put? && op.target == p then Some(op.content) else LastContent(ops[..|ops| - 1], p)
  }

  /** The plain reading of an archive: the last entry for a path wins, all else is untouched. */
  function LastWins(files: Files, ops: seq<Op>): Files {
    if ops == [] then files
    else
      var op := ops[|ops| - 1];
      var rest := LastWins(files, ops[..|ops| - 1]);
      if op.Put? then rest[op.target := op.content] else rest
  }

  lemma {:induction false} LastWinsLookup(files: Files, ops: seq<Op>, p: Path)
    ensures Lookup(LastWins(files, ops), p)
            == if LastContent(ops, p).Some? then LastContent(ops, p) else Lookup(files, p)
  {
    if ops != [] {
      LastWinsLookup(files, ops[..|ops| - 1], p);
    }
  }

  lemma {:induction false} OutsideTemp(orig: Files, ops: seq<Op>, p: Path)
    requires !IsTemp(p)
    ensures Lookup(Extracted(orig, ops), p) == Lookup(LastWins(orig, ops), p)
  {
    if ops != [] {
      var op := ops[|ops| - 1];
      OutsideTemp(orig, ops[..|ops| - 1], p);
      if op.Put? {
        assert IsTemp(Temp(op));
      }
    }
  }

  lemma {:induction false} LastContentFrom(ops: seq<Op>, p: Path) returns (j: nat)
    requires LastContent(ops, p).Some?
    ensures j < |ops| && ops[j] == Put(p, LastContent(ops, p).value)
  {
    var op := ops[|ops| - 1];
    if op.Put? && op.target == p {
      j := |ops| - 1;
    } else {
      j := LastContentFrom(ops[..|ops| - 1], p);
    }
  }

  /** Crash safety. In a state that a crash during extraction can leave behind, a path that does not
      end in ".tmp" holds its original content, or the complete content of one of the entries
      processed before. */
  lemma CrashSafe(orig: Files, d: Dest, entries: seq<Entry>, n: nat, s: Files, p: Path)
    requires PrefixState(orig, d, entries, n, s)
    requires !IsTemp(p)
    ensures || Lookup(s, p) == Lookup(orig, p)
            || exists j :: 0 <= j < n && OpOf(d, entries[j]).Put?
                           && OpOf(d, entries[j]).target == p
                           && Lookup(s, p) == Some(entries[j].content)
  {
    var ops := Ops(d, entries[..n]);
    var before := Extracted(orig, ops);
    if s != before {
      var t := Temp(OpOf(d, entries[n]));
      assert IsTemp(t);
      assert Lookup(s - {t}, p) == Lookup(s, p);
      assert Lookup(before - {t}, p) == Lookup(before, p);
    }
    OutsideTemp(orig, ops, p);
    LastWinsLookup(orig, ops, p);
    if LastContent(ops, p).Some? {
      var j := LastContentFrom(ops, p);
      assert OpOf(d, entries[j]) == Put(p, LastContent(ops, p).value);
    }
  }

  /** Entry i removes a file that the plain reading keeps: its temporary sibling was there, and no
      later entry puts it back. */
  ghost predicate Clobbers(orig: Files, ops: seq<Op>, i: nat) {
    && i < |ops| && ops[i].Put?
    && Temp(ops[i]) in LastWins(orig, ops[..i])
    && forall j :: i < j < |ops| && ops[j].Put? ==> ops[j].target != Temp(ops[i])
  }

  /** p holds what the plain reading says, and no entry took it away for good. */
  ghost predicate Plain(orig: Files, ops: seq<Op>, p: Path) {
    && Lookup(Extracted(orig, ops), p) == Lookup(LastWins(orig, ops), p)
    && forall i :: 0 <= i < |ops| && ops[i].Put? && Temp(ops[i]) == p ==> !Clobbers(orig, ops, i)
  }

  /** p is gone, and an entry took it away for good. */
  ghost predicate Gone(orig: Files, ops: seq<Op>, p: Path) {
    && Lookup(Extracted(orig, ops), p).None? && Lookup(LastWins(orig, ops), p).Some?
    && exists i :: 0 <= i < |ops| && ops[i].Put? && Temp(ops[i]) == p && Clobbers(orig, ops, i)
  }

  /** Whether an earlier entry's clobbering lasts depends on the last entry's target only. */
  lemma ClobbersSnoc(orig: Files, ops: seq<Op>, i: nat)
    requires i + 1 < |ops|
    ensures var last := ops[|ops| - 1];
            Clobbers(orig, ops, i) <==> Clobbers(orig, ops[..|ops| - 1], i)
                                        && !(last.Put? && last.target == Temp(ops[i]))
  {
    var front := ops[..|ops| - 1];
    assert ops[..i] == front[..i];
    assert forall j :: 0 <= j < |front| ==> front[j] == ops[j];
    if Clobbers(orig, ops, i) {
      assert Clobbers(orig, front, i);
    }
  }

  lemma {:induction false} ExtractedUnlessClobbered(orig: Files, ops: seq<Op>, p: Path)
    ensures Plain(orig, ops, p) || Gone(orig, ops, p)
  {
    if ops != [] {
      var m := |ops| - 1;
      var front, op := ops[..m], ops[m];
      ExtractedUnlessClobbered(orig, front, p);
      assert op.Put? ==> Temp(op) != op.target;
      forall i | 0 <= i < m ensures front[i] == ops[i] {
      }
      forall i | 0 <= i < m
        ensures Clobbers(orig, ops, i) <==> Clobbers(orig, front, i) && !(op.Put? && op.target == Temp(ops[i]))
      {
        ClobbersSnoc(orig, ops, i);
      }
      if op.Put? && Temp(op) == p && p in LastWins(orig, front) {
        assert Clobbers(orig, ops, m);
      } else if Gone(orig, front, p) && !(op.Put? && op.target == p) {
        var i :| 0 <= i < m && front[i].Put? && Temp(front[i]) == p && Clobbers(orig, front, i);
        assert Clobbers(orig, ops, i);
      }
    }
  }

  /** On success the tree is the plain reading of the archive exactly when no entry's temporary
      sibling was an existing file or an earlier entry that no later entry puts back. */
  lemma PlainReadingIffNoClobber(orig: Files, ops: seq<Op>)
    ensures Extracted(orig, ops) == LastWins(orig, ops) <==> forall i: nat :: !Clobbers(orig, ops, i)
  {
    var a, b := Extracted(orig, ops), LastWins(orig, ops);
    if forall i: nat :: !Clobbers(orig, ops, i) {
      forall p ensures Lookup(a, p) == Lookup(b, p) {
        ExtractedUnlessClobbered(orig, ops, p);
      }
      assert forall p :: p in a <==> Lookup(a, p).Some?;
      assert forall p :: p in b <==> Lookup(b, p).Some?;
      assert forall p | p in a :: Lookup(a, p) == Lookup(b, p);
      assert a == b;
    } else {
      var i: nat :| Clobbers(orig, ops, i);
      ExtractedUnlessClobbered(orig, ops, Temp(ops[i]));
    }
  }

  lemma TempThenFileOps(orig: Files, target: Path, first: Bytes, second: Bytes)
    ensures var ops := [Put(target + ".tmp", first), Put(target, second)];
            Clobbers(orig, ops, 1) && Extracted(orig, ops) != LastWins(orig, ops)
  {
    var ops := [Put(target + ".tmp", first), Put(target, second)];
    assert ops[..1] == [ops[0]] && target + ".tmp" in LastWins(orig, ops[..1]);
    var i: nat := 1;
    assert Clobbers(orig, ops, i);
    PlainReadingIffNoClobber(orig, ops);
  }

  /** The failing input: an archive with a file "X.tmp" and then a file "X", both accepted, loses the first. */
  lemma TempThenFile(orig: Files, d: Dest, name: string, first: Bytes, second: Bytes) returns (entries: seq<Entry>)
    requires Paths.Clean(d.comps) && d.comps != [] && Paths.Component(name)
    ensures entries == [Entry(name + ".tmp", false, first), Entry(name, false, second)]
    ensures AllAccepted(d, entries, 2) && Clobbers(orig, Ops(d, entries), 1)
    ensures Extracted(orig, Ops(d, entries)) != LastWins(orig, Ops(d, entries))
  {
    entries := [Entry(name + ".tmp", false, first), Entry(name, false, second)];
    var target := Paths.Abs(d.volume, d.comps + [name]);
    TempName(d, name);
    PlainName(d, name, second);
    PlainName(d, name + ".tmp", first);
    assert Ops(d, entries) == [Put(target + ".tmp", first), Put(target, second)];
    TempThenFileOps(orig, target, first, second);
  }

  lemma TempName(d: Dest, name: string)
    requires Paths.Clean(d.comps) && Paths.Component(name)
    ensures Paths.Component(name + ".tmp")
    ensures Paths.Abs(d.volume, d.comps + [name + ".tmp"]) == Paths.Abs(d.volume, d.comps + [name]) + ".tmp"
  {
    var cs := d.comps + [name];
    Paths.TempIsSibling(d.volume, cs);
    assert Paths.TempOf(cs) == d.comps + [name + ".tmp"];
    assert Paths.TempOf(cs)[|d.comps|] == name + ".tmp";
  }

  /** A name of one component is accepted and leads below the install directory. */
  lemma PlainName(d: Dest, name: string, content: Bytes)
    requires Paths.Clean(d.comps) && d.comps != [] && Paths.Component(name)
    ensures Accepted(d, Entry(name, false, content))
    ensures OpOf(d, Entry(name, false, content)) == Put(Paths.Abs(d.volume, d.comps + [name]), content)
  {
    Paths.SplitSepFree(name);
    Paths.WalkClean(d.comps, [name]);
    Paths.AcceptedIffInside(d.volume, d.comps, name);
  }

  // ---- nothing outside the install directory ------------------------------

  /** p is the string of a cleaned path at or below the install directory. */
  ghost predicate Inside(d: Dest, p: Path) {
    exists cs :: Paths.Clean(cs) && d.comps <= cs && p == Paths.Abs(d.volume, cs)
  }

  /** The two paths an accepted entry writes are inside the install directory, the temporary one
      unless the entry leads to the install directory itself. */
  lemma WritesInside(d: Dest, e: Entry)
    requires Paths.Clean(d.comps) && d.comps != []
    requires Accepted(d, e) && !IsDir(e)
    ensures Inside(d, OpOf(d, e).target)
    ensures Paths.Target(d.comps, e.name) != d.comps ==> Inside(d, Temp(OpOf(d, e)))
    ensures Paths.Target(d.comps, e.name) == d.comps ==>
              Temp(OpOf(d, e)) == Paths.Abs(d.volume, d.comps) + ".tmp"
  {
    var cs := Paths.Target(d.comps, e.name);
    Paths.AcceptedIffInside(d.volume, d.comps, e.name);
    Paths.TempIsSibling(d.volume, cs);
    Paths.TempInside(d.comps, e.name);
  }

  lemma {:induction false} ChangedOnlyByOps(orig: Files, ops: seq<Op>, p: Path)
    requires Lookup(Extracted(orig, ops), p) != Lookup(orig, p)
    ensures exists i :: 0 <= i < |ops| && ops[i].Put? && (p == ops[i].target || p == Temp(ops[i]))
  {
    var m := |ops| - 1;
    var op := ops[m];
    if !(op.Put? && (p == op.target || p == Temp(op))) {
      ChangedOnlyByOps(orig, ops[..m], p);
      var i :| 0 <= i < m && ops[..m][i].Put? && (p == ops[..m][i].target || p == Temp(ops[..m][i]));
      assert ops[i] == ops[..m][i];
    }
  }

  /** Containment on disk: in every state a crash can leave behind, a path outside the install
      directory is untouched, the one exception being the install directory's own ".tmp" sibling when
      the archive holds a file entry that leads to the install directory itself. */
  lemma OutsideUntouched(orig: Files, d: Dest, entries: seq<Entry>, n: nat, s: Files, p: Path)
    requires Paths.Clean(d.comps) && d.comps != []
    requires PrefixState(orig, d, entries, n, s)
    requires !Inside(d, p)
    requires p == Paths.Abs(d.volume, d.comps) + ".tmp" ==>
               forall e :: e in entries && !IsDir(e) ==> Paths.Target(d.comps, e.name) != d.comps
    ensures Lookup(s, p) == Lookup(orig, p)
  {
    var ops := Ops(d, entries[..n]);
    var before := Extracted(orig, ops);
    if Lookup(s, p) != Lookup(before, p) {
      var t := Temp(OpOf(d, entries[n]));
      assert entries[n] in entries;
      assert p != t ==> Lookup(s - {t}, p) == Lookup(s, p) && Lookup(before - {t}, p) == Lookup(before, p);
      WritesInside(d, entries[n]);
    } else if Lookup(before, p) != Lookup(orig, p) {
      ChangedOnlyByOps(orig, ops, p);
      var i :| 0 <= i < |ops| && ops[i].Put? && (p == ops[i].target || p == Temp(ops[i]));
      assert ops[i] == OpOf(d, entries[i]) && entries[i] in entries;
      WritesInside(d, entries[i]);
    }
  }

  /** The directories made are inside too: the entry's own, or that of its file; a file entry that leads to
      the install directory itself needs only the directory that one is in. */
  lemma DirsInside(d: Dest, f: Entry, p: Path)
    requires Paths.Clean(d.comps) && d.comps != [] && NeededBy(d, f, p)
    ensures var cs := Paths.Target(d.comps, f.name);
            && d.comps <= cs
            && p == Paths.Abs(d.volume, if IsDir(f) then cs else cs[..|cs| - 1])
            && (IsDir(f) || cs != d.comps ==> Inside(d, p))
  {
    Paths.AcceptedIffInside(d.volume, d.comps, f.name);
    var cs := Paths.Target(d.comps, f.name);
    var at := if IsDir(f) then cs else cs[..|cs| - 1];
    assert forall i :: 0 <= i < |at| ==> at[i] == cs[i];
    assert Paths.Clean(at) && p == Paths.Abs(d.volume, at);
    if cs != d.comps {
      assert d.comps <= cs[..|cs| - 1];
    }
  }
}
