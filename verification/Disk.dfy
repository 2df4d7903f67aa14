/** The part of a disk the agent's file operations touch. Every operation may fail at the operating
    system's will; `trace` records each state of the files a crash could leave behind. */
module FileSystem {
  import opened Wrappers

  type Path = string
  type Files = map<Path, Bytes>

  function Lookup(files: Files, p: Path): Option<Bytes> {
    if p in files then Some(files[p]) else None
  }

  predicate HasSuffix(p: Path, suffix: string) {
    |suffix| <= |p| && p[|p| - |suffix|..] == suffix
  }

  /** A path ends in at most one suffix of a length. */
  lemma OneSuffix(p: Path, a: string, b: string)
    requires HasSuffix(p, a) && |a| == |b| && a != b
    ensures !HasSuffix(p, b)
  {
  }

  /** A file name pattern with one "*": the directory and what comes before it, and what comes after. */
  datatype Pattern = Pattern(before: string, after: string)

  predicate Matches(p: Path, pattern: Pattern) {
    && |pattern.before| <= |p| && p[..|pattern.before|] == pattern.before
    && HasSuffix(p, pattern.after)
  }

  function Zeros(n: nat): (s: string)
    ensures |s| == n
  {
    seq(n, _ => '0')
  }

  class Disk {
    // nothing outside the code goes wrong: the operating system grants what it can
    const smooth: bool
    var files: Files
    var dirs: set<Path>
    // every state of `files`, the current one last
    ghost var trace: seq<Files>
    // how many removals of an existing file the operating system refused
    ghost var refusedRemovals: nat

    ghost predicate Valid()
      reads this
    {
      trace != [] && trace[|trace| - 1] == files
    }

    constructor (files: Files, dirs: set<Path>, smooth: bool)
      ensures Valid() && this.files == files && this.dirs == dirs && this.smooth == smooth
      ensures trace == [files] && refusedRemovals == 0
    {
      this.files, this.dirs, this.smooth := files, dirs, smooth;
      trace, refusedRemovals := [files], 0;
    }

    /** Something outside the code may go wrong. */
    method Trouble() returns (b: bool)
      ensures smooth ==> !b
    {
      b := *;
      if smooth {
        b := false;
      }
    }

    method MkdirAll(p: Path) returns (ok: bool)
      modifies this`dirs
      ensures smooth ==> (ok <==> p !in files)
      ensures ok ==> p !in files && dirs == old(dirs) + {p}
      ensures !ok ==> dirs == old(dirs)
    {
      var refused := Trouble();
      ok := !refused && p !in files;
      if ok {
        dirs := dirs + {p};
      }
    }

    /** os.OpenFile with O_CREATE|O_WRONLY|O_TRUNC. */
    method OpenTruncated(p: Path) returns (ok: bool)
      requires Valid()
      modifies this`files, this`trace
      ensures Valid()
      ensures smooth ==> (ok <==> p !in dirs)
      ensures ok ==> p !in dirs && files == old(files)[p := []] && trace == old(trace) + [files]
      ensures !ok ==> files == old(files) && trace == old(trace)
    {
      var refused := Trouble();
      ok := !refused && p !in dirs;
      if ok {
        files := files[p := []];
        trace := trace + [files];
      }
    }

    /** There is always a name left. */
    method FreeName(pattern: Pattern) returns (p: Path)
      ensures p !in files && p !in dirs && Matches(p, pattern)
    {
      var all := files.Keys + dirs;
      var taken, n: nat := all, 0;
      p := pattern.before + Zeros(n) + pattern.after;
      while p in all
        invariant taken <= all && p == pattern.before + Zeros(n) + pattern.after
        invariant forall q :: q in all && q !in taken ==> |q| < |p|
        decreases taken
      {
        assert p in taken;
        taken, n := taken - {p}, n + 1;
        p := pattern.before + Zeros(n) + pattern.after;
      }
    }

    /** os.CreateTemp: a file that did not exist before. */
    method CreateTemp(pattern: Pattern) returns (p: Option<Path>)
      requires Valid()
      modifies this`files, this`trace
      ensures Valid()
      ensures smooth ==> p.Some?
      ensures p.Some? ==>
                && p.value !in old(files) && p.value !in dirs && Matches(p.value, pattern)
                && files == old(files)[p.value := []] && trace == old(trace) + [files]
      ensures p.None? ==> files == old(files) && trace == old(trace)
    {
      var refused := Trouble();
      if refused {
        return None;
      }
      var candidate: Path := *;
      if candidate in files || candidate in dirs || !Matches(candidate, pattern) {
        candidate := FreeName(pattern);
      }
      files := files[candidate := []];
      trace := trace + [files];
      p := Some(candidate);
    }

    /** One write at the end of an open file; a failing write may leave part of b behind. */
    method Append(p: Path, b: Bytes) returns (ok: bool)
      requires Valid() && p in files
      modifies this`files, this`trace
      ensures Valid() && trace == old(trace) + [files]
      ensures exists n :: 0 <= n <= |b| && files == old(files)[p := old(files)[p] + b[..n]]
      ensures ok ==> files == old(files)[p := old(files)[p] + b]
      ensures smooth ==> ok
    {
      var n: int := *;
      if n < 0 || n > |b| || smooth {
        n := |b|;
      }
      files := files[p := files[p] + b[..n]];
      trace := trace + [files];
      ok := n == |b|;
      assert b[..|b|] == b;
    }

    /** os.Rename: an existing file at `to` is replaced, a directory there is not. allowed is the operating
        system's answer. */
    method RenameWhen(from: Path, to: Path, allowed: bool) returns (ok: bool)
      requires Valid() && from != to
      modifies this`files, this`trace
      ensures Valid()
      ensures ok <==> allowed && from in old(files) && to !in dirs
      ensures ok ==>
                && files == (old(files) - {from})[to := old(files)[from]]
                && trace == old(trace) + [files]
      ensures !ok ==> files == old(files) && trace == old(trace)
    {
      ok := allowed && from in files && to !in dirs;
      if ok {
        files := (files - {from})[to := files[from]];
        trace := trace + [files];
      }
    }

    method Rename(from: Path, to: Path) returns (ok: bool)
      requires Valid() && from != to
      modifies this`files, this`trace
      ensures Valid()
      ensures smooth ==> (ok <==> from in old(files) && to !in dirs)
      ensures ok ==>
                && from in old(files) && to !in dirs
                && files == (old(files) - {from})[to := old(files)[from]]
                && trace == old(trace) + [files]
      ensures !ok ==> files == old(files) && trace == old(trace)
    {
      var refused := Trouble();
      ok := RenameWhen(from, to, !refused);
    }

    /** os.Remove with its error ignored, as every caller does. */
    method RemoveWhen(p: Path, allowed: bool)
      requires Valid()
      modifies this`files, this`trace, this`refusedRemovals
      ensures Valid()
      ensures if allowed || p !in old(files)
              then files == old(files) - {p} && trace == old(trace) + [files]
                   && refusedRemovals == old(refusedRemovals)
              else files == old(files) && trace == old(trace) && refusedRemovals == old(refusedRemovals) + 1
    {
      if !allowed && p in files {
        refusedRemovals := refusedRemovals + 1;
      } else {
        files := files - {p};
        trace := trace + [files];
      }
    }

    method Remove(p: Path)
      requires Valid()
      modifies this`files, this`trace, this`refusedRemovals
      ensures Valid()
      ensures smooth ==> refusedRemovals == old(refusedRemovals)
      ensures refusedRemovals == old(refusedRemovals) ==>
                files == old(files) - {p} && trace == old(trace) + [files]
      ensures refusedRemovals != old(refusedRemovals) ==>
                && refusedRemovals == old(refusedRemovals) + 1
                && files == old(files) && trace == old(trace)
    {
      var refused := Trouble();
      RemoveWhen(p, !refused);
    }
  }
}
