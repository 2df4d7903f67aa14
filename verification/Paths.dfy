/** Lexical Windows paths: what filepath.Join makes of an archive entry's name, and what the
    string-prefix test of extractZip means in terms of path components. */
module Paths {

  const SEP: char := '\\'

  predicate IsSep(c: char) {
    c == '\\' || c == '/'
  }

  predicate SepFree(s: string) {
    forall i :: 0 <= i < |s| ==> !IsSep(s[i])
  }

  /** A component as it occurs in a cleaned path. */
  predicate Component(s: string) {
    s != "" && s != "." && s != ".." && SepFree(s)
  }

  predicate Clean(cs: seq<string>) {
    forall i :: 0 <= i < |cs| ==> Component(cs[i])
  }

  /** The segments of s between separators; empty segments are kept. */
  function Split(s: string): (segs: seq<string>)
    ensures |segs| > 0
    ensures forall i :: 0 <= i < |segs| ==> SepFree(segs[i])
  {
    if s == "" then [""]
    else
      var rest := Split(s[1..]);
      if IsSep(s[0]) then [""] + rest
      else
        assert SepFree([s[0]] + rest[0]);
        [[s[0]] + rest[0]] + rest[1..]
  }

  /** One segment applied to a rooted path: "" and "." stay, ".." goes up (and stays at the root). */
  function Walk1(cs: seq<string>, seg: string): seq<string> {
    if seg == "" || seg == "." then cs
    else if seg == ".." then (if cs == [] then [] else cs[..|cs| - 1])
    else cs + [seg]
  }

  function Walk(cs: seq<string>, segs: seq<string>): seq<string>
    decreases |segs|
  {
    if segs == [] then cs else Walk(Walk1(cs, segs[0]), segs[1..])
  }

  /** The rooted path with these components, without its volume name: `\` for the root. */
  function Render(cs: seq<string>): string {
    if cs == [] then [SEP] else Tail(cs)
  }

  /** Each component preceded by a separator. */
  function Tail(cs: seq<string>): string {
    if cs == [] then "" else [SEP] + cs[0] + Tail(cs[1..])
  }

  function CleanRooted(p: string): string {
    Render(Walk([], Split(p)))
  }

  /** filepath.Join(dest, name) for an absolute, cleaned dest made of a volume name and a rooted
      path. */
  function Join(volume: string, dest: seq<string>, name: string): string {
    volume + CleanRooted(Render(dest) + [SEP] + name)
  }

  function Abs(volume: string, dest: seq<string>): string {
    volume + Render(dest)
  }

  predicate HasPrefix(s: string, p: string) {
    |p| <= |s| && s[..|p|] == p
  }

  /** The guard in extractZip, on strings as the code has it. */
  predicate Accepted(volume: string, dest: seq<string>, name: string) {
    var entryPath := Join(volume, dest, name);
    var destAbs := Abs(volume, dest);
    entryPath == destAbs || HasPrefix(entryPath, destAbs + [SEP])
  }

  /** The components an entry name leads to from dest. */
  function Target(dest: seq<string>, name: string): seq<string> {
    Walk(dest, Split(name))
  }

  /** The components of a path with ".tmp" appended to its string. */
  function TempOf(cs: seq<string>): seq<string> {
    if cs == [] then [".tmp"] else cs[..|cs| - 1] + [cs[|cs| - 1] + ".tmp"]
  }

  // ---- cleaning -----------------------------------------------------------

  lemma {:induction false} SplitAtAny(a: string, sep: char, b: string)
    requires sep == '\\' || sep == '/'
    ensures Split(a + [sep] + b) == Split(a) + Split(b)
  {
    if a == "" {
      assert (a + [sep] + b)[1..] == b;
    } else {
      assert (a + [sep] + b)[1..] == a[1..] + [sep] + b;
      SplitAtAny(a[1..], sep, b);
    }
  }

  lemma SplitAt(a: string, b: string)
    ensures Split(a + [SEP] + b) == Split(a) + Split(b)
  {
    SplitAtAny(a, SEP, b);
  }

  lemma {:induction false} SplitSepFree(a: string)
    requires SepFree(a)
    ensures Split(a) == [a]
  {
    if a != "" {
      SplitSepFree(a[1..]);
      assert [a[0]] + a[1..] == a;
    }
  }

  lemma {:induction false} SplitFrom(c: string, cs: seq<string>)
    requires SepFree(c) && Clean(cs)
    ensures Split(c + Tail(cs)) == [c] + cs
    decreases |cs|
  {
    SplitSepFree(c);
    if cs == [] {
      assert c + Tail(cs) == c;
    } else {
      var rest := cs[0] + Tail(cs[1..]);
      assert c + Tail(cs) == c + [SEP] + rest;
      SplitAt(c, rest);
      SplitFrom(cs[0], cs[1..]);
      assert [cs[0]] + cs[1..] == cs;
    }
  }

  lemma SplitTail(cs: seq<string>)
    requires Clean(cs)
    ensures Split(Tail(cs)) == [""] + cs
  {
    SplitFrom("", cs);
    assert "" + Tail(cs) == Tail(cs);
  }

  lemma {:induction false} WalkConcat(cs: seq<string>, a: seq<string>, b: seq<string>)
    ensures Walk(cs, a + b) == Walk(Walk(cs, a), b)
    decreases |a|
  {
    if a == [] {
      assert a + b == b;
    } else {
      assert (a + b)[1..] == a[1..] + b;
      WalkConcat(Walk1(cs, a[0]), a[1..], b);
    }
  }

  /** Walking along clean components only appends them. */
  lemma {:induction false} WalkClean(cs: seq<string>, more: seq<string>)
    requires Clean(more)
    ensures Walk(cs, more) == cs + more
    decreases |more|
  {
    if more != [] {
      WalkClean(cs + [more[0]], more[1..]);
      assert cs + [more[0]] + more[1..] == cs + more;
    } else {
      assert cs + more == cs;
    }
  }

  lemma {:induction false} WalkStaysClean(cs: seq<string>, segs: seq<string>)
    requires Clean(cs)
    requires forall i :: 0 <= i < |segs| ==> SepFree(segs[i])
    ensures Clean(Walk(cs, segs))
    decreases |segs|
  {
    if segs != [] {
      WalkStaysClean(Walk1(cs, segs[0]), segs[1..]);
    }
  }

  /** Joining a name to a cleaned destination walks the name's segments from the destination. */
  lemma JoinIsWalk(volume: string, dest: seq<string>, name: string)
    requires Clean(dest)
    ensures Clean(Target(dest, name))
    ensures Join(volume, dest, name) == Abs(volume, Target(dest, name))
  {
    var segs := Split(name);
    SplitAt(Render(dest), name);
    WalkStaysClean(dest, segs);
    if dest == [] {
      assert Render(dest) == [SEP];
      SplitAt("", "");
      assert "" + [SEP] + "" == [SEP];
      assert Split([SEP]) == ["", ""];
      WalkConcat([], ["", ""], segs);
      assert Walk([], ["", ""]) == [];
    } else {
      SplitTail(dest);
      WalkConcat([], [""] + dest, segs);
      WalkConcat([], [""], dest);
      assert Walk([], [""]) == [];
      WalkClean([], dest);
      assert [] + dest == dest;
    }
  }

  // ---- what each segment of a name means --------------------------------------

  /** The two separators of Windows paths, and nothing else, end a segment. */
  predicate Separator(sep: char) {
    sep == '\\' || sep == '/'
  }

  predicate NoSeparator(s: string) {
    '\\' !in s && '/' !in s
  }

  lemma NameStart(dest: seq<string>, seg: string, sep: char, name: string)
    requires NoSeparator(seg) && Separator(sep)
    ensures Target(dest, seg + [sep] + name) == Target(Walk(dest, [seg]), name)
    ensures Target(dest, seg) == Walk(dest, [seg])
  {
    SplitAtAny(seg, sep, name);
    SplitSepFree(seg);
    WalkConcat(dest, [seg], Split(name));
  }

  /** An empty segment leads nowhere. */
  lemma EmptyStays(dest: seq<string>, sep: char, name: string)
    requires Separator(sep)
    ensures Target(dest, [sep] + name) == Target(dest, name)
    ensures Target(dest, "") == dest
  {
    NameStart(dest, "", sep, name);
    assert "" + [sep] + name == [sep] + name;
  }

  /** Nor does ".". */
  lemma DotStays(dest: seq<string>, sep: char, name: string)
    requires Separator(sep)
    ensures Target(dest, "." + [sep] + name) == Target(dest, name)
    ensures Target(dest, ".") == dest
  {
    NameStart(dest, ".", sep, name);
  }

  /** ".." leads one component up. */
  lemma DotDotGoesUp(dest: seq<string>, c: string, sep: char, name: string)
    requires Separator(sep)
    ensures Target(dest + [c], ".." + [sep] + name) == Target(dest, name)
    ensures Target(dest + [c], "..") == dest
  {
    NameStart(dest + [c], "..", sep, name);
    assert (dest + [c])[..|dest|] == dest;
  }

  /** At the root there is no way up. */
  lemma DotDotAtRoot(sep: char, name: string)
    requires Separator(sep)
    ensures Target([], ".." + [sep] + name) == Target([], name)
    ensures Target([], "..") == []
  {
    NameStart([], "..", sep, name);
  }

  /** Any other segment leads down. */
  lemma OtherGoesDown(dest: seq<string>, c: string, sep: char, name: string)
    requires Separator(sep) && NoSeparator(c) && c != "" && c != "." && c != ".."
    ensures Target(dest, c + [sep] + name) == Target(dest + [c], name)
    ensures Target(dest, c) == dest + [c]
  {
    NameStart(dest, c, sep, name);
  }

  /** The same for the strings the code works on: joining a name that begins with ".." is joining the rest
      to the destination's parent. */
  lemma JoinGoesUp(volume: string, dest: seq<string>, c: string, sep: char, name: string)
    requires Clean(dest + [c]) && Separator(sep)
    ensures Join(volume, dest + [c], ".." + [sep] + name) == Join(volume, dest, name)
  {
    assert forall i :: 0 <= i < |dest| ==> (dest + [c])[i] == dest[i];
    JoinIsWalk(volume, dest + [c], ".." + [sep] + name);
    JoinIsWalk(volume, dest, name);
    DotDotGoesUp(dest, c, sep, name);
  }

  lemma Regroup(a: string, b: string, c: string, d: string)
    ensures a + (b + c + d) == a + b + c + d
  {
  }

  /** What a cleaned path looks like: the volume, and each component behind a backslash. */
  lemma AbsRoot(volume: string, c: string)
    ensures Abs(volume, []) == volume + "\\" && Abs(volume, [c]) == volume + "\\" + c
  {
    TailSnoc([], c);
    assert [] + [c] == [c];
    Regroup(volume, "", "\\", c);
    assert volume + "" == volume;
  }

  lemma AbsSnoc(volume: string, cs: seq<string>, c: string)
    requires cs != []
    ensures Abs(volume, cs + [c]) == Abs(volume, cs) + "\\" + c
  {
    TailSnoc(cs, c);
    Regroup(volume, Tail(cs), "\\", c);
  }

  // ---- string prefix versus component prefix ------------------------------

  /** Two separator-free strings that are followed by a separator (or nothing) and agree as a
      prefix are equal. */
  lemma FirstComponent(e: string, x: string, d: string, y: string)
    requires SepFree(e) && SepFree(d)
    requires x == "" || x[0] == SEP
    requires y != "" && y[0] == SEP
    requires HasPrefix(e + x, d + y)
    ensures e == d && HasPrefix(x, y)
  {
    var s, p := e + x, d + y;
    assert forall i :: 0 <= i < |p| ==> s[i] == s[..|p|][i] == p[i];
    var m := if |e| < |d| then |e| else |d|;
    assert s[m] == p[m];
    assert |e| == |d|;
    assert e == d by {
      forall i | 0 <= i < |d| ensures e[i] == d[i] {
        assert s[i] == p[i];
      }
    }
    assert x[..|y|] == y by {
      forall i | 0 <= i < |y| ensures x[i] == y[i] {
        assert s[|d| + i] == p[|d| + i];
      }
    }
  }

  lemma VolumePrefix(volume: string, s: string, p: string)
    ensures HasPrefix(volume + s, volume + p) <==> HasPrefix(s, p)
  {
    if |p| <= |s| {
      assert (volume + s)[..|volume + p|] == volume + s[..|p|];
      if HasPrefix(volume + s, volume + p) {
        assert volume + s[..|p|] == volume + p;
        assert (volume + s[..|p|])[|volume|..] == (volume + p)[|volume|..];
      }
    }
  }

  lemma FirstMatches(e: string, x: string, d: string, y: string)
    requires SepFree(e) && SepFree(d)
    requires x == "" || x[0] == SEP
    requires y != "" && y[0] == SEP
    ensures HasPrefix([SEP] + (e + x), [SEP] + (d + y)) <==> e == d && HasPrefix(x, y)
  {
    VolumePrefix([SEP], e + x, d + y);
    if HasPrefix(e + x, d + y) {
      FirstComponent(e, x, d, y);
    } else if e == d {
      VolumePrefix(e, x, y);
    }
  }

  lemma TailCons(cs: seq<string>)
    requires cs != []
    ensures Tail(cs) == [SEP] + (cs[0] + Tail(cs[1..]))
    ensures Tail(cs) + [SEP] == [SEP] + (cs[0] + (Tail(cs[1..]) + [SEP]))
  {
  }

  lemma {:induction false} TailPrefix(es: seq<string>, ds: seq<string>)
    requires Clean(es) && Clean(ds)
    ensures HasPrefix(Tail(es), Tail(ds) + [SEP]) <==> ds < es
    decreases |ds|
  {
    if es == [] {
    } else if ds == [] {
      assert Tail(es)[..1] == [SEP];
    } else {
      TailPrefix(es[1..], ds[1..]);
      FirstMatches(es[0], Tail(es[1..]), ds[0], Tail(ds[1..]) + [SEP]);
      TailCons(es);
      TailCons(ds);
      ConsPrefix(es, ds);
    }
  }

  lemma ConsPrefix(es: seq<string>, ds: seq<string>)
    requires es != [] && ds != []
    ensures ds < es <==> es[0] == ds[0] && ds[1..] < es[1..]
  {
    if ds < es {
      assert ds[0] == es[..|ds|][0];
      assert es[1..][..|ds| - 1] == es[..|ds|][1..];
    }
    if es[0] == ds[0] && ds[1..] < es[1..] {
      assert es[..|ds|] == [es[0]] + es[1..][..|ds| - 1];
    }
  }

  lemma {:induction false} TailInjective(es: seq<string>, ds: seq<string>)
    requires Clean(es) && Clean(ds) && Tail(es) == Tail(ds)
    ensures es == ds
    decreases |ds|
  {
    if es != [] && ds != [] {
      var e, d, x, y := es[0], ds[0], Tail(es[1..]), Tail(ds[1..]);
      assert Tail(es)[1..] == e + x && Tail(ds)[1..] == d + y;
      assert e + (x + [SEP]) == d + (y + [SEP]) by {
        assert e + (x + [SEP]) == Tail(es)[1..] + [SEP];
        assert d + (y + [SEP]) == Tail(ds)[1..] + [SEP];
      }
      FirstComponent(e, x + [SEP], d, y + [SEP]);
      assert x == (e + x)[|e|..] && y == (d + y)[|d|..];
      TailInjective(es[1..], ds[1..]);
      assert es == [e] + es[1..] && ds == [d] + ds[1..];
    }
  }

  /** Equal rendered paths have equal components. */
  lemma RenderInjective(es: seq<string>, ds: seq<string>)
    requires Clean(es) && Clean(ds) && Render(es) == Render(ds)
    ensures es == ds
  {
    assert es != [] ==> |Tail(es)| >= 2;
    assert ds != [] ==> |Tail(ds)| >= 2;
    if es != [] && ds != [] {
      TailInjective(es, ds);
    }
  }

  /** Containment. The string guard accepts a name exactly when, component by component, the
      destination is a prefix of the path the name leads to; the volume's root is the exception,
      where the guard accepts only names that lead back to the root itself. */
  lemma AcceptedIffInside(volume: string, dest: seq<string>, name: string)
    requires Clean(dest)
    ensures Clean(Target(dest, name))
    ensures Join(volume, dest, name) == Abs(volume, Target(dest, name))
    ensures dest != [] ==> (Accepted(volume, dest, name) <==> dest <= Target(dest, name))
    ensures dest == [] ==> (Accepted(volume, dest, name) <==> Target(dest, name) == [])
  {
    JoinIsWalk(volume, dest, name);
    var es := Target(dest, name);
    var s, p := Render(es), Render(dest);
    assert volume + p + [SEP] == volume + (p + [SEP]);
    VolumePrefix(volume, s, p + [SEP]);
    if volume + s == volume + p {
      assert s == (volume + s)[|volume|..] == (volume + p)[|volume|..] == p;
      RenderInjective(es, dest);
    }
    if dest <= es && |es| <= |dest| {
      assert es == dest;
    }
    if dest != [] && es != [] {
      TailPrefix(es, dest);
    } else if es != [] {
      assert s[1] == es[0][0];
      assert (p + [SEP])[1] == SEP;
      assert s[1] != SEP;
      assert s[..2][1] == s[1];
    } else if dest != [] {
      assert |p| >= 2;
    }
  }

  /** A name that begins with ".." is refused unless the rest of it comes back in. */
  lemma UpAndBack(volume: string, dest: seq<string>, c: string, sep: char, name: string)
    requires Clean(dest + [c]) && Separator(sep)
    ensures Accepted(volume, dest + [c], ".." + [sep] + name) <==> dest + [c] <= Target(dest, name)
  {
    AcceptedIffInside(volume, dest + [c], ".." + [sep] + name);
    DotDotGoesUp(dest, c, sep, name);
  }

  /** A sibling of the destination is refused, whatever follows. */
  lemma SiblingRefused(volume: string, dest: seq<string>, c: string, other: string, sep: char)
    requires Clean(dest + [c]) && Separator(sep)
    requires NoSeparator(other) && other != "" && other != "." && other != ".." && other != c
    ensures !Accepted(volume, dest + [c], ".." + [sep] + other)
  {
    UpAndBack(volume, dest, c, sep, other);
    OtherGoesDown(dest, other, sep, "");
    assert (dest + [c])[|dest|] == c && (dest + [other])[|dest|] == other;
  }

  /** The temporary sibling's string is the rendering of TempOf, and is a cleaned path. */
  lemma TempIsSibling(volume: string, cs: seq<string>)
    requires Clean(cs)
    ensures Clean(TempOf(cs))
    ensures Abs(volume, cs) + ".tmp" == Abs(volume, TempOf(cs))
  {
    if cs == [] {
      assert Tail([".tmp"]) == [SEP] + ".tmp" + "";
    } else {
      var k := |cs| - 1;
      TailSnoc(cs[..k], cs[k]);
      TailSnoc(cs[..k], cs[k] + ".tmp");
      assert cs[..k] + [cs[k]] == cs;
      assert |cs[k] + ".tmp"| > 2;
    }
  }

  lemma {:induction false} TailSnoc(cs: seq<string>, c: string)
    ensures Tail(cs + [c]) == Tail(cs) + [SEP] + c
  {
    if cs == [] {
      assert cs + [c] == [c];
    } else {
      assert (cs + [c])[1..] == cs[1..] + [c];
      TailSnoc(cs[1..], c);
    }
  }

  /** For an accepted name, the temporary path is inside the destination exactly when the name does
      not lead to the destination itself. */
  lemma TempInside(dest: seq<string>, name: string)
    requires dest != [] && dest <= Target(dest, name)
    ensures dest <= TempOf(Target(dest, name)) <==> Target(dest, name) != dest
  {
    var es := Target(dest, name);
    var k := |dest| - 1;
    if es == dest {
      assert TempOf(es)[k] == dest[k] + ".tmp";
      assert |TempOf(es)[k]| != |dest[k]|;
      assert TempOf(es)[..|dest|][k] == TempOf(es)[k];
    } else {
      assert |es| > |dest|;
      assert TempOf(es)[..|dest|] == es[..|dest|];
    }
  }
}
