/** How a container's own view of a path ("/path/to/app", "..\x", "\data")
    becomes a host path under one of the container's roots: the path is cut
    at every '/' and '\', empty and "." pieces vanish, ".." removes the piece
    before it, and a ".." with nothing left to remove climbs out of the root,
    which is an error. What remains is joined with '\' under the root. */
module ContainerPaths {
  import opened Wrappers
  import Text

  predicate IsSeparator(c: char) {
    c == '/' || c == '\\'
  }

  predicate NoSeparator(s: string) {
    forall i :: 0 <= i < |s| ==> !IsSeparator(s[i])
  }

  /** A piece that survives canonicalisation: a real directory or file name. */
  predicate IsName(s: string) {
    s != "" && s != "." && s != ".." && NoSeparator(s)
  }

  predicate AllNames(segs: seq<string>) {
    forall i :: 0 <= i < |segs| ==> IsName(segs[i])
  }

  /** The pieces of `p` between separators, empty pieces included. */
  function Split(p: string): (r: seq<string>)
    ensures |r| >= 1
    ensures forall i :: 0 <= i < |r| ==> NoSeparator(r[i])
  {
    if p == [] then [""]
    else if IsSeparator(p[0]) then [""] + Split(p[1..])
    else
      var rest := Split(p[1..]);
      [[p[0]] + rest[0]] + rest[1..]
  }

  /** The pieces joined with `sep` between them. */
  function JoinWith(segs: seq<string>, sep: char): string {
    if segs == [] then ""
    else if |segs| == 1 then segs[0]
    else segs[0] + [sep] + JoinWith(segs[1..], sep)
  }

  /** The pieces joined with the Windows separator '\'. */
  function Join(segs: seq<string>): string {
    JoinWith(segs, '\\')
  }

  /** Joining the pieces of a path again turns every '/' into '\' and changes
      nothing else. */
  lemma {:induction false} JoinSplit(p: string)
    ensures Join(Split(p)) == Text.Replace(p, '/', '\\')
  {
    if p == [] {
    } else if IsSeparator(p[0]) {
      JoinSplit(p[1..]);
      assert Text.Replace(p, '/', '\\') == "\\" + Text.Replace(p[1..], '/', '\\');
    } else {
      JoinSplit(p[1..]);
      var rest := Split(p[1..]);
      assert Text.Replace(p, '/', '\\') == [p[0]] + Text.Replace(p[1..], '/', '\\');
      if |rest| == 1 {
        assert Join(Split(p)) == [p[0]] + rest[0];
      } else {
        assert Join(Split(p)) == [p[0]] + rest[0] + "\\" + Join(rest[1..]);
        assert Join(rest) == rest[0] + "\\" + Join(rest[1..]);
      }
    }
  }

  lemma {:induction false} SplitName(w: string)
    requires NoSeparator(w)
    ensures Split(w) == [w]
  {
    if w != [] {
      SplitName(w[1..]);
      assert [w[0]] + w[1..] == w;
    }
  }

  /** A name followed by a separator is the first piece of the split. */
  lemma {:induction false} SplitAfterName(w: string, sep: char, t: string)
    requires NoSeparator(w) && IsSeparator(sep)
    ensures Split(w + [sep] + t) == [w] + Split(t)
  {
    if w == [] {
      assert (w + [sep] + t)[1..] == t;
    } else {
      SplitAfterName(w[1..], sep, t);
      assert (w + [sep] + t)[1..] == w[1..] + [sep] + t;
      assert [w[0]] + w[1..] == w;
    }
  }

  /** Splitting undoes joining, as long as no piece holds a separator. */
  lemma {:induction false} SplitJoin(segs: seq<string>, sep: char)
    requires |segs| >= 1 && IsSeparator(sep)
    requires forall i :: 0 <= i < |segs| ==> NoSeparator(segs[i])
    ensures Split(JoinWith(segs, sep)) == segs
  {
    if |segs| == 1 {
      SplitName(segs[0]);
    } else {
      SplitJoin(segs[1..], sep);
      SplitAfterName(segs[0], sep, JoinWith(segs[1..], sep));
      assert [segs[0]] + segs[1..] == segs;
    }
  }

  /** Joining one more piece puts it after a final separator. */
  lemma {:induction false} JoinSnoc(segs: seq<string>, sep: char)
    requires |segs| >= 2
    ensures JoinWith(segs, sep) == JoinWith(segs[..|segs| - 1], sep) + [sep] + segs[|segs| - 1]
  {
    if |segs| > 2 {
      JoinSnoc(segs[1..], sep);
      assert segs[1..][..|segs| - 2] == segs[..|segs| - 1][1..];
    }
  }

  /** What a piece does to the depth below the root. */
  function Step(s: string): int {
    if s == ".." then -1 else if s == "" || s == "." then 0 else 1
  }

  function Depth(segs: seq<string>): int {
    if segs == [] then 0 else Step(segs[0]) + Depth(segs[1..])
  }

  /** Starting `base` levels below the root, some prefix of `segs` climbs
      above it. This is the reference definition of "the path escapes". */
  ghost predicate Escapes(base: int, segs: seq<string>) {
    exists k :: 0 <= k <= |segs| && base + Depth(segs[..k]) < 0
  }

  /** Canonicalisation from a stack of names already resolved: `None` when a
      ".." finds the stack empty. */
  function Walk(stack: seq<string>, segs: seq<string>): (r: Option<seq<string>>)
    decreases |segs|
    ensures r.Some? ==> |r.value| == |stack| + Depth(segs)
    ensures r.Some? && AllNames(stack) && (forall i :: 0 <= i < |segs| ==> NoSeparator(segs[i]))
            ==> AllNames(r.value)
  {
    if segs == [] then Some(stack)
    else if segs[0] == ".." then
      if stack == [] then None else Walk(stack[..|stack| - 1], segs[1..])
    else if segs[0] == "" || segs[0] == "." then Walk(stack, segs[1..])
    else Walk(stack + [segs[0]], segs[1..])
  }

  lemma EscapesCons(base: int, segs: seq<string>)
    requires segs != []
    ensures Escapes(base, segs) <==> base < 0 || Escapes(base + Step(segs[0]), segs[1..])
  {
    forall k | 1 <= k <= |segs|
      ensures Depth(segs[..k]) == Step(segs[0]) + Depth(segs[1..][..k - 1])
    {
      assert segs[..k][1..] == segs[1..][..k - 1];
    }
    if Escapes(base, segs) {
      var k :| 0 <= k <= |segs| && base + Depth(segs[..k]) < 0;
      if k > 0 {
        assert base + Step(segs[0]) + Depth(segs[1..][..k - 1]) < 0;
      }
    }
    if Escapes(base + Step(segs[0]), segs[1..]) {
      var k :| 0 <= k <= |segs| - 1 && base + Step(segs[0]) + Depth(segs[1..][..k]) < 0;
      assert base + Depth(segs[..k + 1]) < 0;
    }
    if base < 0 {
      assert segs[..0] == [];
      assert base + Depth(segs[..0]) < 0;
    }
  }

  /** Canonicalisation fails exactly when the path escapes its root. */
  lemma {:induction false} WalkFailsIffEscapes(stack: seq<string>, segs: seq<string>)
    ensures Walk(stack, segs).None? <==> Escapes(|stack|, segs)
    decreases |segs|
  {
    if segs != [] {
      EscapesCons(|stack|, segs);
      if segs[0] == ".." {
        if stack == [] {
          assert segs[1..][..0] == [];
          assert -1 + Depth(segs[1..][..0]) < 0;
        } else {
          WalkFailsIffEscapes(stack[..|stack| - 1], segs[1..]);
        }
      } else if segs[0] == "" || segs[0] == "." {
        WalkFailsIffEscapes(stack, segs[1..]);
      } else {
        WalkFailsIffEscapes(stack + [segs[0]], segs[1..]);
      }
    }
  }

  /** Names alone are already canonical: they are pushed unchanged. */
  lemma {:induction false} WalkNames(stack: seq<string>, names: seq<string>)
    requires AllNames(names)
    ensures Walk(stack, names) == Some(stack + names)
    decreases |names|
  {
    if names != [] {
      WalkNames(stack + [names[0]], names[1..]);
      assert stack + [names[0]] + names[1..] == stack + names;
    } else {
      assert stack + names == stack;
    }
  }

  /** The canonical pieces of a container path, or `None` when it escapes. */
  function Canonicalise(p: string): (r: Option<seq<string>>)
    ensures r.Some? ==> AllNames(r.value)
    ensures r.None? <==> Escapes(0, Split(p))
  {
    WalkFailsIffEscapes([], Split(p));
    Walk([], Split(p))
  }

  /** Canonicalising a canonical path changes nothing. */
  lemma CanonicaliseIdempotent(p: string)
    requires Canonicalise(p).Some?
    ensures Canonicalise(Join(Canonicalise(p).value)) == Canonicalise(p)
  {
    var c := Canonicalise(p).value;
    if c == [] {
      assert Split(Join(c)) == [""];
    } else {
      SplitJoin(c, '\\');
      WalkNames([], c);
      assert [] + c == c;
    }
  }

  /** The host path of canonical pieces under `root`; "/" gives the root with
      a trailing '\'. */
  function Render(root: string, names: seq<string>): string {
    root + "\\" + Join(names)
  }

  datatype MapError = OutsideRoot(path: string)

  /** Maps a container path under `root` (`ArgumentException` when it escapes). */
  function MapPath(root: string, p: string): (r: Result<string, MapError>)
    ensures r.Err? <==> Escapes(0, Split(p))
    ensures r.Err? ==> r.error == OutsideRoot(p)
    ensures r.Ok? ==> |r.value| > |root| && r.value[..|root| + 1] == root + "\\"
  {
    match Canonicalise(p)
    case None => Err(OutsideRoot(p))
    case Some(names) => Ok(Render(root, names))
  }

  /** Mapping the part of a mapped path below the root again gives the same
      host path: the result is already canonical. */
  lemma MapPathIdempotent(root: string, p: string)
    requires MapPath(root, p).Ok?
    ensures MapPath(root, MapPath(root, p).value[|root| + 1..]) == MapPath(root, p)
  {
    var names := Canonicalise(p).value;
    assert MapPath(root, p).value[|root| + 1..] == Join(names);
    CanonicaliseIdempotent(p);
  }

  /** `MapPath` of a path written as its pieces joined with '/': the walk
      over exactly those pieces decides it. */
  lemma MapPathOfPieces(root: string, segs: seq<string>)
    requires |segs| >= 1
    requires forall i :: 0 <= i < |segs| ==> NoSeparator(segs[i])
    ensures MapPath(root, JoinWith(segs, '/'))
            == match Walk([], segs)
               case None => Err(OutsideRoot(JoinWith(segs, '/')))
               case Some(names) => Ok(Render(root, names))
  {
    SplitJoin(segs, '/');
  }

  /** A walk that never climbs out of `stack` goes the same way when `stack`
      itself lies below `outer`. */
  lemma {:induction false} WalkUnder(outer: seq<string>, stack: seq<string>, segs: seq<string>)
    requires Walk(stack, segs).Some?
    ensures Walk(outer + stack, segs) == Some(outer + Walk(stack, segs).value)
    decreases |segs|
  {
    if segs != [] {
      if segs[0] == ".." {
        assert (outer + stack)[..|outer + stack| - 1] == outer + stack[..|stack| - 1];
        WalkUnder(outer, stack[..|stack| - 1], segs[1..]);
      } else if segs[0] == "" || segs[0] == "." {
        WalkUnder(outer, stack, segs[1..]);
      } else {
        assert outer + stack + [segs[0]] == outer + (stack + [segs[0]]);
        WalkUnder(outer, stack + [segs[0]], segs[1..]);
      }
    }
  }

  /** Refusing every path that climbs above the root at any point is the
      stricter reading of "escapes the root": a path it accepts, resolved
      against the root's own pieces `rootNames`, stays below them with the
      same pieces, so a check on the final canonical path accepts it too. */
  lemma MapPathStricter(rootNames: seq<string>, p: string)
    requires Canonicalise(p).Some?
    ensures Walk(rootNames, Split(p)) == Some(rootNames + Canonicalise(p).value)
  {
    WalkUnder(rootNames, [], Split(p));
    assert rootNames + [] == rootNames;
  }

  /** The index of the last separator of `s`. */
  function LastSeparator(s: string): (r: Option<nat>)
    ensures r.Some? ==> r.value < |s| && IsSeparator(s[r.value]) && NoSeparator(s[r.value + 1..])
    ensures r.None? ==> NoSeparator(s)
  {
    if s == [] then None
    else if IsSeparator(s[|s| - 1]) then Some(|s| - 1)
    else
      var r := LastSeparator(s[..|s| - 1]);
      assert r.Some? ==> s[r.value + 1..] == s[..|s| - 1][r.value + 1..] + [s[|s| - 1]];
      r
  }

  predicate IsAsciiLetter(c: char) {
    ('a' <= c <= 'z') || ('A' <= c <= 'Z')
  }

  /** The path starts with a drive such as "C:". */
  predicate HasDriveLetter(p: string) {
    |p| >= 2 && IsAsciiLetter(p[0]) && p[1] == ':'
  }

  /** `Path.GetDirectoryName` for a rooted path: everything before the last
      separator, keeping the '\' of a drive root, and `None` for a drive root
      itself or for a path without a separator. */
  function DirectoryName(s: string): Option<string> {
    match LastSeparator(s)
    case None => None
    case Some(i) =>
      if i == 2 && HasDriveLetter(s) then (if |s| == 3 then None else Some(s[..3]))
      else Some(s[..i])
  }

  lemma LastSeparatorOf(a: string, b: string)
    requires a != [] && IsSeparator(a[|a| - 1]) && NoSeparator(b)
    ensures LastSeparator(a + b) == Some(|a| - 1)
  {
    var s := a + b;
    assert IsSeparator(s[|a| - 1]);
  }

  /** `DirectoryName` of a path whose last separator follows `parent`. */
  lemma DirectoryNameAfter(parent: string, name: string)
    requires |parent| >= 3 && NoSeparator(name)
    ensures DirectoryName(parent + "\\" + name) == Some(parent)
  {
    var s := parent + "\\" + name;
    LastSeparatorOf(parent + "\\", name);
    assert s[..|parent|] == parent;
  }

  /** The directory holding a mapped path is the mapping of its parent, and a
      path of at most one name lives directly in the root. */
  lemma ParentOfRender(root: string, names: seq<string>)
    requires |root| >= 3
    requires AllNames(names)
    ensures DirectoryName(Render(root, names))
            == Some(if |names| <= 1 then root else Render(root, names[..|names| - 1]))
  {
    var n := |names|;
    if n == 0 {
      DirectoryNameAfter(root, "");
    } else if n == 1 {
      DirectoryNameAfter(root, names[0]);
    } else {
      JoinSnoc(names, '\\');
      var parent := Render(root, names[..n - 1]);
      assert Render(root, names) == parent + "\\" + names[n - 1];
      DirectoryNameAfter(parent, names[n - 1]);
    }
  }
}
