/** The container directory of the unit tests, handle "handle" under
    `C:\Containers`, and what its path mappings give for the paths the
    tests try. */
module ContainerDirectoryExamples {
  import opened Wrappers
  import opened ContainerPaths
  import opened ContainerDirectories
  import Text

  predicate IsTestDirectory(d: ContainerDirectory) {
    d.containerBasePath == "C:\\Containers" && d.containerHandle == "handle"
  }

  /** The roots of the test directory, and its volume. */
  lemma TestDirectoryRoots(d: ContainerDirectory)
    requires IsTestDirectory(d)
    ensures d.ContainerPath() == "C:\\Containers\\handle"
    ensures d.BinPath() == "C:\\Containers\\handle\\bin"
    ensures d.PrivatePath() == "C:\\Containers\\handle\\private"
    ensures d.UserPath() == "C:\\Containers\\handle\\user"
    ensures d.Volume() == "C:\\"
  {
    assert d.containerBasePath[2] == '\\';
  }

  /** "/" and "\" are the root itself. */
  lemma WalkRoot()
    ensures Walk([], ["", ""]) == Some([])
  {
    assert ["", ""][1..] == [""];
    assert [""][1..] == [];
  }

  lemma {:induction false} WalkPathTo(a: string)
    requires IsName(a)
    ensures Walk([], ["", "path", "to", a]) == Some(["path", "to", a])
  {
    calc {
      Walk([], ["", "path", "to", a]);
      Walk([], ["path", "to", a]);
      { assert [] + ["path"] == ["path"]; }
      Walk(["path"], ["to", a]);
      { assert ["to", a][1..] == [a] && ["path"] + ["to"] == ["path", "to"]; }
      Walk(["path", "to"], [a]);
      { assert [a][1..] == [] && ["path", "to"] + [a] == ["path", "to", a]; }
      Walk(["path", "to", a], []);
    }
  }

  lemma {:induction false} WalkUpTwice(a: string)
    requires IsName(a)
    ensures Walk([], ["", "path", "to", "..", "..", a]) == Some([a])
  {
    calc {
      Walk([], ["", "path", "to", "..", "..", a]);
      Walk([], ["path", "to", "..", "..", a]);
      { assert [] + ["path"] == ["path"]; }
      Walk(["path"], ["to", "..", "..", a]);
      { assert ["to", "..", "..", a][1..] == ["..", "..", a] && ["path"] + ["to"] == ["path", "to"]; }
      Walk(["path", "to"], ["..", "..", a]);
      Walk(["path"], ["..", a]);
      Walk([], [a]);
      { assert [a][1..] == [] && [] + [a] == [a]; }
      Walk([a], []);
    }
  }

  /** The pieces of "/path/to/<a>" and "\\path\\to\\<a>". */
  lemma {:induction false} PathToPieces(a: string, sep: char)
    ensures JoinWith(["", "path", "to", a], sep) == [sep] + "path" + [sep] + "to" + [sep] + a
  {
    var segs := ["", "path", "to", a];
    assert segs[1..] == ["path", "to", a];
    assert segs[1..][1..] == ["to", a];
    assert segs[1..][1..][1..] == [a];
    assert JoinWith(["to", a], sep) == "to" + [sep] + a;
    assert JoinWith(["path", "to", a], sep) == "path" + [sep] + ("to" + [sep] + a);
  }

  lemma {:induction false} UpTwicePieces(a: string)
    ensures JoinWith(["", "path", "to", "..", "..", a], '/') == "/path/to/../../" + a
  {
    assert ["", "path", "to", "..", "..", a][1..] == ["path", "to", "..", "..", a];
    assert ["path", "to", "..", "..", a][1..] == ["to", "..", "..", a];
    assert ["to", "..", "..", a][1..] == ["..", "..", a];
    assert ["..", "..", a][1..] == ["..", a];
    assert ["..", a][1..] == [a];
    assert JoinWith([a], '/') == a;
    assert ".." + ['/'] == "../";
    assert JoinWith(["..", a], '/') == "../" + a;
    assert JoinWith(["..", "..", a], '/') == "../../" + a;
    assert JoinWith(["to", "..", "..", a], '/') == "to/../../" + a;
    assert JoinWith(["path", "to", "..", "..", a], '/') == "path/to/../../" + a;
  }

  lemma {:induction false} RenderPathTo(root: string, a: string)
    ensures Render(root, ["path", "to", a]) == root + "\\path\\to\\" + a
  {
    var names := ["path", "to", a];
    assert names[1..] == ["to", a] && names[1..][1..] == [a];
    assert JoinWith(["to", a], '\\') == "to" + "\\" + a;
    assert Join(names) == "path" + "\\" + ("to" + "\\" + a);
  }

  /** "/" and "\" are the root itself. */
  lemma RootPaths(root: string)
    ensures MapPath(root, "/") == Ok(root + "\\")
    ensures MapPath(root, "\\") == Ok(root + "\\")
  {
    WalkRoot();
    MapPathOfPieces(root, ["", ""]);
    assert JoinWith(["", ""], '/') == "/";
    assert Render(root, []) == root + "\\";
    assert Split("\\") == ["", ""];
  }

  /** A rooted path maps below `root`, with either separator. */
  lemma RootedPaths(root: string, a: string)
    requires IsName(a)
    ensures MapPath(root, "/path/to/" + a) == Ok(root + "\\path\\to\\" + a)
    ensures MapPath(root, "\\path\\to\\" + a) == Ok(root + "\\path\\to\\" + a)
  {
    WalkPathTo(a);
    RenderPathTo(root, a);
    PathToPieces(a, '/');
    assert "/path/to/" + a == ['/'] + "path" + ['/'] + "to" + ['/'] + a;
    MapPathOfPieces(root, ["", "path", "to", a]);
    assert Split("\\path\\to\\" + a) == ["", "path", "to", a] by {
      assert forall i :: 0 <= i < 4 ==> NoSeparator(["", "path", "to", a][i]);
      SplitJoin(["", "path", "to", a], '\\');
      PathToPieces(a, '\\');
      assert "\\path\\to\\" + a == ['\\'] + "path" + ['\\'] + "to" + ['\\'] + a;
    }
  }

  /** Each ".." removes the name before it. */
  lemma CanonicalisedPath(root: string, a: string)
    requires IsName(a)
    ensures MapPath(root, "/path/to/../../" + a) == Ok(root + "\\" + a)
  {
    WalkUpTwice(a);
    UpTwicePieces(a);
    MapPathOfPieces(root, ["", "path", "to", "..", "..", a]);
  }

  /** "/../../.." climbs out of the root at its first "..". */
  lemma EscapingThreeUp(root: string)
    ensures MapPath(root, "/../../..").Err?
  {
    var segs := ["", "..", "..", ".."];
    assert segs[1..] == ["..", "..", ".."] && segs[1..][1..] == ["..", ".."] && segs[1..][1..][1..] == [".."];
    assert JoinWith(["..", ".."], '/') == "../..";
    assert JoinWith(["..", "..", ".."], '/') == "../../..";
    assert JoinWith(segs, '/') == "/../../..";
    assert Walk([], segs) == Walk([], segs[1..]) == None;
    MapPathOfPieces(root, segs);
  }

  /** The pieces of "/../bin/app", walked from the pieces of the test's
      `bin` root, end below that root. */
  lemma WalkBackIn()
    ensures Walk(["Containers", "handle", "bin"], ["", "..", "bin", "app"])
            == Some(["Containers", "handle", "bin", "app"])
  {
    var stack := ["Containers", "handle", "bin"];
    var segs := ["", "..", "bin", "app"];
    assert segs[1..] == ["..", "bin", "app"] && segs[1..][1..] == ["bin", "app"] && segs[1..][1..][1..] == ["app"];
    assert stack[..2] == ["Containers", "handle"];
    assert ["Containers", "handle"] + ["bin"] == stack;
    assert stack + ["app"] == ["Containers", "handle", "bin", "app"];
    calc {
      Walk(stack, segs);
      Walk(stack, segs[1..]);
      Walk(stack[..2], segs[1..][1..]);
      Walk(stack, segs[1..][1..][1..]);
      Walk(stack + ["app"], []);
    }
  }

  /** "/../bin/app" under the test's `bin` root climbs out and comes back
      in: it is refused, although resolved against the root's own pieces it
      ends below them. */
  lemma ClimbOutAndBack(root: string)
    ensures MapPath(root, "/../bin/app").Err?
    ensures Walk(["Containers", "handle", "bin"], Split("/../bin/app"))
            == Some(["Containers", "handle", "bin", "app"])
  {
    var segs := ["", "..", "bin", "app"];
    assert segs[1..] == ["..", "bin", "app"];
    assert JoinWith(["bin", "app"], '/') == "bin/app";
    assert JoinWith(["..", "bin", "app"], '/') == "../bin/app";
    assert JoinWith(segs, '/') == "/../bin/app";
    assert Walk([], segs) == Walk([], segs[1..]) == None;
    MapPathOfPieces(root, segs);
    SplitJoin(segs, '/');
    WalkBackIn();
  }

  /** "/.." and "/../" climb out of the root. */
  lemma EscapingOneUp(root: string)
    ensures MapPath(root, "/..").Err?
    ensures MapPath(root, "/../").Err?
  {
    var segs := ["", ".."];
    assert segs[1..] == [".."];
    assert Walk([], segs) == Walk([], segs[1..]) == None;
    MapPathOfPieces(root, segs);
    var segs' := ["", "..", ""];
    assert segs'[1..] == ["..", ""] && segs'[1..][1..] == [""];
    assert JoinWith(["..", ""], '/') == "../";
    assert Walk([], segs') == Walk([], segs'[1..]) == None;
    MapPathOfPieces(root, segs');
  }

  /** A relative path starting with ".." climbs out of the root too. */
  lemma EscapingRelativePaths(root: string)
    ensures MapPath(root, "../").Err?
    ensures MapPath(root, "..").Err?
  {
    MapPathOfPieces(root, ["..", ""]);
    MapPathOfPieces(root, [".."]);
  }

  /** One name, then two "..": the second climbs out of the root. */
  lemma {:induction false} EscapeAfterName(root: string, a: string)
    requires IsName(a)
    ensures MapPath(root, "/" + a + "/../..").Err?
  {
    var segs := ["", a, "..", ".."];
    assert segs[1..] == [a, "..", ".."] && segs[1..][1..] == ["..", ".."] && segs[1..][1..][1..] == [".."];
    assert JoinWith(segs, '/') == "/" + a + "/../.." by {
      assert JoinWith(["..", ".."], '/') == "../..";
      assert JoinWith([a, "..", ".."], '/') == a + "/" + "../..";
    }
    assert Walk([], segs) == None by {
      calc {
        Walk([], segs);
        Walk([], [a, "..", ".."]);
        { assert [] + [a] == [a]; }
        Walk([a], ["..", ".."]);
        { assert [a][..0] == []; }
        Walk([], [".."]);
      }
    }
    MapPathOfPieces(root, segs);
  }

  /** A rooted path is neither blank nor a drive path. */
  lemma RootedIsMapped(p: string)
    requires p != [] && IsSeparator(p[0])
    ensures !Text.IsNullOrWhiteSpace(Some(p)) && !HasDriveLetter(p)
  {
    assert !Text.IsWhiteSpace(p[0]);
  }

  /** A rooted container path maps under the user root exactly as `MapPath`
      maps it, so the examples above hold for `MapUserPath` too. */
  lemma MapUserPathRooted(d: ContainerDirectory, p: string)
    requires p != [] && IsSeparator(p[0])
    ensures d.MapUserPath(p) == MapPath(d.UserPath(), p)
  {
    RootedIsMapped(p);
  }

  /** A blank path maps to the user root, and a path with a drive letter is
      left as it is. */
  lemma MapUserPathSpecialCases(d: ContainerDirectory)
    ensures d.MapUserPath("") == Ok(d.UserPath() + "\\")
    ensures d.MapUserPath(" ") == Ok(d.UserPath() + "\\")
    ensures d.MapUserPath("C:\\Windows\\System32\\cmd.exe") == Ok("C:\\Windows\\System32\\cmd.exe")
  {
    assert Text.IsNullOrWhiteSpace(Some(" "));
  }

  /** A source that is a symlink to a symlink: the chain reaches the
      original directory and stops there. */
  lemma FollowsSymlinkChain()
    ensures var links := map["symlink2" := "symlink1", "symlink1" := "originalDir"];
            SymlinkChain(links, "symlink2", |links|) == ["symlink2", "symlink1", "originalDir"]
  {
    var links := map["symlink2" := "symlink1", "symlink1" := "originalDir"];
    assert links.Keys == {"symlink2", "symlink1"};
    assert |links| == |links.Keys| == 2;
    assert "originalDir" !in links;
    assert SymlinkChain(links, "originalDir", 0) == ["originalDir"];
    assert SymlinkChain(links, "symlink1", 1) == ["symlink1", "originalDir"];
  }
}
