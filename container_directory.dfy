/** The on-disk layout of one container under `<base>\<handle>`: its `bin`,
    `private` and `user` roots, the mapping of container paths into them,
    the ACL'd subdirectories, and the bind mounts that link host directories
    into the user root. The file system is a collaborator that records the
    calls it receives; the symlinks it already holds are fixed. */
module ContainerDirectories {
  import opened Wrappers
  import opened ContainerPaths
  import Text

  datatype FileAccess = Read | Write | ReadWrite

  datatype UserAccess = UserAccess(userName: string, access: FileAccess)

  datatype BindMount = BindMount(sourcePath: string, destinationPath: string)

  /** The calls that change the file system, as `IFileSystemManager` receives them. */
  datatype FsCall =
    | CreateDirectory(path: string, grants: seq<UserAccess>)
    | DeleteDirectory(path: string)
    | Symlink(link: string, target: string)
    | AddDirectoryAccess(path: string, access: FileAccess, userName: string)
    | RemoveDirectoryAccess(path: string, userName: string)

  const ADMINISTRATORS := "BUILTIN\\Administrators"

  class FileSystem {
    /** Directory symlinks present on the host, each to its target. */
    const symlinks: map<string, string>
    /** Every changing call received, oldest first. */
    var calls: seq<FsCall>

    constructor (symlinks: map<string, string>)
      ensures this.symlinks == symlinks && calls == []
    {
      this.symlinks := symlinks;
      calls := [];
    }

    predicate DirIsSymlink(path: string) {
      path in symlinks
    }

    function GetSymlinkTarget(path: string): (r: string)
      requires DirIsSymlink(path)
      ensures path in symlinks && r == symlinks[path]
    {
      symlinks[path]
    }

    method CreateDirectory(path: string, grants: seq<UserAccess>)
      modifies this
      ensures calls == old(calls) + [FsCall.CreateDirectory(path, grants)]
    {
      calls := calls + [FsCall.CreateDirectory(path, grants)];
    }

    method DeleteDirectory(path: string)
      modifies this
      ensures calls == old(calls) + [FsCall.DeleteDirectory(path)]
    {
      calls := calls + [FsCall.DeleteDirectory(path)];
    }

    method Symlink(link: string, target: string)
      modifies this
      ensures calls == old(calls) + [FsCall.Symlink(link, target)]
    {
      calls := calls + [FsCall.Symlink(link, target)];
    }

    method AddDirectoryAccess(path: string, access: FileAccess, userName: string)
      modifies this
      ensures calls == old(calls) + [FsCall.AddDirectoryAccess(path, access, userName)]
    {
      calls := calls + [FsCall.AddDirectoryAccess(path, access, userName)];
    }

    method RemoveDirectoryAccess(path: string, userName: string)
      modifies this
      ensures calls == old(calls) + [FsCall.RemoveDirectoryAccess(path, userName)]
    {
      calls := calls + [FsCall.RemoveDirectoryAccess(path, userName)];
    }
  }

  /** `Path.Combine` of a directory and a relative name. */
  function Combine(dir: string, name: string): (r: string)
    ensures |r| >= |name|
    ensures dir != [] && !IsSeparator(dir[|dir| - 1]) ==> r == dir + "\\" + name
  {
    if dir == [] then name
    else if IsSeparator(dir[|dir| - 1]) then dir + name
    else dir + "\\" + name
  }

  /** `path` followed by the targets of its symlinks, at most `fuel` links deep. */
  function SymlinkChain(links: map<string, string>, path: string, fuel: nat): (r: seq<string>)
    ensures 1 <= |r| <= fuel + 1 && r[0] == path
    decreases fuel
  {
    if path in links && fuel > 0 then [path] + SymlinkChain(links, links[path], fuel - 1)
    else [path]
  }

  /** Each element of a chain is a symlink to the next, and a chain shorter
      than its fuel allows ends at a path that is not a symlink. */
  lemma {:induction false} SymlinkChainFollowsLinks(links: map<string, string>, path: string, fuel: nat, i: nat)
    requires i < |SymlinkChain(links, path, fuel)|
    ensures var r := SymlinkChain(links, path, fuel);
            (i < |r| - 1 ==> r[i] in links && links[r[i]] == r[i + 1])
            && (|r| <= fuel && i == |r| - 1 ==> r[i] !in links)
    decreases fuel
  {
    if path in links && fuel > 0 && i > 0 {
      SymlinkChainFollowsLinks(links, links[path], fuel - 1, i - 1);
    }
  }

  /** Following one more link of a chain that `current` continues from
      position `k - 1` continues it from position `k`. */
  lemma ChainAdvance(links: map<string, string>, chain: seq<string>, current: string, fuel: nat, k: nat)
    requires 1 <= k <= |chain|
    requires SymlinkChain(links, current, fuel) == chain[k - 1..]
    requires current in links && fuel > 0
    ensures k < |chain| && chain[k] == links[current]
    ensures SymlinkChain(links, links[current], fuel - 1) == chain[k..]
  {
    assert chain[k - 1..][1..] == chain[k..];
  }

  /** No path occurs twice. */
  predicate NoRepeats(paths: seq<string>) {
    forall i, j :: 0 <= i < j < |paths| ==> paths[i] != paths[j]
  }

  lemma {:induction false} NoRepeatsCardinality(paths: seq<string>)
    requires NoRepeats(paths)
    ensures |set p | p in paths| == |paths|
  {
    if paths != [] {
      var init, last := paths[..|paths| - 1], paths[|paths| - 1];
      assert paths == init + [last];
      NoRepeatsCardinality(init);
      assert (set p | p in paths) == (set p | p in init) + {last};
      forall k | 0 <= k < |init| ensures init[k] != last {
        assert paths[k] == init[k];
      }
    }
  }

  lemma {:induction false} SubsetCardinality(a: set<string>, b: set<string>)
    requires a <= b
    ensures |a| <= |b|
    decreases a
  {
    if a != {} {
      var x :| x in a;
      SubsetCardinality(a - {x}, b - {x});
    }
  }

  /** Distinct paths that are all symlinks are no more than the symlinks. */
  lemma DistinctLinksBound(links: map<string, string>, paths: seq<string>)
    ensures NoRepeats(paths) && (forall k :: 0 <= k < |paths| ==> paths[k] in links) ==> |paths| <= |links|
  {
    if NoRepeats(paths) && (forall k :: 0 <= k < |paths| ==> paths[k] in links) {
      NoRepeatsCardinality(paths);
      SubsetCardinality((set p | p in paths), links.Keys);
    }
  }

  /** One link per symlink is fuel enough: a chain followed that far either
      ends at a path that is not a symlink or has come back to a path it
      already passed, that is, the links form a cycle. */
  lemma ChainFuelSuffices(links: map<string, string>, path: string)
    ensures var r := SymlinkChain(links, path, |links|);
            NoRepeats(r) ==> r[|r| - 1] !in links
  {
    var r := SymlinkChain(links, path, |links|);
    forall k | 0 <= k < |r|
      ensures (k < |r| - 1 ==> r[k] in links) && (|r| <= |links| && k == |r| - 1 ==> r[k] !in links)
    {
      SymlinkChainFollowsLinks(links, path, |links|, k);
    }
    DistinctLinksBound(links, r);
  }

  /** Read access for `userName` on each path, in order. */
  function GrantReads(paths: seq<string>, userName: string): (r: seq<FsCall>)
    ensures |r| == |paths|
  {
    if paths == [] then []
    else GrantReads(paths[..|paths| - 1], userName) + [AddDirectoryAccess(paths[|paths| - 1], Read, userName)]
  }

  /** The calls of `GrantReads` are exactly the read grants on the paths. */
  lemma {:induction false} GrantReadsMembers(paths: seq<string>, userName: string)
    ensures forall c :: c in GrantReads(paths, userName)
              ==> c.AddDirectoryAccess? && c.path in paths && c.access == Read && c.userName == userName
    ensures forall p :: p in paths ==> AddDirectoryAccess(p, Read, userName) in GrantReads(paths, userName)
  {
    if paths != [] {
      var init := paths[..|paths| - 1];
      GrantReadsMembers(init, userName);
      assert paths == init + [paths[|paths| - 1]];
    }
  }

  /** Removal of `userName`'s access from each path, in order. */
  function RevokeAccess(paths: seq<string>, userName: string): (r: seq<FsCall>)
    ensures |r| == |paths|
  {
    if paths == [] then []
    else RevokeAccess(paths[..|paths| - 1], userName) + [RemoveDirectoryAccess(paths[|paths| - 1], userName)]
  }

  /** The calls of `RevokeAccess` are exactly the removals on the paths. */
  lemma {:induction false} RevokeAccessMembers(paths: seq<string>, userName: string)
    ensures forall c :: c in RevokeAccess(paths, userName)
              ==> c.RemoveDirectoryAccess? && c.path in paths && c.userName == userName
    ensures forall p :: p in paths ==> RemoveDirectoryAccess(p, userName) in RevokeAccess(paths, userName)
  {
    if paths != [] {
      var init := paths[..|paths| - 1];
      RevokeAccessMembers(init, userName);
      assert paths == init + [paths[|paths| - 1]];
    }
  }

  /** A Unix-style source such as "/var/dir/source" in Windows form. */
  function WindowsSource(sourcePath: string): string {
    Text.Replace(sourcePath, '/', '\\')
  }

  /** The grants of a container directory: administrators and the identity
      running the container service may do anything, the container user gets
      `userAccess`. */
  function DirectoryGrants(currentIdentity: string, userName: string, userAccess: FileAccess): seq<UserAccess> {
    [UserAccess(ADMINISTRATORS, ReadWrite), UserAccess(currentIdentity, ReadWrite), UserAccess(userName, userAccess)]
  }

  /** What the calls of a bind-mount run did: the calls, and the error that
      stopped it, if any. */
  datatype Outcome = Outcome(calls: seq<FsCall>, error: Option<MapError>)

  type Step = Result<seq<FsCall>, MapError>

  /** Steps run in order: the calls of every step up to the first that
      fails, and that step's error. */
  function Sequence(steps: seq<Step>): Outcome
    decreases |steps|
  {
    if steps == [] then Outcome([], None)
    else
      var before := Sequence(steps[..|steps| - 1]);
      if before.error.Some? then before
      else match steps[|steps| - 1]
        case Err(e) => Outcome(before.calls, Some(e))
        case Ok(calls) => Outcome(before.calls + calls, None)
  }

  /** A run that has not failed yet either fails on the next step, with its
      error, or makes that step's calls. */
  lemma SequenceStep(steps: seq<Step>, i: nat)
    requires i < |steps|
    requires Sequence(steps[..i]).error.None?
    ensures var next := Sequence(steps[..i + 1]);
            && (next.error.Some? <==> steps[i].Err?)
            && (steps[i].Err? ==> next.error.value == steps[i].error)
            && next.calls == Sequence(steps[..i]).calls + (if steps[i].Ok? then steps[i].value else [])
  {
    assert steps[..i + 1][..i] == steps[..i];
  }

  /** Once a step has failed, the later steps add nothing. */
  lemma {:induction false} SequenceErrorPersists(steps: seq<Step>, k: nat)
    requires k <= |steps|
    requires Sequence(steps[..k]).error.Some?
    ensures Sequence(steps) == Sequence(steps[..k])
    decreases |steps| - k
  {
    if k < |steps| {
      var next := steps[..k + 1];
      assert next[..k] == steps[..k];
      SequenceErrorPersists(steps, k + 1);
    } else {
      assert steps[..k] == steps;
    }
  }

  /** A run fails exactly when one of its steps fails. */
  lemma {:induction false} SequenceFailsIff(steps: seq<Step>)
    ensures Sequence(steps).error.Some? <==> exists i :: 0 <= i < |steps| && steps[i].Err?
    decreases |steps|
  {
    if steps != [] {
      var n := |steps| - 1;
      var init := steps[..n];
      SequenceFailsIff(init);
      assert forall i :: 0 <= i < n ==> init[i] == steps[i];
    }
  }

  /** The first step that fails stops the run: its error is the result, and
      the calls are those of the steps before it. */
  lemma SequenceFirstError(steps: seq<Step>, i: nat)
    requires i < |steps| && steps[i].Err?
    requires forall j :: 0 <= j < i ==> steps[j].Ok?
    ensures Sequence(steps) == Outcome(Sequence(steps[..i]).calls, Some(steps[i].error))
  {
    SequenceFailsIff(steps[..i]);
    SequenceStep(steps, i);
    SequenceErrorPersists(steps, i + 1);
  }

  /** Every call of a run is a call of one of its steps that succeeded. */
  lemma {:induction false} SequenceCallsFrom(steps: seq<Step>, c: FsCall)
    requires c in Sequence(steps).calls
    ensures exists i :: 0 <= i < |steps| && steps[i].Ok? && c in steps[i].value
    decreases |steps|
  {
    var n := |steps| - 1;
    var init := steps[..n];
    if c in Sequence(init).calls {
      SequenceCallsFrom(init, c);
      var i :| 0 <= i < n && init[i].Ok? && c in init[i].value;
      assert init[i] == steps[i];
    } else {
      assert steps[n].Ok? && c in steps[n].value;
    }
  }

  /** A run that no step stopped made every call of every step. */
  lemma {:induction false} SequenceCallsComplete(steps: seq<Step>)
    requires Sequence(steps).error.None?
    ensures forall i :: 0 <= i < |steps| ==> steps[i].Ok?
    ensures forall i, c :: 0 <= i < |steps| && steps[i].Ok? && c in steps[i].value ==> c in Sequence(steps).calls
    decreases |steps|
  {
    SequenceFailsIff(steps);
    if steps != [] {
      var n := |steps| - 1;
      var init := steps[..n];
      SequenceCallsComplete(init);
      forall i, c | 0 <= i < |steps| && steps[i].Ok? && c in steps[i].value
        ensures c in Sequence(steps).calls
      {
        if i < n {
          assert init[i] == steps[i];
        }
      }
    }
  }

  class ContainerDirectory {
    const fileSystem: FileSystem
    const containerBasePath: string
    const containerHandle: string

    /** `ContainerDirectoryFactory.Create(fileSystem, basePath, handle)`. */
    constructor (fileSystem: FileSystem, containerBasePath: string, containerHandle: string)
      ensures this.fileSystem == fileSystem
      ensures this.containerBasePath == containerBasePath && this.containerHandle == containerHandle
    {
      this.fileSystem := fileSystem;
      this.containerBasePath := containerBasePath;
      this.containerHandle := containerHandle;
    }

    function ContainerPath(): string {
      Combine(containerBasePath, containerHandle)
    }

    function BinPath(): string {
      Combine(ContainerPath(), "bin")
    }

    function PrivatePath(): string {
      Combine(ContainerPath(), "private")
    }

    function UserPath(): (r: string)
      ensures |r| >= 4
    {
      Combine(ContainerPath(), "user")
    }

    /** The root of the volume holding the container directory: the drive
        and its separator for `C:\...`, the bare drive for `C:` or a
        drive-relative `C:x`, the separator for a rooted path without a drive,
        and nothing for a relative path. It is always the leading part of the
        base path, up to the kind of separator. */
    function Volume(): (r: string)
      ensures var b := containerBasePath;
              HasDriveLetter(b) && |b| >= 3 && IsSeparator(b[2]) ==> r == b[..2] + "\\"
      ensures var b := containerBasePath;
              HasDriveLetter(b) && (|b| == 2 || !IsSeparator(b[2])) ==> r == b[..2]
      ensures var b := containerBasePath;
              !HasDriveLetter(b) && b != [] && IsSeparator(b[0]) ==> r == "\\"
      ensures var b := containerBasePath;
              !HasDriveLetter(b) && (b == [] || !IsSeparator(b[0])) ==> r == ""
      ensures |r| <= |containerBasePath|
      ensures forall i :: 0 <= i < |r| ==>
                r[i] == containerBasePath[i] || (IsSeparator(r[i]) && IsSeparator(containerBasePath[i]))
    {
      var b := containerBasePath;
      if HasDriveLetter(b) then (if |b| >= 3 && IsSeparator(b[2]) then b[..2] + "\\" else b[..2])
      else if b != [] && IsSeparator(b[0]) then "\\"
      else ""
    }

    /** A container path as a host path under `bin`. */
    function MapBinPath(path: string): (r: Result<string, MapError>)
      ensures r.Err? <==> Escapes(0, Split(path))
      ensures r.Ok? ==> |r.value| > |BinPath()| && r.value[..|BinPath()| + 1] == BinPath() + "\\"
    {
      MapPath(BinPath(), path)
    }

    /** A container path as a host path under `private`. */
    function MapPrivatePath(path: string): (r: Result<string, MapError>)
      ensures r.Err? <==> Escapes(0, Split(path))
      ensures r.Ok? ==> |r.value| > |PrivatePath()| && r.value[..|PrivatePath()| + 1] == PrivatePath() + "\\"
    {
      MapPath(PrivatePath(), path)
    }

    /** A container path as a host path under `user`; a path with a drive
        letter is already a host path, and a blank one is the user root. */
    function MapUserPath(path: string): (r: Result<string, MapError>)
      ensures HasDriveLetter(path) ==> r == Ok(path)
      ensures !HasDriveLetter(path) && Text.IsNullOrWhiteSpace(Some(path)) ==> r == Ok(UserPath() + "\\")
      ensures !HasDriveLetter(path) ==> (r.Err? <==> Escapes(0, Split(path)))
      ensures r.Ok? && !HasDriveLetter(path)
              ==> |r.value| > |UserPath()| && r.value[..|UserPath()| + 1] == UserPath() + "\\"
    {
      if HasDriveLetter(path) then Ok(path)
      else if Text.IsNullOrWhiteSpace(Some(path)) then
        assert !Escapes(0, Split(path)) by {
          if Escapes(0, Split(path)) { assert MapPath(UserPath(), path).Err?; BlankIsRoot(path); }
        }
        Ok(UserPath() + "\\")
      else MapPath(UserPath(), path)
    }

    /** The calls of `CreateSubdirectories`: the container directory and `bin`
        are readable by the container user, `user` is also writable. */
    function SubdirectoryCalls(currentIdentity: string, userName: string): (r: seq<FsCall>)
      ensures |r| == 3 && r[0].CreateDirectory? && r[1].CreateDirectory? && r[2].CreateDirectory?
      ensures r[0].path == ContainerPath() && r[1].path == BinPath() && r[2].path == UserPath()
      ensures forall c :: c in r ==>
                && c.CreateDirectory? && |c.grants| == 3
                && c.grants[0] == UserAccess(ADMINISTRATORS, ReadWrite)
                && c.grants[1] == UserAccess(currentIdentity, ReadWrite)
                && c.grants[2].userName == userName
                && (c.grants[2].access == ReadWrite <==> c.path == UserPath())
    {
      [ CreateDirectory(ContainerPath(), DirectoryGrants(currentIdentity, userName, Read)),
        CreateDirectory(BinPath(), DirectoryGrants(currentIdentity, userName, Read)),
        CreateDirectory(UserPath(), DirectoryGrants(currentIdentity, userName, ReadWrite)) ]
    }

    method CreateSubdirectories(userName: string, currentIdentity: string)
      modifies fileSystem
      ensures fileSystem.calls == old(fileSystem.calls) + SubdirectoryCalls(currentIdentity, userName)
    {
      fileSystem.CreateDirectory(ContainerPath(), DirectoryGrants(currentIdentity, userName, Read));
      fileSystem.CreateDirectory(BinPath(), DirectoryGrants(currentIdentity, userName, Read));
      fileSystem.CreateDirectory(UserPath(), DirectoryGrants(currentIdentity, userName, ReadWrite));
    }

    /** The fuel for following a symlink chain: a chain without a cycle
        passes each symlink at most once. */
    function ChainFuel(): nat {
      |fileSystem.symlinks|
    }

    /** The source of a bind mount and every path its symlink chain leads to.
        Unless the links form a cycle, the chain is followed to its end. */
    function SourceChain(m: BindMount): (r: seq<string>)
      ensures |r| >= 1 && r[0] == WindowsSource(m.sourcePath)
      ensures forall i :: 0 <= i < |r| - 1 ==> r[i] in fileSystem.symlinks && fileSystem.symlinks[r[i]] == r[i + 1]
      ensures NoRepeats(r) ==> r[|r| - 1] !in fileSystem.symlinks
    {
      var links, source := fileSystem.symlinks, WindowsSource(m.sourcePath);
      var chain := SymlinkChain(links, source, ChainFuel());
      ChainFuelSuffices(links, source);
      forall i | 0 <= i < |chain| - 1 ensures chain[i] in links && links[chain[i]] == chain[i + 1] {
        SymlinkChainFollowsLinks(links, source, |links|, i);
      }
      chain
    }

    /** The calls that link an already mapped destination to the source of
        `m`: the parent of the destination unless it is the user root, the
        symlink, and read access on the destination and on the whole source
        chain. */
    function LinkCalls(destination: string, m: BindMount, userName: string): seq<FsCall> {
      var parent := DirectoryName(destination);
      var makeParent :=
        if parent.Some? && parent.value != UserPath() then [CreateDirectory(parent.value, [UserAccess(userName, Read)])]
        else [];
      makeParent
      + [Symlink(destination, WindowsSource(m.sourcePath)), AddDirectoryAccess(destination, Read, userName)]
      + GrantReads(SourceChain(m), userName)
    }

    /** The calls for one bind mount, or the error when its destination
        cannot be mapped. */
    function MountCalls(m: BindMount, userName: string): Step {
      match MapUserPath(m.destinationPath)
      case Err(e) => Err(e)
      case Ok(destination) => Ok(LinkCalls(destination, m, userName))
    }

    /** The calls each bind mount would make, mount by mount. */
    function MountSteps(mounts: seq<BindMount>, userName: string): (r: seq<Step>)
      ensures |r| == |mounts|
      decreases |mounts|
    {
      if mounts == [] then []
      else MountSteps(mounts[..|mounts| - 1], userName) + [MountCalls(mounts[|mounts| - 1], userName)]
    }

    /** Step `i` is the calls of mount `i`. */
    lemma {:induction false} MountStepAt(mounts: seq<BindMount>, i: nat, userName: string)
      requires i < |mounts|
      ensures MountSteps(mounts, userName)[i] == MountCalls(mounts[i], userName)
      decreases |mounts|
    {
      var n := |mounts| - 1;
      if i < n {
        MountStepAt(mounts[..n], i, userName);
      }
    }

    /** The calls of `CreateBindMounts`, mount by mount, up to the first
        destination that cannot be mapped. */
    function BindMountCalls(mounts: seq<BindMount>, userName: string): Outcome {
      Sequence(MountSteps(mounts, userName))
    }

    /** The calls of `DeleteBindMounts`: the user's access is removed from
        every source and from everything its symlink chain leads to. */
    function UnmountCalls(mounts: seq<BindMount>, userName: string): seq<FsCall>
      decreases |mounts|
    {
      if mounts == [] then []
      else UnmountCalls(mounts[..|mounts| - 1], userName)
           + RevokeAccess(SourceChain(mounts[|mounts| - 1]), userName)
    }

    /** Grants read access on `path` and on every target its symlinks lead to. */
    method GrantChainAccess(path: string, userName: string)
      modifies fileSystem
      ensures fileSystem.calls
              == old(fileSystem.calls) + GrantReads(SymlinkChain(fileSystem.symlinks, path, ChainFuel()), userName)
    {
      ghost var chain := SymlinkChain(fileSystem.symlinks, path, ChainFuel());
      ghost var before := fileSystem.calls;
      var current := path;
      var fuel := ChainFuel();
      fileSystem.AddDirectoryAccess(current, Read, userName);
      ghost var k := 1;
      assert chain[..k] == [current];
      while fileSystem.DirIsSymlink(current) && fuel > 0
        invariant 1 <= k <= |chain|
        invariant SymlinkChain(fileSystem.symlinks, current, fuel) == chain[k - 1..]
        invariant fileSystem.calls == before + GrantReads(chain[..k], userName)
        decreases fuel
      {
        ChainAdvance(fileSystem.symlinks, chain, current, fuel, k);
        assert chain[..k + 1][..k] == chain[..k];
        current := fileSystem.GetSymlinkTarget(current);
        fuel := fuel - 1;
        fileSystem.AddDirectoryAccess(current, Read, userName);
        k := k + 1;
      }
      assert chain[..k] == chain;
    }

    /** Removes the user's access from `path` and every target its symlinks lead to. */
    method RevokeChainAccess(path: string, userName: string)
      modifies fileSystem
      ensures fileSystem.calls
              == old(fileSystem.calls) + RevokeAccess(SymlinkChain(fileSystem.symlinks, path, ChainFuel()), userName)
    {
      ghost var chain := SymlinkChain(fileSystem.symlinks, path, ChainFuel());
      ghost var before := fileSystem.calls;
      var current := path;
      var fuel := ChainFuel();
      fileSystem.RemoveDirectoryAccess(current, userName);
      ghost var k := 1;
      assert chain[..k] == [current];
      while fileSystem.DirIsSymlink(current) && fuel > 0
        invariant 1 <= k <= |chain|
        invariant SymlinkChain(fileSystem.symlinks, current, fuel) == chain[k - 1..]
        invariant fileSystem.calls == before + RevokeAccess(chain[..k], userName)
        decreases fuel
      {
        ChainAdvance(fileSystem.symlinks, chain, current, fuel, k);
        assert chain[..k + 1][..k] == chain[..k];
        current := fileSystem.GetSymlinkTarget(current);
        fuel := fuel - 1;
        fileSystem.RemoveDirectoryAccess(current, userName);
        k := k + 1;
      }
      assert chain[..k] == chain;
    }

    /** Links a mapped destination, as `LinkCalls` describes it. */
    method LinkMount(destination: string, m: BindMount, userName: string)
      modifies fileSystem
      ensures fileSystem.calls == old(fileSystem.calls) + LinkCalls(destination, m, userName)
    {
      var parent := DirectoryName(destination);
      if parent.Some? && parent.value != UserPath() {
        fileSystem.CreateDirectory(parent.value, [UserAccess(userName, Read)]);
      }
      var source := WindowsSource(m.sourcePath);
      fileSystem.Symlink(destination, source);
      fileSystem.AddDirectoryAccess(destination, Read, userName);
      GrantChainAccess(source, userName);
    }

    /** One bind mount, as `MountCalls` describes it. */
    method CreateBindMount(m: BindMount, userName: string) returns (r: Result<(), MapError>)
      modifies fileSystem
      ensures r.Err? <==> MountCalls(m, userName).Err?
      ensures r.Err? ==> r.error == MountCalls(m, userName).error
      ensures fileSystem.calls
              == old(fileSystem.calls) + (if r.Ok? then MountCalls(m, userName).value else [])
    {
      var mapped := MapUserPath(m.destinationPath);
      if mapped.Err? {
        return Err(mapped.error);
      }
      LinkMount(mapped.value, m, userName);
      return Ok(());
    }

    /** Bind mount `i` of `mounts`, as its step of the run describes it. */
    method CreateBindMountAt(mounts: seq<BindMount>, i: nat, userName: string) returns (r: Result<(), MapError>)
      requires i < |mounts|
      modifies fileSystem
      ensures var step := MountSteps(mounts, userName)[i];
              && (r.Err? <==> step.Err?)
              && (r.Err? ==> r.error == step.error)
              && fileSystem.calls == old(fileSystem.calls) + (if r.Ok? then step.value else [])
    {
      MountStepAt(mounts, i, userName);
      r := CreateBindMount(mounts[i], userName);
    }

    method CreateBindMounts(mounts: seq<BindMount>, userName: string) returns (r: Result<(), MapError>)
      modifies fileSystem
      ensures fileSystem.calls == old(fileSystem.calls) + BindMountCalls(mounts, userName).calls
      ensures r.Err? <==> BindMountCalls(mounts, userName).error.Some?
      ensures r.Err? ==> r.error == BindMountCalls(mounts, userName).error.value
    {
      ghost var before := fileSystem.calls;
      ghost var steps := MountSteps(mounts, userName);
      for i := 0 to |mounts|
        invariant Sequence(steps[..i]).error.None?
        invariant fileSystem.calls == before + Sequence(steps[..i]).calls
      {
        SequenceStep(steps, i);
        r := CreateBindMountAt(mounts, i, userName);
        if r.Err? {
          SequenceErrorPersists(steps, i + 1);
          return;
        }
      }
      assert steps[..|mounts|] == steps;
      r := Ok(());
    }

    method DeleteBindMounts(mounts: seq<BindMount>, userName: string)
      modifies fileSystem
      ensures fileSystem.calls == old(fileSystem.calls) + UnmountCalls(mounts, userName)
    {
      ghost var before := fileSystem.calls;
      for i := 0 to |mounts|
        invariant fileSystem.calls == before + UnmountCalls(mounts[..i], userName)
      {
        assert mounts[..i + 1][..i] == mounts[..i];
        RevokeChainAccess(WindowsSource(mounts[i].sourcePath), userName);
      }
      assert mounts[..|mounts|] == mounts;
    }

    method Destroy()
      modifies fileSystem
      ensures fileSystem.calls == old(fileSystem.calls) + [FsCall.DeleteDirectory(ContainerPath())]
    {
      fileSystem.DeleteDirectory(ContainerPath());
    }

    /** The steps of the first mounts are the first steps. */
    lemma MountStepsPrefix(mounts: seq<BindMount>, k: nat, userName: string)
      requires k <= |mounts|
      ensures MountSteps(mounts[..k], userName) == MountSteps(mounts, userName)[..k]
    {
      forall j | 0 <= j < k
        ensures MountSteps(mounts[..k], userName)[j] == MountSteps(mounts, userName)[j]
      {
        MountStepAt(mounts[..k], j, userName);
        MountStepAt(mounts, j, userName);
      }
    }

    /** One bind mount: it fails exactly when its destination cannot be
        mapped; otherwise it links the mapped destination to the source,
        lets the user read the destination, and grants read access on every
        path of the source's symlink chain, and nothing else. */
    lemma MountCallsContents(m: BindMount, userName: string)
      ensures MountCalls(m, userName).Err? <==> MapUserPath(m.destinationPath).Err?
      ensures MountCalls(m, userName).Err? ==> MountCalls(m, userName).error == MapUserPath(m.destinationPath).error
      ensures MountCalls(m, userName).Ok? ==>
                var calls := MountCalls(m, userName).value;
                var destination := MapUserPath(m.destinationPath).value;
                && Symlink(destination, WindowsSource(m.sourcePath)) in calls
                && AddDirectoryAccess(destination, Read, userName) in calls
                && (forall p :: p in SourceChain(m) ==> AddDirectoryAccess(p, Read, userName) in calls)
                && (forall c :: c in calls && c.Symlink? ==> c == Symlink(destination, WindowsSource(m.sourcePath)))
    {
      GrantReadsMembers(SourceChain(m), userName);
    }

    /** The parent of a bind mount's destination is created, readable by the
        user, exactly when the destination lies at least two names below the
        user root; a destination directly in the user root, or a blank one,
        goes straight to the symlink. */
    lemma MountParent(m: BindMount, userName: string)
      requires !HasDriveLetter(m.destinationPath)
      requires MountCalls(m, userName).Ok?
      ensures var calls := MountCalls(m, userName).value;
              if Text.IsNullOrWhiteSpace(Some(m.destinationPath)) then calls[0].Symlink?
              else
                var names := Canonicalise(m.destinationPath).value;
                && (calls[0].CreateDirectory? <==> |names| >= 2)
                && (|names| >= 2 ==>
                      calls[0] == CreateDirectory(Render(UserPath(), names[..|names| - 1]), [UserAccess(userName, Read)]))
    {
      if Text.IsNullOrWhiteSpace(Some(m.destinationPath)) {
        DirectoryNameAfter(UserPath(), "");
        assert MapUserPath(m.destinationPath).value == UserPath() + "\\" + "";
      } else {
        var names := Canonicalise(m.destinationPath).value;
        assert MapUserPath(m.destinationPath).value == Render(UserPath(), names);
        LinkParent(names, m, userName);
      }
    }

    /** Linking a destination of canonical `names` under the user root
        starts by creating its parent exactly when there are two names or
        more. */
    lemma LinkParent(names: seq<string>, m: BindMount, userName: string)
      requires AllNames(names)
      ensures var calls := LinkCalls(Render(UserPath(), names), m, userName);
              && (calls[0].CreateDirectory? <==> |names| >= 2)
              && (|names| >= 2 ==>
                    calls[0] == CreateDirectory(Render(UserPath(), names[..|names| - 1]), [UserAccess(userName, Read)]))
    {
      ParentOfRender(UserPath(), names);
      if |names| >= 2 {
        assert |Render(UserPath(), names[..|names| - 1])| > |UserPath()|;
      }
    }

    /** `CreateBindMounts` stops exactly when some mount fails. */
    lemma BindMountFailsIff(mounts: seq<BindMount>, userName: string)
      ensures BindMountCalls(mounts, userName).error.Some?
              <==> exists i :: 0 <= i < |mounts| && MountCalls(mounts[i], userName).Err?
    {
      var steps := MountSteps(mounts, userName);
      SequenceFailsIff(steps);
      forall i | 0 <= i < |mounts|
        ensures steps[i] == MountCalls(mounts[i], userName)
      {
        MountStepAt(mounts, i, userName);
      }
    }

    /** The first mount that fails stops the run: its error is the result,
        and the calls are those of the mounts before it. */
    lemma BindMountFirstError(mounts: seq<BindMount>, i: nat, userName: string)
      requires i < |mounts| && MountCalls(mounts[i], userName).Err?
      requires forall j :: 0 <= j < i ==> MountCalls(mounts[j], userName).Ok?
      ensures BindMountCalls(mounts, userName)
              == Outcome(BindMountCalls(mounts[..i], userName).calls, Some(MountCalls(mounts[i], userName).error))
    {
      var steps := MountSteps(mounts, userName);
      forall j | 0 <= j < |mounts|
        ensures steps[j] == MountCalls(mounts[j], userName)
      {
        MountStepAt(mounts, j, userName);
      }
      SequenceFirstError(steps, i);
      MountStepsPrefix(mounts, i, userName);
    }

    /** A run that no mount stopped made every call of every mount. */
    lemma BindMountCallsComplete(mounts: seq<BindMount>, userName: string)
      requires BindMountCalls(mounts, userName).error.None?
      ensures forall i :: 0 <= i < |mounts| ==> MountCalls(mounts[i], userName).Ok?
      ensures forall i, c :: 0 <= i < |mounts| && MountCalls(mounts[i], userName).Ok?
                && c in MountCalls(mounts[i], userName).value
                ==> c in BindMountCalls(mounts, userName).calls
    {
      var steps := MountSteps(mounts, userName);
      SequenceCallsComplete(steps);
      forall i | 0 <= i < |mounts|
        ensures steps[i] == MountCalls(mounts[i], userName)
      {
        MountStepAt(mounts, i, userName);
      }
    }

    /** Every symlink a bind mount creates is a mapped destination: under the
        user root, unless the destination already named a drive. */
    lemma LinksStayInUserRoot(mounts: seq<BindMount>, userName: string)
      ensures forall c :: c in BindMountCalls(mounts, userName).calls && c.Symlink?
                ==> HasDriveLetter(c.link)
                    || (|c.link| > |UserPath()| && c.link[..|UserPath()| + 1] == UserPath() + "\\")
    {
      var steps := MountSteps(mounts, userName);
      forall c | c in Sequence(steps).calls && c.Symlink?
        ensures HasDriveLetter(c.link) || (|c.link| > |UserPath()| && c.link[..|UserPath()| + 1] == UserPath() + "\\")
      {
        SequenceCallsFrom(steps, c);
        var i :| 0 <= i < |steps| && steps[i].Ok? && c in steps[i].value;
        MountStepAt(mounts, i, userName);
        MountCallsContents(mounts[i], userName);
      }
    }

    /** `p` is on the symlink chain of some mount's source. */
    ghost predicate OnSomeChain(mounts: seq<BindMount>, p: string) {
      exists i :: 0 <= i < |mounts| && p in SourceChain(mounts[i])
    }

    /** `DeleteBindMounts` only removes the user's access, and removes it
        exactly from the paths of every source's symlink chain. */
    lemma {:induction false} UnmountCallsRevoke(mounts: seq<BindMount>, userName: string)
      ensures forall c :: c in UnmountCalls(mounts, userName) ==> c.RemoveDirectoryAccess? && c.userName == userName
      ensures forall p :: RemoveDirectoryAccess(p, userName) in UnmountCalls(mounts, userName) <==> OnSomeChain(mounts, p)
      decreases |mounts|
    {
      if mounts != [] {
        var n := |mounts| - 1;
        var init := mounts[..n];
        var last := SourceChain(mounts[n]);
        UnmountCallsRevoke(init, userName);
        RevokeAccessMembers(last, userName);
        assert UnmountCalls(mounts, userName) == UnmountCalls(init, userName) + RevokeAccess(last, userName);
        OnSomeChainSnoc(mounts);
      }
    }

    /** A path is on the chain of one of the mounts exactly when it is on the
        chain of one of the mounts before the last, or on the last's. */
    lemma OnSomeChainSnoc(mounts: seq<BindMount>)
      requires mounts != []
      ensures var n := |mounts| - 1;
              forall p :: OnSomeChain(mounts, p) <==> OnSomeChain(mounts[..n], p) || p in SourceChain(mounts[n])
    {
      var n := |mounts| - 1;
      var init := mounts[..n];
      forall p
        ensures OnSomeChain(mounts, p) <==> OnSomeChain(init, p) || p in SourceChain(mounts[n])
      {
        if OnSomeChain(mounts, p) {
          var i :| 0 <= i < |mounts| && p in SourceChain(mounts[i]);
          if i < n {
            assert init[i] == mounts[i];
          }
        }
        if OnSomeChain(init, p) {
          var i :| 0 <= i < n && p in SourceChain(init[i]);
          assert init[i] == mounts[i];
        }
      }
    }
  }

  /** A blank container path does not climb out of the root. */
  lemma BlankIsRoot(path: string)
    requires Text.IsNullOrWhiteSpace(Some(path))
    ensures !Escapes(0, Split(path))
  {
    NoSeparatorBlank(path);
    SplitName(path);
    forall k | 0 <= k <= 1
      ensures Depth([path][..k]) >= 0
    {
      if k == 1 {
        assert [path][..k] == [path];
      } else {
        assert [path][..k] == [];
      }
    }
  }

  lemma NoSeparatorBlank(path: string)
    requires Text.IsNullOrWhiteSpace(Some(path))
    ensures NoSeparator(path) && path != ".."
  {
    if |path| >= 1 {
      assert Text.IsWhiteSpace(path[0]);
    }
  }
}
