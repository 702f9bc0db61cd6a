# IronFrame containment core in Dafny

This project models the part of IronFrame that confines and supervises the
processes of a Windows container, and proves properties of that model.

- **Job object** (`job_object.dfy`, module `JobObjects`). The `JobObject`
  wrapper around a Windows job:
  - creating or opening the job. Creation sets kill-on-job-close and
    attaches an I/O completion port.
  - the read-modify-write setters of the extended limit record: memory,
    active processes, priority class, and flags.
  - the CPU weight and the CPU rate read back.
  - memory limit and peak memory, and CPU accounting.
  - the grow-and-retry enumeration of the job's process ids.
  - terminating, and terminating then waiting.
  - draining the completion port into `CompletionMsg` values.
  - `Dispose`.

  The kernel's job is a separate class (`KernelJob`) that the wrapper reads
  and writes through its handle. Every system call the wrapper makes is
  appended to a call log. Which calls fail, and with what Win32 code, is a
  fixed oracle (`Os`). Handle closes are logged separately, and the
  invariant `Valid()` proves that each handle and port is closed at most
  once.
- **Local TCP ports** (`port_manager.dfy`, module `LocalTcpPorts`).
  `LocalTcpPortManager` reserves a port: a netsh URL ACL first, then an
  inbound firewall rule. It also releases a port, removes a user's firewall
  rules, and creates outbound rules. `NetShRunner` and `FirewallManager` are
  rule tables with a call log. The ports on which they fail are fixed sets.
- **Constrained process runner** (`process_runner.dfy`, module
  `ConstrainedProcesses`). The requests `ConstrainedProcessRunner` sends to
  the container host: create, find by id, stop all, dispose. It also covers
  how the environment block is merged over the defaults (TEMP, PATH) and
  the correlation key of each create request.
- **Container directory** (`container_paths.dfy`, `container_directory.dfy`,
  `container_examples.dfy`). The layout `<base>\<handle>\{bin,private,user}`:
  - mapping container paths into those roots. Either separator is
    accepted, `..` is resolved, and a path that climbs out of the root at
    any point is an error.
  - the ACL'd subdirectories.
  - bind mounts. Each mount creates the destination's parent when needed,
    then a symlink, then read grants on the destination and on every path
    of the source's symlink chain.
  - removing bind mounts, which revokes access along the same chains.
  - destroying the container directory.

  The file system is a collaborator holding the existing symlinks and a log
  of the changing calls it received. `ContainerDirectory.cs` itself is not
  part of this model: its behaviour is taken from
  `IronFrame.Test/ContainerDirectoryTests.cs`, and the example lemmas in
  `container_examples.dfy` prove the tests' concrete cases.

The same holds for the runner: `ConstrainedProcessRunner.cs` is not part of
this model, and the runner is modelled as
`IronFrame.Test/ConstrainedProcessRunnerTests.cs` pins it.

Behaviour of the code that the model keeps:
- Creating a job whose `CreateJobObject` returns 0 fails with the Win32 last
  error, not with a dedicated creation error. `CreationFailed` is raised only
  for an invalid handle after opening. A `CreateJobObject` token of -1 fails
  at the first limit query with ERROR_INVALID_HANDLE (6).
- `TerminateProcessesAndWait` passes its timeout through unchanged. A 0
  timeout does not wait at all, and "wait indefinitely" is `INFINITE` (-1),
  the default.
- Processes are listed after termination, so a process that exits before it
  is looked up fails the wait with `ProcessNotRunning`. This is the
  behaviour of `Process.GetProcessById`.

## Model

| member | source | states |
|---|---|---|
| JobObjects.JobObject.Create | IronFrame.Shared/Utilities/JobObject.cs:32-54 | Opening succeeds exactly when the returned token is valid, otherwise it fails with CreationFailed. Creating fails with the last Win32 error when the token is 0. Otherwise it makes exactly these calls: create, limit query, limit write, port creation, port association. A new kernel job then has only KillOnJobClose set. A name already taken by a job (`Os.nameExists`) reuses that job and adds KillOnJobClose to its limits. The port is kept unless the association failed. |
| JobObjects.JobObject.Dispose | IronFrame.Shared/Utilities/JobObject.cs:61-74 | The handle and the port are each closed only if open. Both are cleared afterwards. `Valid()` (each handle closed at most once, no port closed before it was created) is preserved, so a second Dispose closes nothing. |
| JobObjects.ClosingJob | IronFrame.Shared/Utilities/JobObject.cs:63-67 | Closing the open job handle keeps every handle closed at most once. |
| JobObjects.ClosingPort | IronFrame.Shared/Utilities/JobObject.cs:69-73 | Closing the open completion port keeps every handle closed at most once. |
| JobObjects.OpeningPort | IronFrame.Shared/Utilities/JobObject.cs:295-296 | A newly created port has never been closed, so replacing the open port keeps the invariant. |
| JobObjects.ClosesOnceCounts | IronFrame.Shared/Utilities/JobObject.cs:61-74 | Under the close invariant, every handle occurs at most once in the close log. |
| JobObjects.JobObject.GetJobLimits | IronFrame.Shared/Utilities/JobObject.cs:155-182 | Makes one ExtendedLimitInformation query on the handle. Returns the kernel's limit record, or the Win32 error. Without a handle (disposed) it fails with NullHandle. |
| JobObjects.JobObject.SetJobLimitRecord | IronFrame.Shared/Utilities/JobObject.cs:342-362 | Makes one ExtendedLimitInformation write and stores the record. A failed write leaves the record unchanged and gives the plain "Unable to set information" error with the code. |
| JobObjects.WithLimit | IronFrame.Shared/Utilities/JobObject.cs:326-331 | The record a setter writes: its flag added, its own field set, every other field unchanged. |
| JobObjects.WithLimitCommutes | IronFrame.Shared/Utilities/JobObject.cs:379-397 | Setters of different fields (and any flag-only setter) commute. |
| JobObjects.WithLimitIdempotent | IronFrame.Shared/Utilities/JobObject.cs:379-387 | Running a setter twice writes the same record as running it once. |
| JobObjects.JobObject.UpdateLimits | IronFrame.Shared/Utilities/JobObject.cs:326-331 | Read-modify-write. A failed read writes nothing and returns the read error. Otherwise it makes exactly query then write, and the record becomes `WithLimit` of the record read, or stays as read when the write fails. |
| JobObjects.JobObject.SetJobLimitFlag | IronFrame.Shared/Utilities/JobObject.cs:326-331 | `UpdateLimits` with only the flag ORed in. |
| JobObjects.JobObject.SetJobMemoryLimit | IronFrame.Shared/Utilities/JobObject.cs:379-387 | `UpdateLimits` setting JobMemory and the limit in bytes. |
| JobObjects.JobObject.SetActiveProcessLimit | IronFrame.Shared/Utilities/JobObject.cs:389-397 | `UpdateLimits` setting ActiveProcess and the count. |
| JobObjects.JobObject.SetPriorityClass | IronFrame.Shared/Utilities/JobObject.cs:463-471 | `UpdateLimits` setting PriorityClass and the numeric class. |
| JobObjects.MemoryLimitOf | IronFrame.Shared/Utilities/JobObject.cs:99-108 | The memory limit is read back as 0 while the JobMemory flag is unset, and as the stored limit once it is set. |
| JobObjects.PeakMemoryOf | IronFrame.Shared/Utilities/JobObject.cs:110-119 | The peak memory is read back as 0 while the JobMemory flag is unset, and as the peak once it is set. |
| JobObjects.MemoryLimitRoundTrip | IronFrame.Shared/Utilities/JobObject.cs:99-119 | Setting a memory limit and reading it back gives that limit, and exposes the peak. Any other setter except one adding the JobMemory flag leaves the limit read back unchanged. |
| JobObjects.JobObject.GetJobMemoryLimit | IronFrame.Shared/Utilities/JobObject.cs:99-108 | One limit query. On success the result is `MemoryLimitOf` the kernel's record, otherwise the query error. |
| JobObjects.JobObject.GetPeakJobMemoryUsed | IronFrame.Shared/Utilities/JobObject.cs:110-119 | One limit query. On success the result is `PeakMemoryOf` the kernel's record, otherwise the query error. |
| JobObjects.JobObject.SetJobCpuLimit | IronFrame.Shared/Utilities/JobObject.cs:434-450 | A weight outside 1..9 fails with ArgumentOutOfRange before any system call. Otherwise it makes one CpuRateControl write, of Enable, WeightBased and the weight. A failed write leaves the rate record unchanged and gives the Win32 error. |
| JobObjects.CpuWeightRecord | IronFrame.Shared/Utilities/JobObject.cs:440-444 | The record written carries Enable and WeightBased, and reading its rate back as `int` gives the weight, so set-then-get round-trips for 1..9. |
| JobObjects.ToInt32 | IronFrame.Shared/Utilities/JobObject.cs:459 | The `(int)` cast of a `uint`: the result lies in the 32-bit signed range and agrees with the input modulo 2^32. |
| JobObjects.JobObject.GetJobCpuLimit | IronFrame.Shared/Utilities/JobObject.cs:452-461 | One CpuRateControl query. Returns `ToInt32` of the stored rate, or the Win32 error. |
| JobObjects.RoundsFit | IronFrame.Shared/Utilities/JobObject.cs:184-240 | The number of probes for n processes makes the last buffer hold all n, and the one before it too small. |
| JobObjects.RoundsUnique | IronFrame.Shared/Utilities/JobObject.cs:184-240 | Only one probe count has that property, so the loop stops at exactly `Rounds(n)`. |
| JobObjects.ProbesGrow | IronFrame.Shared/Utilities/JobObject.cs:191-213 | Probe i has room for 5(i+1) ids. |
| JobObjects.JobObject.StopRound | IronFrame.Shared/Utilities/JobObject.cs:193-239 | The loop stops at the first probe not answered ERROR_MORE_DATA; every probe before it was. |
| JobObjects.JobObject.ProcessIdsProbesJustFit | IronFrame.Shared/Utilities/JobObject.cs:184-240 | For an open handle, every probe but the last is answered ERROR_MORE_DATA and the last is not. There are never more probes than `Rounds` of the job's size. When the last probe succeeds, it has room for every process and is probe number `Rounds`. |
| JobObjects.JobObject.FirstProbeFailureStops | IronFrame.Shared/Utilities/JobObject.cs:212-219 | An error other than ERROR_MORE_DATA on the first probe is thrown after that one call, however many processes the job has. |
| JobObjects.JobObject.GetJobObjectProcessIds | IronFrame.Shared/Utilities/JobObject.cs:184-240 | Probes with capacity 5, 10, ..., and grows by 5 only on ERROR_MORE_DATA. It returns the job's processes, or throws the first other Win32 error on whichever probe it comes. Without a handle it fails with NullHandle. |
| JobObjects.JobObject.TerminateProcesses | IronFrame.Shared/Utilities/JobObject.cs:399-403 | After Dispose it fails with ObjectDisposed and makes no call. Otherwise it makes exactly one TerminateJobObject(0). |
| JobObjects.WaitCallsStopAtFirstGone | IronFrame.Shared/Utilities/JobObject.cs:408-413 | The waits fail exactly when some listed process has already exited. The process reported is the first listed one that has exited, and every process before it was waited for. When they succeed, every process was waited for with the given timeout. |
| JobObjects.JobObject.WaitGonePersists | IronFrame.Shared/Utilities/JobObject.cs:408-413 | Once a process lookup has failed, the rest of the list is not looked at. |
| JobObjects.JobObject.WaitForProcesses | IronFrame.Shared/Utilities/JobObject.cs:408-413 | The loop makes exactly the calls of `WaitCalls`, and fails with ProcessNotRunning for the first process that had gone. |
| JobObjects.JobObject.TerminateProcessesAndWait | IronFrame.Shared/Utilities/JobObject.cs:405-418 | Makes exactly the calls, and gives exactly the result, of `TerminateAndWaitOutcome`. The timeout defaults to `INFINITE`. |
| JobObjects.JobObject.TerminateAndWaitOrder | IronFrame.Shared/Utilities/JobObject.cs:405-418 | Termination comes first, then the process-id probes. The call succeeds exactly when listing succeeds and no member has exited. On success every member is waited for with the timeout, and the wait on the job comes last. |
| JobObjects.JobObject.SetCompletionPort | IronFrame.Shared/Utilities/JobObject.cs:289-324 | Creates a new port and associates it with the job. A failed association drops the port without an error. A disposed handle fails with NullHandle and keeps the port. The close invariant is preserved. |
| JobObjects.MsgOf | IronFrame.Shared/Utilities/JobObject.cs:242-273 | The cast `(CompletionMsg) cc` keeps the code. It names the message exactly for the codes the enumeration lists (0-4, 6-12). |
| JobObjects.MsgOfCodeOf | IronFrame.Shared/Utilities/JobObject.cs:242-256 | Casting a message's code back gives the same message. |
| JobObjects.MsgsOfCodes | IronFrame.Shared/Utilities/JobObject.cs:258-276 | Each drained message carries its dequeued code and is well formed. |
| JobObjects.JobObject.GetQueuedCompletionStatus | IronFrame.Shared/Utilities/JobObject.cs:258-276 | Without a port it yields nothing and makes no call. With a port it yields every queued code in order as a message and empties the queue, making one more dequeue than there were codes: the last dequeue times out. |
| JobObjects.JobObject.GetCpuStatistics | IronFrame.Shared/Utilities/JobObject.cs:126-153 | After Dispose it fails with ObjectDisposed. Otherwise it makes one accounting query and returns the kernel and user times. ERROR_MORE_DATA is tolerated; any other failure is a Win32 error. |
| LocalTcpPorts.ChosenPort | IronFrame/LocalTcpPortManager.cs:42-45 | Port 0 is replaced by the free port, and any other port is kept. |
| LocalTcpPorts.WithAcl | IronFrame/LocalTcpPortManager.cs:50 | The URL ACL table gains the port for the user, and every other entry stays. |
| LocalTcpPorts.WithoutAcl | IronFrame/LocalTcpPortManager.cs:84 | The port's ACL entry is removed, and every other entry stays. |
| LocalTcpPorts.WithoutInbound | IronFrame/LocalTcpPortManager.cs:87 | Exactly the user's inbound port rules are removed. |
| LocalTcpPorts.WithoutUser | IronFrame/LocalTcpPortManager.cs:92 | Exactly the user's rules are removed. |
| LocalTcpPorts.ReleaseUndoesReserve | IronFrame/LocalTcpPortManager.cs:50-87 | Releasing a port removes what reserving it added, both the ACL entry and the user's inbound rule. |
| LocalTcpPorts.RemoveAllClosesPorts | IronFrame/LocalTcpPortManager.cs:87-93 | Removing all of a user's rules also closes the user's ports, and closing the ports first changes nothing. |
| LocalTcpPorts.NetShRunner.AddRule | IronFrame/LocalTcpPortManager.cs:50 | Logs the call. Answers false exactly for refused ports, and otherwise records the ACL. |
| LocalTcpPorts.FirewallManager.OpenPort | IronFrame/LocalTcpPortManager.cs:54 | Logs the call. Fails exactly for refused ports, and otherwise adds the user's inbound rule. |
| LocalTcpPorts.LocalTcpPortManager.ReserveLocalPort | IronFrame/LocalTcpPortManager.cs:35-67 | A null or blank user fails with ArgumentNull("userName") and changes nothing. Otherwise it adds the ACL for the chosen port. If netsh refuses, it fails with ReserveFailed and never touches the firewall. If the firewall fails, it wraps the error and leaves the ACL in place. On success it returns the port, which has the user's ACL and inbound rule. |
| LocalTcpPorts.LocalTcpPortManager.ReleaseLocalPort | IronFrame/LocalTcpPortManager.cs:72-88 | A null or blank user fails with ArgumentNull. Otherwise the ACL is deleted only when a port is given, and the user's firewall ports are always closed. |
| LocalTcpPorts.LocalTcpPortManager.RemoveFirewallRules | IronFrame/LocalTcpPortManager.cs:90-93 | Delegates: all of the user's rules go, and nobody else's. |
| LocalTcpPorts.LocalTcpPortManager.CreateOutboundFirewallRule | IronFrame/LocalTcpPortManager.cs:95-98 | Delegates: the outbound rule is added and nothing else changes. |
| ConstrainedProcesses.NewGuid | IronFrame.Test/ConstrainedProcessRunnerTests.cs:97 | A correlation key is 16 bytes carrying the version-4 and variant bits, and is never the empty GUID. |
| ConstrainedProcesses.DefaultEnvironment | IronFrame.Test/ConstrainedProcessRunnerTests.cs:103-121 | The default block holds TEMP and PATH. |
| ConstrainedProcesses.MergeEnvironment | IronFrame.Test/ConstrainedProcessRunnerTests.cs:123-143 | The merged block has the keys of both. The caller's value wins a clash, and untouched defaults stay. |
| ConstrainedProcesses.MergeEnvironmentProperties | IronFrame.Test/ConstrainedProcessRunnerTests.cs:103-143 | TEMP and PATH are always sent, merging again changes nothing, and an empty caller block sends the defaults. |
| ConstrainedProcesses.CreateRequest | IronFrame.Test/ConstrainedProcessRunnerTests.cs:78-100 | The request carries the spec's path, arguments and directory, every caller and default variable, and a non-empty key. |
| ConstrainedProcesses.StopTimeout | IronFrame.Test/ConstrainedProcessRunnerTests.cs:194-208 | The timeout is 0 when killing, and 10000 ms otherwise. |
| ConstrainedProcesses.ConstrainedProcessRunner.Run | IronFrame.Test/ConstrainedProcessRunnerTests.cs:78-182 | Sends exactly one create request, `CreateRequest` of the spec over the default block of TEMP and PATH. Returns the host's id and the merged environment, which always holds TEMP and PATH, with the container's values unless the caller set them. |
| ConstrainedProcesses.ConstrainedProcessRunner.FindProcessById | IronFrame.Test/ConstrainedProcessRunnerTests.cs:42-66 | Sends exactly one lookup. Returns a process with that id exactly when the host knows it, and no process otherwise. |
| ConstrainedProcesses.ConstrainedProcessRunner.StopAll | IronFrame.Test/ConstrainedProcessRunnerTests.cs:194-208 | Sends exactly one stop-all with `StopTimeout(kill)`. |
| ConstrainedProcesses.ConstrainedProcessRunner.Dispose | IronFrame.Test/ConstrainedProcessRunnerTests.cs:213-221 | Disposes the host client exactly once. |
| ContainerPaths.Split | IronFrame.Test/ContainerDirectoryTests.cs:243-248 | A path splits at '/' and '\' into at least one piece, none holding a separator. |
| ContainerPaths.JoinSplit | IronFrame.Test/ContainerDirectoryTests.cs:167-173 | Joining the pieces with '\' is the path with every '/' turned into '\'. |
| ContainerPaths.SplitJoin | IronFrame.Test/ContainerDirectoryTests.cs:167-173 | Splitting undoes joining pieces that hold no separator. |
| ContainerPaths.WalkFailsIffEscapes | IronFrame.Test/ContainerDirectoryTests.cs:183-195 | Resolving `..` fails exactly when some prefix of the path climbs above the root. |
| ContainerPaths.WalkNames | IronFrame.Test/ContainerDirectoryTests.cs:157-173 | A path of plain names resolves to itself. |
| ContainerPaths.Canonicalise | IronFrame.Test/ContainerDirectoryTests.cs:175-195 | The canonical pieces are all plain names, and there are none exactly when the path escapes. |
| ContainerPaths.CanonicaliseIdempotent | IronFrame.Test/ContainerDirectoryTests.cs:175-181 | Canonicalising a canonical path changes nothing. |
| ContainerPaths.MapPath | IronFrame.Test/ContainerDirectoryTests.cs:157-195 | An escaping path fails with OutsideRoot (the ArgumentException). Any other path maps to a host path strictly below `root\`. |
| ContainerPaths.MapPathIdempotent | IronFrame.Test/ContainerDirectoryTests.cs:157-181 | Mapping the part of a mapped path below the root again gives the same host path. |
| ContainerPaths.MapPathOfPieces | IronFrame.Test/ContainerDirectoryTests.cs:157-195 | Maps a path given as pieces joined with '/': the pieces are walked and the result is rendered under the root. |
| ContainerPaths.WalkUnder | IronFrame.Test/ContainerDirectoryTests.cs:157-195 | A walk that never climbs out of its stack goes the same way under any outer pieces. |
| ContainerPaths.MapPathStricter | IronFrame.Test/ContainerDirectoryTests.cs:157-195 | A path the mapping accepts, resolved against the root's own pieces, stays below them with the same pieces, so a check on the final canonical path accepts it too. |
| ContainerPaths.LastSeparator | IronFrame.Test/ContainerDirectoryTests.cs:320 | Finds the last separator, with no separator after it, or reports that there is none. |
| ContainerPaths.ParentOfRender | IronFrame.Test/ContainerDirectoryTests.cs:320-325 | The directory of a mapped path is the mapping of its parent, and that of a name directly under the root is the root. |
| ContainerDirectories.Combine | IronFrame.Test/ContainerDirectoryTests.cs:22-40 | Joins a directory and a name with one '\' when the directory does not already end in a separator. |
| ContainerDirectories.SymlinkChain | IronFrame.Test/ContainerDirectoryTests.cs:369-374 | The chain starts at the path and holds at most one path more than the fuel. |
| ContainerDirectories.SymlinkChainFollowsLinks | IronFrame.Test/ContainerDirectoryTests.cs:369-385 | Each path of the chain is a symlink to the next. A chain that stops short of its fuel ends at a path that is not a symlink. |
| ContainerDirectories.ChainFuelSuffices | IronFrame.Test/ContainerDirectoryTests.cs:369-385 | Following one link per symlink is enough: a chain that long without a repeated path ends at a path that is not a symlink. |
| ContainerDirectories.GrantReadsMembers | IronFrame.Test/ContainerDirectoryTests.cs:383-385 | The grants are exactly the read grants, for the user, on the given paths. |
| ContainerDirectories.RevokeAccessMembers | IronFrame.Test/ContainerDirectoryTests.cs:462-464 | The revocations are exactly the removals, for the user, on the given paths. |
| ContainerDirectories.SequenceFailsIff | IronFrame.Test/ContainerDirectoryTests.cs:318 | A run of steps fails exactly when one of its steps fails. |
| ContainerDirectories.SequenceFirstError | IronFrame.Test/ContainerDirectoryTests.cs:318 | The first failing step stops the run with its error, after the calls of the steps before it. |
| ContainerDirectories.ContainerDirectory.Volume | IronFrame.Test/ContainerDirectoryTests.cs:149-152 | `C:\...` gives the drive root `C:\`. A bare `C:` or a drive-relative `C:x` gives `C:`. A rooted path without a drive gives `\`, and a relative path gives the empty string. The volume is always the leading part of the base path. |
| ContainerDirectories.ContainerDirectory.MapBinPath | IronFrame.Test/ContainerDirectoryTests.cs:157-195 | Fails exactly when the path escapes. Otherwise the result lies below `bin\`. |
| ContainerDirectories.ContainerDirectory.MapPrivatePath | IronFrame.Test/ContainerDirectoryTests.cs:200-238 | Fails exactly when the path escapes. Otherwise the result lies below `private\`. |
| ContainerDirectories.ContainerDirectory.MapUserPath | IronFrame.Test/ContainerDirectoryTests.cs:243-293 | A drive path is returned unchanged, and a blank path is the user root. Any other path fails exactly when it escapes, and otherwise maps below `user\`. |
| ContainerDirectories.ContainerDirectory.SubdirectoryCalls | IronFrame.Test/ContainerDirectoryTests.cs:35-125 | Creates the container directory, `bin` and `user`, in that order; the tests check each call on its own and do not pin this order. Each grants Administrators and the current identity ReadWrite. The container user gets ReadWrite on `user` and Read on the other two. |
| ContainerDirectories.ContainerDirectory.CreateSubdirectories | IronFrame.Test/ContainerDirectoryTests.cs:35-125 | Makes exactly the calls of `SubdirectoryCalls`. |
| ContainerDirectories.ContainerDirectory.Destroy | IronFrame.Test/ContainerDirectoryTests.cs:139-143 | Makes exactly one DeleteDirectory call, on the container directory. |
| ContainerDirectories.ContainerDirectory.SourceChain | IronFrame.Test/ContainerDirectoryTests.cs:339-374 | The chain starts at the source in Windows form, and each path in it is a symlink to the next. Unless the chain repeats a path, that is, unless the links form a cycle, it ends at a path that is not a symlink. |
| ContainerDirectories.ContainerDirectory.GrantChainAccess | IronFrame.Test/ContainerDirectoryTests.cs:369-385 | Grants read on the path and on every symlink target after it, in chain order. |
| ContainerDirectories.ContainerDirectory.RevokeChainAccess | IronFrame.Test/ContainerDirectoryTests.cs:451-464 | Removes the user's access from the path and from every symlink target after it, in chain order. |
| ContainerDirectories.ContainerDirectory.MountStepAt | IronFrame.Test/ContainerDirectoryTests.cs:318 | Step i of the run is the calls of mount i. |
| ContainerDirectories.ContainerDirectory.MountStepsPrefix | IronFrame.Test/ContainerDirectoryTests.cs:318 | The steps of the first k mounts are the first k steps. |
| ContainerDirectories.ContainerDirectory.LinkMount | IronFrame.Test/ContainerDirectoryTests.cs:320-328 | Makes exactly the calls of `LinkCalls` for the mapped destination. |
| ContainerDirectories.ContainerDirectory.CreateBindMount | IronFrame.Test/ContainerDirectoryTests.cs:298-329 | Fails, with no call, exactly when the destination cannot be mapped. Otherwise it makes exactly the mount's calls. |
| ContainerDirectories.ContainerDirectory.CreateBindMountAt | IronFrame.Test/ContainerDirectoryTests.cs:298-329 | Mount i makes exactly its step's calls, or fails with the step's error. |
| ContainerDirectories.ContainerDirectory.CreateBindMounts | IronFrame.Test/ContainerDirectoryTests.cs:298-386 | Makes exactly the calls of `BindMountCalls`, and fails exactly with the first mapping error. |
| ContainerDirectories.ContainerDirectory.MountCallsContents | IronFrame.Test/ContainerDirectoryTests.cs:320-385 | A mount fails exactly when its destination cannot be mapped. Otherwise it creates the one symlink from the mapped destination to the Windows-form source, grants read on the destination, and grants read on every path of the source's chain. |
| ContainerDirectories.ContainerDirectory.MountParent | IronFrame.Test/ContainerDirectoryTests.cs:320-325 | The destination's parent is created, readable by the user, exactly when the destination lies two or more names below the user root. A blank destination goes straight to the symlink. |
| ContainerDirectories.ContainerDirectory.LinkParent | IronFrame.Test/ContainerDirectoryTests.cs:320-325 | For a canonical destination, linking starts with the parent's creation exactly when there are two names or more. |
| ContainerDirectories.ContainerDirectory.BindMountFailsIff | IronFrame.Test/ContainerDirectoryTests.cs:318 | Creating the bind mounts fails exactly when some mount's destination cannot be mapped. |
| ContainerDirectories.ContainerDirectory.BindMountFirstError | IronFrame.Test/ContainerDirectoryTests.cs:318 | The first failing mount stops the run with its error, after the calls of the mounts before it. |
| ContainerDirectories.ContainerDirectory.BindMountCallsComplete | IronFrame.Test/ContainerDirectoryTests.cs:318-328 | A run that nothing stopped made every call of every mount. |
| ContainerDirectories.ContainerDirectory.LinksStayInUserRoot | IronFrame.Test/ContainerDirectoryTests.cs:321-326 | Every symlink created lies below the user root, unless its destination named a drive. |
| ContainerDirectories.ContainerDirectory.DeleteBindMounts | IronFrame.Test/ContainerDirectoryTests.cs:391-465 | Makes exactly the calls of `UnmountCalls`: each source's chain is revoked, mount by mount. |
| ContainerDirectories.ContainerDirectory.UnmountCallsRevoke | IronFrame.Test/ContainerDirectoryTests.cs:413-464 | Removing bind mounts only removes the user's access, and removes it from exactly the paths on some source's chain. |
| ContainerDirectories.BlankIsRoot | IronFrame.Test/ContainerDirectoryTests.cs:243-244 | A blank container path does not escape the root. |
| ContainerDirectoryExamples.TestDirectoryRoots | IronFrame.Test/ContainerDirectoryTests.cs:139-152 | For base `C:\Containers` and handle `handle`, the roots are `...\handle`, its `bin`, `private` and `user`, and the volume is `C:\`. |
| ContainerDirectoryExamples.RootPaths | IronFrame.Test/ContainerDirectoryTests.cs:243-246 | "/" and "\" map to the root followed by '\'. |
| ContainerDirectoryExamples.RootedPaths | IronFrame.Test/ContainerDirectoryTests.cs:157-173 | "/path/to/x" and "\path\to\x" map to `root\path\to\x`. |
| ContainerDirectoryExamples.CanonicalisedPath | IronFrame.Test/ContainerDirectoryTests.cs:175-181 | "/path/to/../../x" maps to `root\x`. |
| ContainerDirectoryExamples.EscapeAfterName | IronFrame.Test/ContainerDirectoryTests.cs:183-195 | "/x/../.." is refused. |
| ContainerDirectoryExamples.EscapingThreeUp | IronFrame.Test/ContainerDirectoryTests.cs:183-195 | "/../../.." is refused. |
| ContainerDirectoryExamples.EscapingRelativePaths | IronFrame.Test/ContainerDirectoryTests.cs:185-186 | "../" and ".." are refused. |
| ContainerDirectoryExamples.EscapingOneUp | IronFrame.Test/ContainerDirectoryTests.cs:187-188 | "/.." and "/../" are refused. |
| ContainerDirectoryExamples.ClimbOutAndBack | IronFrame.Test/ContainerDirectoryTests.cs:157-195 | "/../bin/app" is refused, although resolved against the pieces of `C:\Containers\handle\bin` it ends below them. |
| ContainerDirectoryExamples.MapUserPathRooted | IronFrame.Test/ContainerDirectoryTests.cs:243-285 | A rooted path maps under the user root exactly as `MapPath` maps it. |
| ContainerDirectoryExamples.MapUserPathSpecialCases | IronFrame.Test/ContainerDirectoryTests.cs:243-293 | "" and " " map to the user root, and "C:\Windows\System32\cmd.exe" is left as it is. |
| ContainerDirectoryExamples.FollowsSymlinkChain | IronFrame.Test/ContainerDirectoryTests.cs:369-374 | symlink2 → symlink1 → originalDir is followed to originalDir and stops there. |

## Left out

- P/Invoke marshalling is not modelled: buffer allocation and freeing, structure layout, `SafeHandle` reference counting. A system call is a log entry plus an answer from the `Os` oracle.
- JobObjects.JobObject.SetJobCpuLimit: writes `Weight` and `GetJobCpuLimit` reads `CpuRate`. These are two views of one 32-bit slot of the native union, which is an assumption about the native layout (`NativeMethods` is not part of this model).
- JobObjects.JobObject.TerminateProcessesAndWait: blocking, real time and timeouts are not modelled. A wait is a logged call. Processes that join the job between termination and listing are not modelled, so the race between termination and enumeration is not captured.
- JobObjects.JobObject.GetQueuedCompletionStatus: the lazy `yield` enumeration becomes a drained list. Codes arriving while the port is being drained, and the 10 ms timeout itself, are not modelled.
- JobObjects.JobObject.GetJobObjectProcessIds: the ids are the kernel's members as they are. The 64-bit `IntPtr.ToInt32` narrowing is not modelled. A probe with no error of its own answers ERROR_MORE_DATA exactly when it is too small for the job. The loop ends because the system stops answering ERROR_MORE_DATA once the buffer fits.
- JobObjects.JobObject.Create: the `terminateOnLastHandleClose` parameter is accepted and ignored, as in the source.
- JobObjects.JobObject.SetCompletionPort: a port dropped after a failed association, or replaced by a second call, is not closed by the model, just as in the source.
- `AssignProcessToJob`, `SetUIRestrictions`, `SetJobNotificationLimits` and `GetLimitViolationInformation` are outside the modelled core.
- `INFINITE` is passed through as the timeout value only, since timeouts are not modelled.
- LocalTcpPorts.LocalTcpPortManager.ReserveLocalPort: `IPUtilities.RandomFreePort` is a parameter (`freePort`). The only netsh and firewall failures modelled are `AddRule` answering false and `OpenPort` throwing.
- LocalTcpPorts.LocalTcpPortManager.ReleaseLocalPort: the model's `DeleteRule` never fails, so the firewall ports are always closed. In the source a throwing `DeleteRule` skips `ClosePort`.
- The NLog logging is not modelled.
- ConstrainedProcesses: the host transport (the JSON-RPC channel and its failures) is outside the model. The host's answers are fixed in the client.
- ConstrainedProcesses.MergeEnvironment: environment keys are compared exactly, not case-insensitively. A null spec environment is the empty map.
- ConstrainedProcesses.ConstrainedProcessRunner.Run: the container's TEMP and PATH values are parameters; the block holding them is built by `DefaultEnvironment`.
- ConstrainedProcesses.NewGuid: the random bytes of the GUID are a parameter.
- ContainerDirectories.ContainerDirectory.SourceChain: a symlink chain is followed for at most as many links as there are symlinks. That is always enough for a chain without a cycle (`ChainFuelSuffices`). A cycle is cut there, where the source would loop forever.
- ContainerDirectories: the real file system, ACL inheritance, and `WindowsIdentity.GetCurrent()` are not modelled. The identity is a parameter of `CreateSubdirectories`.
- ContainerDirectories.ContainerDirectory.MapUserPath: path mapping is modelled as separator normalisation plus resolution of `..` and `.`. UNC paths, 8.3 names and invalid path characters are not modelled.
- ContainerPaths.MapPath: a path that climbs above the root and comes back in, such as "/../bin/app" under `bin`, is refused (`ClimbOutAndBack`). A check on the final canonical path would accept it. The tests refuse only paths whose final form escapes, so they do not decide the case, and `ContainerDirectory.cs` is not part of this model. `MapPathStricter` proves that the model accepts nothing the looser check refuses, and gives the same pieces when both accept.
- ContainerDirectories.ContainerDirectory.MapBinPath: refuses climb-out-and-back paths, as `MapPath` does.
- ContainerDirectories.ContainerDirectory.MapPrivatePath: refuses climb-out-and-back paths, as `MapPath` does.
- ContainerDirectories.ContainerDirectory.MapUserPath: for rooted and relative paths, refuses climb-out-and-back paths, as `MapPath` does.
- `IronFrame.TestHelper`, `IContainer`, `DesktopSecurity` and `AccessMask` are not part of this model.
