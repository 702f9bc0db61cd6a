/** The Windows job object that confines a container's processes, as the
    `JobObject` wrapper drives it. The kernel's job (its limit records, its
    member processes, its completion queue and its accounting) is a separate
    object that the wrapper reads and writes through its handle; the wrapper
    records every system call it makes, and which calls fail is fixed by an
    oracle. */
module JobObjects {
  import opened Wrappers

  type uint32 = x: int | 0 <= x < 0x1_0000_0000
  type uint64 = x: int | 0 <= x < 0x1_0000_0000_0000_0000

  const ERROR_INVALID_HANDLE := 6
  const ERROR_MORE_DATA := 234
  /** `System.Threading.Timeout.Infinite`, the default wait. */
  const INFINITE := -1
  /** Room for this many more process ids on every retry. */
  const JOB_COUNT_INCREMENT := 5
  /** How long one look at the completion port waits, in milliseconds. */
  const COMPLETION_WAIT_MS := 10

  /** The limit flags the wrapper sets in `LimitFlags`. */
  datatype LimitFlag = ActiveProcess | PriorityClass | JobMemory | KillOnJobClose

  /** The extended limit record of a job, as far as the wrapper touches it. */
  datatype ExtendedLimit = ExtendedLimit(
    flags: set<LimitFlag>,
    activeProcessLimit: uint32,
    priorityClass: uint32,
    jobMemoryLimit: uint64,
    peakJobMemoryUsed: uint64)

  /** The record of a job nobody has limited yet. */
  const NO_LIMITS := ExtendedLimit({}, 0, 0, 0, 0)

  datatype CpuRateFlag = Enable | WeightBased

  /** The CPU rate record. `Weight` and `CpuRate` are two views of the same
      32-bit slot, so the record keeps one `rate`. */
  datatype CpuRateControl = CpuRateControl(flags: set<CpuRateFlag>, rate: uint32)

  /** Kernel and user time of all processes of the job, in 100 ns ticks. */
  datatype Accounting = Accounting(totalKernelTime: int, totalUserTime: int)

  datatype CpuStatistics = CpuStatistics(totalKernelTime: int, totalUserTime: int)

  /** The information classes the wrapper queries or sets. */
  datatype InfoClass =
    | BasicAccountingInformation
    | ExtendedLimitInformation
    | CpuRateControlInformation
    | AssociateCompletionPortInformation

  /** The system calls the wrapper makes, in the order it makes them. */
  datatype OsCall =
    | CreateJobObject(name: Option<string>)
    | OpenJobObject(name: Option<string>)
    | QueryInformation(info: InfoClass)
    | QueryProcessIdList(capacity: nat)
    | SetInformation(info: InfoClass)
    | CreateIoCompletionPort
    | TerminateJobObject(exitCode: int)
    | GetProcessById(pid: int)
    | WaitForExit(pid: int, milliseconds: int)
    | WaitForJob(milliseconds: int)
    | DequeueCompletion(milliseconds: int)

  /** The handles the wrapper closes: the job's, and the completion ports,
      numbered in the order they were created. */
  datatype Handle = JobHandle | PortHandle(port: nat)

  /** What the system answers: the tokens `CreateJobObject` and
      `OpenJobObject` return, the last error after a failed creation,
      whether the name given to `CreateJobObject` already denotes a job (it
      then answers with a handle on that job), the calls that fail with
      their Win32 error code, and the processes that have already exited
      when they are looked up. */
  datatype Os = Os(
    createToken: int,
    openToken: int,
    lastError: int,
    nameExists: bool,
    failures: map<OsCall, int>,
    exited: set<int>)

  datatype JobError =
    | Win32(code: int)              // Win32Exception
    | SetInformationFailed(code: int) // the plain Exception of SetJobLimits
    | CreationFailed                // "Unable to create job object."
    | ObjectDisposed                // ObjectDisposedException
    | NullHandle                    // a disposed handle handed to the system
    | ArgumentOutOfRange(value: int)
    | ProcessNotRunning(pid: int)   // Process.GetProcessById on an exited process

  /** A token `SafeJobObjectHandle` accepts: neither 0 nor -1. */
  predicate ValidToken(token: int) {
    token != 0 && token != -1
  }

  /** The weights `SetJobCpuLimit` accepts. */
  predicate ValidCpuWeight(weight: int) {
    1 <= weight <= 9
  }

  // ---------------------------------------------------------------------
  // The extended limit record and its read-modify-write setters.

  /** One setter's change to the extended limit record. */
  datatype LimitUpdate =
    | AddFlag(flag: LimitFlag)
    | MemoryLimit(bytes: uint64)
    | ActiveProcesses(count: uint32)
    | Priority(priorityClass: uint32)

  /** The flag a setter ORs in. */
  function FlagOf(u: LimitUpdate): LimitFlag {
    match u
    case AddFlag(f) => f
    case MemoryLimit(_) => JobMemory
    case ActiveProcesses(_) => ActiveProcess
    case Priority(_) => PriorityClass
  }

  /** The record after a setter: its flag is added, its field (if any) is
      written, and everything else is as it was. */
  function WithLimit(rec: ExtendedLimit, u: LimitUpdate): (r: ExtendedLimit)
    ensures r.flags == rec.flags + {FlagOf(u)}
    ensures r.peakJobMemoryUsed == rec.peakJobMemoryUsed
    ensures r.jobMemoryLimit == (if u.MemoryLimit? then u.bytes else rec.jobMemoryLimit)
    ensures r.activeProcessLimit == (if u.ActiveProcesses? then u.count else rec.activeProcessLimit)
    ensures r.priorityClass == (if u.Priority? then u.priorityClass else rec.priorityClass)
  {
    var flagged := rec.(flags := rec.flags + {FlagOf(u)});
    match u
    case AddFlag(_) => flagged
    case MemoryLimit(b) => flagged.(jobMemoryLimit := b)
    case ActiveProcesses(n) => flagged.(activeProcessLimit := n)
    case Priority(c) => flagged.(priorityClass := c)
  }

  /** Two setters that write different fields can run in either order, and
      a flag-only setter commutes with every other. */
  lemma WithLimitCommutes(rec: ExtendedLimit, u: LimitUpdate, v: LimitUpdate)
    requires u.AddFlag? || v.AddFlag? || u.MemoryLimit? != v.MemoryLimit?
             || u.ActiveProcesses? != v.ActiveProcesses? || u.Priority? != v.Priority?
    ensures WithLimit(WithLimit(rec, u), v) == WithLimit(WithLimit(rec, v), u)
  {
  }

  /** Running a setter twice is running it once. */
  lemma WithLimitIdempotent(rec: ExtendedLimit, u: LimitUpdate)
    ensures WithLimit(WithLimit(rec, u), u) == WithLimit(rec, u)
  {
  }

  /** `GetJobMemoryLimit` of a record: the limit, or 0 while the JobMemory
      flag is not set. */
  function MemoryLimitOf(rec: ExtendedLimit): (r: uint64)
    ensures JobMemory !in rec.flags ==> r == 0
    ensures JobMemory in rec.flags ==> r == rec.jobMemoryLimit
  {
    if JobMemory in rec.flags then rec.jobMemoryLimit else 0
  }

  /** `GetPeakJobMemoryUsed` of a record: the peak, or 0 while the JobMemory
      flag is not set. */
  function PeakMemoryOf(rec: ExtendedLimit): (r: uint64)
    ensures JobMemory !in rec.flags ==> r == 0
    ensures JobMemory in rec.flags ==> r == rec.peakJobMemoryUsed
  {
    if JobMemory in rec.flags then rec.peakJobMemoryUsed else 0
  }

  /** Setting the memory limit and reading it back gives the limit set, and
      the peak becomes visible; other setters leave the limit read back as
      it was. */
  lemma MemoryLimitRoundTrip(rec: ExtendedLimit, u: LimitUpdate)
    ensures u.MemoryLimit? ==> MemoryLimitOf(WithLimit(rec, u)) == u.bytes
    ensures u.MemoryLimit? ==> PeakMemoryOf(WithLimit(rec, u)) == rec.peakJobMemoryUsed
    ensures !u.MemoryLimit? && u != AddFlag(JobMemory) ==> MemoryLimitOf(WithLimit(rec, u)) == MemoryLimitOf(rec)
  {
  }

  // ---------------------------------------------------------------------
  // CPU rate control.

  /** The cast `(int)` of a 32-bit unsigned value: values from 2^31 up wrap
      to negative numbers. */
  function ToInt32(x: uint32): (r: int)
    ensures -0x8000_0000 <= r < 0x8000_0000
    ensures r % 0x1_0000_0000 == x
  {
    if x < 0x8000_0000 then x else x - 0x1_0000_0000
  }

  /** The record `SetJobCpuLimit(weight)` writes. */
  function CpuWeightRecord(weight: int): (r: CpuRateControl)
    requires ValidCpuWeight(weight)
    ensures r.flags == {Enable, WeightBased} && r.rate == weight
    ensures ToInt32(r.rate) == weight
  {
    CpuRateControl({Enable, WeightBased}, weight)
  }

  // ---------------------------------------------------------------------
  // Completion messages.

  /** `JobObject.CompletionMsg`; a code the enumeration does not name still
      casts to a value, `Undefined`. */
  datatype CompletionMsg =
    | NoCompletionStatus | EndOfJobTime | EndOfProcessTime | ActiveProcessLimit
    | ActiveProcessZero | NewProcess | ExitProcess | AbnormalExitProcess
    | ProcessMemoryLimit | JobMemoryLimit | NotificationLimit | JobCycleTimeLimit
    | Undefined(code: uint32)

  /** The codes the enumeration names. */
  predicate IsNamedCode(c: int) {
    0 <= c <= 12 && c != 5
  }

  function CodeOf(m: CompletionMsg): uint32 {
    match m
    case NoCompletionStatus => 0
    case EndOfJobTime => 1
    case EndOfProcessTime => 2
    case ActiveProcessLimit => 3
    case ActiveProcessZero => 4
    case NewProcess => 6
    case ExitProcess => 7
    case AbnormalExitProcess => 8
    case ProcessMemoryLimit => 9
    case JobMemoryLimit => 10
    case NotificationLimit => 11
    case JobCycleTimeLimit => 12
    case Undefined(c) => c
  }

  /** The cast `(CompletionMsg) code`: it keeps the code, and names it
      exactly when the enumeration does. */
  function MsgOf(c: uint32): (r: CompletionMsg)
    ensures CodeOf(r) == c
    ensures r.Undefined? <==> !IsNamedCode(c)
  {
    if c == 0 then NoCompletionStatus
    else if c == 1 then EndOfJobTime
    else if c == 2 then EndOfProcessTime
    else if c == 3 then ActiveProcessLimit
    else if c == 4 then ActiveProcessZero
    else if c == 6 then NewProcess
    else if c == 7 then ExitProcess
    else if c == 8 then AbnormalExitProcess
    else if c == 9 then ProcessMemoryLimit
    else if c == 10 then JobMemoryLimit
    else if c == 11 then NotificationLimit
    else if c == 12 then JobCycleTimeLimit
    else Undefined(c)
  }

  /** A well-formed message: `Undefined` only for codes the enumeration does
      not name. */
  predicate WellFormedMsg(m: CompletionMsg) {
    m.Undefined? ==> !IsNamedCode(m.code)
  }

  /** Casting a message's code gives the message back. */
  lemma MsgOfCodeOf(m: CompletionMsg)
    requires WellFormedMsg(m)
    ensures MsgOf(CodeOf(m)) == m
  {
  }

  /** The messages of a run of dequeued codes. */
  function MsgsOf(codes: seq<uint32>): (r: seq<CompletionMsg>)
    ensures |r| == |codes|
  {
    if codes == [] then [] else MsgsOf(codes[..|codes| - 1]) + [MsgOf(codes[|codes| - 1])]
  }

  lemma {:induction false} MsgsOfCodes(codes: seq<uint32>)
    ensures forall i :: 0 <= i < |codes| ==> CodeOf(MsgsOf(codes)[i]) == codes[i] && WellFormedMsg(MsgsOf(codes)[i])
  {
    if codes != [] {
      MsgsOfCodes(codes[..|codes| - 1]);
    }
  }

  /** `n` looks at the completion port. */
  function Dequeues(n: nat): (r: seq<OsCall>)
    ensures |r| == n
    ensures forall c :: c in r ==> c == DequeueCompletion(COMPLETION_WAIT_MS)
  {
    if n == 0 then [] else Dequeues(n - 1) + [DequeueCompletion(COMPLETION_WAIT_MS)]
  }

  // ---------------------------------------------------------------------
  // Enumerating the processes of a job.

  /** The number of probes `GetJobObjectProcessIds` makes for a job of `n`
      processes: room for 5 ids, then 5 more each time the system answers
      ERROR_MORE_DATA. */
  function Rounds(n: nat): (k: nat)
    ensures k >= 1
    decreases n
  {
    if n <= JOB_COUNT_INCREMENT then 1 else 1 + Rounds(n - JOB_COUNT_INCREMENT)
  }

  /** The last probe has room for every process, and the one before it had
      not: the buffer grows only as far as it must. */
  lemma {:induction false} RoundsFit(n: nat)
    ensures JOB_COUNT_INCREMENT * Rounds(n) >= n
    ensures Rounds(n) == 1 || JOB_COUNT_INCREMENT * (Rounds(n) - 1) < n
    decreases n
  {
    if n > JOB_COUNT_INCREMENT {
      RoundsFit(n - JOB_COUNT_INCREMENT);
    }
  }

  /** Any number of probes that fits as `RoundsFit` says is `Rounds`. */
  lemma {:induction false} RoundsUnique(n: nat, k: nat)
    requires k >= 1 && JOB_COUNT_INCREMENT * k >= n
    requires k == 1 || JOB_COUNT_INCREMENT * (k - 1) < n
    ensures k == Rounds(n)
    decreases n
  {
    if n > JOB_COUNT_INCREMENT {
      RoundsUnique(n - JOB_COUNT_INCREMENT, k - 1);
    }
  }

  /** The first `k` probes: capacities 5, 10, ..., 5k. */
  function Probes(k: nat): (r: seq<OsCall>)
    ensures |r| == k
  {
    if k == 0 then [] else Probes(k - 1) + [QueryProcessIdList(JOB_COUNT_INCREMENT * k)]
  }

  lemma {:induction false} ProbesGrow(k: nat)
    ensures forall i :: 0 <= i < k ==> Probes(k)[i] == QueryProcessIdList(JOB_COUNT_INCREMENT * (i + 1))
  {
    if k > 0 {
      ProbesGrow(k - 1);
    }
  }

  // ---------------------------------------------------------------------
  // Waiting for the processes of a job.

  /** What the waits of `TerminateProcessesAndWait` did: the calls, and the
      process that had gone before it could be looked up, if any. */
  datatype WaitOutcome = WaitOutcome(calls: seq<OsCall>, gone: Option<int>)

  /** Look up each process and wait for it, up to the first that has
      already exited. */
  function WaitCalls(pids: seq<int>, milliseconds: int, exited: set<int>): WaitOutcome
    decreases |pids|
  {
    if pids == [] then WaitOutcome([], None)
    else
      var before := WaitCalls(pids[..|pids| - 1], milliseconds, exited);
      var pid := pids[|pids| - 1];
      if before.gone.Some? then before
      else if pid in exited then WaitOutcome(before.calls + [GetProcessById(pid)], Some(pid))
      else WaitOutcome(before.calls + [GetProcessById(pid), WaitForExit(pid, milliseconds)], None)
  }

  /** The waits stop at the first process that had exited, and every process
      before it was waited for with the timeout given. */
  lemma {:induction false} WaitCallsStopAtFirstGone(pids: seq<int>, milliseconds: int, exited: set<int>)
    ensures WaitCalls(pids, milliseconds, exited).gone.Some?
            <==> exists i :: 0 <= i < |pids| && pids[i] in exited
    ensures WaitCalls(pids, milliseconds, exited).gone.None? ==>
              forall pid :: pid in pids ==> WaitForExit(pid, milliseconds) in WaitCalls(pids, milliseconds, exited).calls
    ensures WaitCalls(pids, milliseconds, exited).gone.Some? ==>
              var w := WaitCalls(pids, milliseconds, exited);
              exists i :: && 0 <= i < |pids| && pids[i] == w.gone.value && pids[i] in exited
                          && forall j :: 0 <= j < i ==> pids[j] !in exited && WaitForExit(pids[j], milliseconds) in w.calls
    decreases |pids|
  {
    if pids != [] {
      var n := |pids| - 1;
      var init := pids[..n];
      WaitCallsStopAtFirstGone(init, milliseconds, exited);
      assert pids == init + [pids[n]];
      var before := WaitCalls(init, milliseconds, exited);
      var w := WaitCalls(pids, milliseconds, exited);
      if before.gone.Some? {
        var i :| && 0 <= i < n && init[i] == before.gone.value && init[i] in exited
                 && forall j :: 0 <= j < i ==> init[j] !in exited && WaitForExit(init[j], milliseconds) in before.calls;
        assert pids[i] == init[i];
        assert forall j :: 0 <= j < i ==> pids[j] == init[j];
      } else if pids[n] in exited {
        forall j | 0 <= j < n
          ensures pids[j] !in exited && WaitForExit(pids[j], milliseconds) in w.calls
        {
          assert pids[j] == init[j] && init[j] in init;
        }
      }
    }
  }

  // ---------------------------------------------------------------------
  // Handles closed at most once.

  function Count(closes: seq<Handle>, h: Handle): nat {
    if closes == [] then 0
    else Count(closes[..|closes| - 1], h) + (if closes[|closes| - 1] == h then 1 else 0)
  }

  lemma {:induction false} CountAbsent(closes: seq<Handle>, h: Handle)
    requires h !in closes
    ensures Count(closes, h) == 0
  {
    if closes != [] {
      CountAbsent(closes[..|closes| - 1], h);
    }
  }

  /** No close repeats an earlier one. */
  ghost predicate ClosesOnce(closes: seq<Handle>) {
    closes == [] ||
    (ClosesOnce(closes[..|closes| - 1]) && closes[|closes| - 1] !in closes[..|closes| - 1])
  }

  /** Every port closed was one of the first `portsCreated`. */
  ghost predicate PortsBelow(closes: seq<Handle>, portsCreated: nat) {
    closes == [] ||
    (var last := closes[|closes| - 1];
     PortsBelow(closes[..|closes| - 1], portsCreated) && (last.PortHandle? ==> last.port <= portsCreated))
  }

  /** Each handle is closed at most once. */
  lemma {:induction false} ClosesOnceCounts(closes: seq<Handle>, h: Handle)
    requires ClosesOnce(closes)
    ensures Count(closes, h) <= 1
  {
    if closes != [] {
      var init := closes[..|closes| - 1];
      ClosesOnceCounts(init, h);
      if closes[|closes| - 1] == h {
        CountAbsent(init, h);
      }
    }
  }

  lemma {:induction false} PortsBelowAbsent(closes: seq<Handle>, portsCreated: nat, p: nat)
    requires PortsBelow(closes, portsCreated) && p > portsCreated
    ensures PortHandle(p) !in closes
    ensures PortsBelow(closes, p)
  {
    if closes != [] {
      PortsBelowAbsent(closes[..|closes| - 1], portsCreated, p);
      assert closes == closes[..|closes| - 1] + [closes[|closes| - 1]];
    }
  }

  /** The job handle and every completion port are closed at most once, an
      open handle or port not at all yet, and no port is closed before it
      was created. */
  ghost predicate ClosedAtMostOnce(closes: seq<Handle>, handle: Option<int>, port: Option<nat>, portsCreated: nat) {
    && ClosesOnce(closes)
    && PortsBelow(closes, portsCreated)
    && (handle.Some? ==> JobHandle !in closes)
    && (port.Some? ==> port.value == portsCreated && PortHandle(portsCreated) !in closes)
  }

  /** The job handle is closed only while it is open. */
  lemma ClosingJob(closes: seq<Handle>, token: int, port: Option<nat>, portsCreated: nat)
    requires ClosedAtMostOnce(closes, Some(token), port, portsCreated)
    ensures ClosedAtMostOnce(closes + [JobHandle], None, port, portsCreated)
  {
    assert (closes + [JobHandle])[..|closes|] == closes;
  }

  /** A port is closed only while it is the open one. */
  lemma ClosingPort(closes: seq<Handle>, handle: Option<int>, port: nat, portsCreated: nat)
    requires ClosedAtMostOnce(closes, handle, Some(port), portsCreated)
    ensures ClosedAtMostOnce(closes + [PortHandle(port)], handle, None, portsCreated)
  {
    assert (closes + [PortHandle(port)])[..|closes|] == closes;
  }

  /** A new port has never been closed. */
  lemma OpeningPort(closes: seq<Handle>, handle: Option<int>, port: Option<nat>, portsCreated: nat)
    requires ClosedAtMostOnce(closes, handle, port, portsCreated)
    ensures ClosedAtMostOnce(closes, handle, Some(portsCreated + 1), portsCreated + 1)
  {
    PortsBelowAbsent(closes, portsCreated, portsCreated + 1);
  }

  /** What a call answered, and the calls it made. */
  datatype Answer<T> = Answer(calls: seq<OsCall>, result: Result<T, JobError>)

  /** The job as the kernel holds it. It is not owned by the wrapper: other
      handles and the processes in it may change it between calls. */
  class KernelJob {
    var limits: ExtendedLimit
    var cpuRate: CpuRateControl
    var members: seq<int>
    var queue: seq<uint32>
    var accounting: Accounting

    /** A job the system has just created. */
    constructor ()
      ensures limits == NO_LIMITS && cpuRate == CpuRateControl({}, 0)
      ensures members == [] && queue == [] && accounting == Accounting(0, 0)
    {
      limits := NO_LIMITS;
      cpuRate := CpuRateControl({}, 0);
      members := [];
      queue := [];
      accounting := Accounting(0, 0);
    }
  }

  /** The wrapper: a handle on a kernel job, and the completion port its
      notifications are queued on. Ports are numbered in the order they are
      created. */
  class JobObject {
    const os: Os
    const kernel: KernelJob
    var handle: Option<int>
    var completionPort: Option<nat>
    var portsCreated: nat
    var calls: seq<OsCall>
    var closes: seq<Handle>

    ghost predicate Valid()
      reads this`closes, this`handle, this`completionPort, this`portsCreated
    {
      ClosedAtMostOnce(closes, handle, completionPort, portsCreated)
    }

    constructor (os: Os, kernel: KernelJob, token: int, opening: OsCall)
      requires opening.CreateJobObject? || opening.OpenJobObject?
      ensures this.os == os && this.kernel == kernel
      ensures handle == Some(token) && completionPort == None && portsCreated == 0
      ensures calls == [opening] && closes == []
      ensures Valid()
    {
      this.os := os;
      this.kernel := kernel;
      handle := Some(token);
      completionPort := None;
      portsCreated := 0;
      calls := [opening];
      closes := [];
    }

    /** `new JobObject(name, openExisting, terminateOnLastHandleClose)`:
        open the named job, or create one that kills its processes when
        the last handle closes and that posts to a completion port.
        `existing` is the job the name already denotes, if it denotes one:
        opening always finds it, and creating finds it too when the system
        says the name exists, in which case KillOnJobClose is added to the
        limits it already has. */
    static method Create(name: Option<string>, openExisting: bool, terminateOnLastHandleClose: bool,
                         os: Os, existing: KernelJob)
      returns (r: Result<JobObject, JobError>)
      modifies existing`limits
      ensures r.Ok? ==> fresh(r.value) && r.value.Valid() && r.value.os == os
      ensures r.Ok? ==> r.value.handle.Some? && ValidToken(r.value.handle.value)
      ensures openExisting ==> (r.Ok? <==> ValidToken(os.openToken))
      ensures openExisting && !ValidToken(os.openToken) ==> r == Err(CreationFailed)
      ensures openExisting && r.Ok? ==>
                && r.value.kernel == existing && r.value.handle == Some(os.openToken)
                && r.value.completionPort == None && r.value.calls == [OpenJobObject(name)]
      ensures r.Err? || openExisting || !(os.nameExists && name.Some?) ==> existing.limits == old(existing.limits)
      ensures !openExisting && os.createToken == 0 ==> r == Err(Win32(os.lastError))
      ensures !openExisting && os.createToken == -1 ==> r == Err(Win32(ERROR_INVALID_HANDLE))
      ensures !openExisting && ValidToken(os.createToken) ==>
                var query := QueryInformation(ExtendedLimitInformation);
                var write := SetInformation(ExtendedLimitInformation);
                var associate := SetInformation(AssociateCompletionPortInformation);
                && (query in os.failures ==> r == Err(Win32(os.failures[query])))
                && (query !in os.failures && write in os.failures ==> r == Err(SetInformationFailed(os.failures[write])))
                && (query !in os.failures && write !in os.failures ==>
                      && r.Ok?
                      && r.value.handle == Some(os.createToken)
                      && (os.nameExists && name.Some? ==>
                            && r.value.kernel == existing
                            && existing.limits == WithLimit(old(existing.limits), AddFlag(KillOnJobClose)))
                      && (!(os.nameExists && name.Some?) ==>
                            && fresh(r.value.kernel)
                            && r.value.kernel.limits == WithLimit(NO_LIMITS, AddFlag(KillOnJobClose)))
                      && r.value.completionPort == (if associate in os.failures then None else Some(1))
                      && r.value.calls == [CreateJobObject(name), query, write, CreateIoCompletionPort, associate])
    {
      if openExisting {
        var job := new JobObject(os, existing, os.openToken, OpenJobObject(name));
        if !ValidToken(os.openToken) {
          return Err(CreationFailed);
        }
        return Ok(job);
      }
      if os.createToken == 0 {
        return Err(Win32(os.lastError));
      }
      var kernel := existing;
      if !(os.nameExists && name.Some?) {
        kernel := new KernelJob();
      }
      var job := new JobObject(os, kernel, os.createToken, CreateJobObject(name));
      var limited := job.SetJobLimitFlag(KillOnJobClose);
      if limited.Err? {
        return Err(limited.error);
      }
      // A failed association only leaves the job without a port, so its
      // outcome is not looked at.
      var associated := job.SetCompletionPort();
      if !ValidToken(os.createToken) {
        return Err(CreationFailed);
      }
      return Ok(job);
    }

    /** The Win32 error the system answers `call` with, if any: every call
        on an invalid handle fails. */
    function Failure(call: OsCall): Option<int>
      reads this`handle
    {
      if handle.Some? && !ValidToken(handle.value) then Some(ERROR_INVALID_HANDLE)
      else if call in os.failures then Some(os.failures[call])
      else None
    }

    /** The call, if there is a handle to make it with. */
    function OnHandle(call: OsCall): (r: seq<OsCall>)
      reads this`handle
      ensures handle.Some? ==> r == [call]
      ensures handle.None? ==> r == []
    {
      if handle.Some? then [call] else []
    }

    /** What `GetJobLimits` answers. */
    function LimitsAnswer(): Result<ExtendedLimit, JobError>
      reads this`handle, kernel`limits
    {
      if handle.None? then Err(NullHandle)
      else match Failure(QueryInformation(ExtendedLimitInformation))
        case Some(e) => Err(Win32(e))
        case None => Ok(kernel.limits)
    }

    method GetJobLimits() returns (r: Result<ExtendedLimit, JobError>)
      modifies this`calls
      ensures calls == old(calls) + OnHandle(QueryInformation(ExtendedLimitInformation))
      ensures r == LimitsAnswer()
      ensures r.Ok? ==> r.value == kernel.limits
    {
      if handle.None? {
        return Err(NullHandle);
      }
      calls := calls + [QueryInformation(ExtendedLimitInformation)];
      var failure := Failure(QueryInformation(ExtendedLimitInformation));
      if failure.Some? {
        return Err(Win32(failure.value));
      }
      return Ok(kernel.limits);
    }

    /** The private `SetJobLimits(extendedLimit)`: write the whole record. */
    method SetJobLimitRecord(rec: ExtendedLimit) returns (r: Result<(), JobError>)
      modifies this`calls, kernel`limits
      ensures calls == old(calls) + OnHandle(SetInformation(ExtendedLimitInformation))
      ensures handle.None? ==> r == Err(NullHandle) && kernel.limits == old(kernel.limits)
      ensures handle.Some? ==>
                match Failure(SetInformation(ExtendedLimitInformation))
                case Some(e) => r == Err(SetInformationFailed(e)) && kernel.limits == old(kernel.limits)
                case None => r == Ok(()) && kernel.limits == rec
    {
      if handle.None? {
        return Err(NullHandle);
      }
      calls := calls + [SetInformation(ExtendedLimitInformation)];
      var failure := Failure(SetInformation(ExtendedLimitInformation));
      if failure.Some? {
        return Err(SetInformationFailed(failure.value));
      }
      kernel.limits := rec;
      return Ok(());
    }

    /** A setter's read-modify-write: the record read is written back with
        the setter's change, and a failed read writes nothing. */
    twostate predicate LimitsUpdated(u: LimitUpdate, new r: Result<(), JobError>)
      reads this, kernel
    {
      match old(LimitsAnswer())
      case Err(e) =>
        && r == Err(e) && kernel.limits == old(kernel.limits)
        && calls == old(calls) + OnHandle(QueryInformation(ExtendedLimitInformation))
      case Ok(rec) =>
        && calls == old(calls) + [QueryInformation(ExtendedLimitInformation), SetInformation(ExtendedLimitInformation)]
        && match Failure(SetInformation(ExtendedLimitInformation))
           case Some(e) => r == Err(SetInformationFailed(e)) && kernel.limits == rec
           case None => r == Ok(()) && kernel.limits == WithLimit(rec, u)
    }

    method UpdateLimits(u: LimitUpdate) returns (r: Result<(), JobError>)
      modifies this`calls, kernel`limits
      ensures LimitsUpdated(u, r)
    {
      var read := GetJobLimits();
      if read.Err? {
        return Err(read.error);
      }
      r := SetJobLimitRecord(WithLimit(read.value, u));
    }

    /** The private `SetJobLimits(limitFlag)`. */
    method SetJobLimitFlag(flag: LimitFlag) returns (r: Result<(), JobError>)
      modifies this`calls, kernel`limits
      ensures LimitsUpdated(AddFlag(flag), r)
    {
      r := UpdateLimits(AddFlag(flag));
    }

    method SetJobMemoryLimit(bytes: uint64) returns (r: Result<(), JobError>)
      modifies this`calls, kernel`limits
      ensures LimitsUpdated(MemoryLimit(bytes), r)
    {
      r := UpdateLimits(MemoryLimit(bytes));
    }

    method SetActiveProcessLimit(count: uint32) returns (r: Result<(), JobError>)
      modifies this`calls, kernel`limits
      ensures LimitsUpdated(ActiveProcesses(count), r)
    {
      r := UpdateLimits(ActiveProcesses(count));
    }

    /** The priority class is passed as its numeric value. */
    method SetPriorityClass(priorityClass: uint32) returns (r: Result<(), JobError>)
      modifies this`calls, kernel`limits
      ensures LimitsUpdated(Priority(priorityClass), r)
    {
      r := UpdateLimits(Priority(priorityClass));
    }

    method GetJobMemoryLimit() returns (r: Result<uint64, JobError>)
      modifies this`calls
      ensures calls == old(calls) + OnHandle(QueryInformation(ExtendedLimitInformation))
      ensures LimitsAnswer().Err? ==> r == Err(LimitsAnswer().error)
      ensures LimitsAnswer().Ok? ==> r == Ok(MemoryLimitOf(kernel.limits))
    {
      var read := GetJobLimits();
      if read.Err? {
        return Err(read.error);
      }
      return Ok(MemoryLimitOf(read.value));
    }

    method GetPeakJobMemoryUsed() returns (r: Result<uint64, JobError>)
      modifies this`calls
      ensures calls == old(calls) + OnHandle(QueryInformation(ExtendedLimitInformation))
      ensures LimitsAnswer().Err? ==> r == Err(LimitsAnswer().error)
      ensures LimitsAnswer().Ok? ==> r == Ok(PeakMemoryOf(kernel.limits))
    {
      var read := GetJobLimits();
      if read.Err? {
        return Err(read.error);
      }
      return Ok(PeakMemoryOf(read.value));
    }

    /** A weight outside 1..9 is refused before any system call. */
    method SetJobCpuLimit(weight: int) returns (r: Result<(), JobError>)
      modifies this`calls, kernel`cpuRate
      ensures !ValidCpuWeight(weight) ==>
                r == Err(ArgumentOutOfRange(weight)) && calls == old(calls) && kernel.cpuRate == old(kernel.cpuRate)
      ensures ValidCpuWeight(weight) ==>
                calls == old(calls) + OnHandle(SetInformation(CpuRateControlInformation))
      ensures ValidCpuWeight(weight) && handle.None? ==>
                r == Err(NullHandle) && kernel.cpuRate == old(kernel.cpuRate)
      ensures ValidCpuWeight(weight) && handle.Some? ==>
                match Failure(SetInformation(CpuRateControlInformation))
                case Some(e) => r == Err(Win32(e)) && kernel.cpuRate == old(kernel.cpuRate)
                case None => r == Ok(()) && kernel.cpuRate == CpuWeightRecord(weight)
    {
      if weight < 1 || weight > 9 {
        return Err(ArgumentOutOfRange(weight));
      }
      if handle.None? {
        return Err(NullHandle);
      }
      calls := calls + [SetInformation(CpuRateControlInformation)];
      var failure := Failure(SetInformation(CpuRateControlInformation));
      if failure.Some? {
        return Err(Win32(failure.value));
      }
      kernel.cpuRate := CpuWeightRecord(weight);
      return Ok(());
    }

    method GetJobCpuLimit() returns (r: Result<int, JobError>)
      modifies this`calls
      ensures calls == old(calls) + OnHandle(QueryInformation(CpuRateControlInformation))
      ensures handle.None? ==> r == Err(NullHandle)
      ensures handle.Some? ==>
                match Failure(QueryInformation(CpuRateControlInformation))
                case Some(e) => r == Err(Win32(e))
                case None => r == Ok(ToInt32(kernel.cpuRate.rate))
    {
      if handle.None? {
        return Err(NullHandle);
      }
      calls := calls + [QueryInformation(CpuRateControlInformation)];
      var failure := Failure(QueryInformation(CpuRateControlInformation));
      if failure.Some? {
        return Err(Win32(failure.value));
      }
      return Ok(ToInt32(kernel.cpuRate.rate));
    }

    /** What the system answers a probe for the process list with room for
        `capacity` ids: an error the system reports for that probe, and
        otherwise ERROR_MORE_DATA exactly when the job has more processes
        than that. */
    function ProbeAnswer(capacity: nat): (r: Option<int>)
      reads this`handle, kernel`members
      ensures r == Some(ERROR_MORE_DATA) ==> capacity < |kernel.members|
      ensures r == None ==> capacity >= |kernel.members|
      ensures r.Some? && r != Some(ERROR_MORE_DATA) ==>
                (handle.Some? && !ValidToken(handle.value)) || QueryProcessIdList(capacity) in os.failures
    {
      var call := QueryProcessIdList(capacity);
      if handle.Some? && !ValidToken(handle.value) then Some(ERROR_INVALID_HANDLE)
      else if call in os.failures && os.failures[call] != ERROR_MORE_DATA then Some(os.failures[call])
      else if capacity < |kernel.members| then Some(ERROR_MORE_DATA)
      else None
    }

    /** The probe, counting from `k`, at which the loop stops: the first one
        not answered ERROR_MORE_DATA. */
    function StopRound(k: nat): (r: nat)
      reads this`handle, kernel`members
      requires k >= 1
      ensures k <= r
      ensures ProbeAnswer(JOB_COUNT_INCREMENT * r) != Some(ERROR_MORE_DATA)
      ensures forall i :: k <= i < r ==> ProbeAnswer(JOB_COUNT_INCREMENT * i) == Some(ERROR_MORE_DATA)
      decreases |kernel.members| - JOB_COUNT_INCREMENT * k
    {
      if ProbeAnswer(JOB_COUNT_INCREMENT * k) == Some(ERROR_MORE_DATA) then StopRound(k + 1) else k
    }

    /** What `GetProcessIds` does. */
    function ProcessIdsOutcome(): Answer<seq<int>>
      reads this`handle, kernel`members
    {
      if handle.None? then Answer([], Err(NullHandle))
      else
        var k := StopRound(1);
        Answer(Probes(k), match ProbeAnswer(JOB_COUNT_INCREMENT * k)
                          case Some(e) => Err(Win32(e))
                          case None => Ok(kernel.members))
    }

    /** Every probe before the last was answered ERROR_MORE_DATA, so was too
        small for the job; the loop never probes past the buffer that fits,
        and when the last probe succeeds it had room for every process and
        came after exactly `Rounds` probes. */
    lemma ProcessIdsProbesJustFit()
      requires handle.Some?
      ensures var probes := ProcessIdsOutcome().calls;
              && 1 <= |probes| <= Rounds(|kernel.members|)
              && (forall i :: 0 <= i < |probes| ==> probes[i] == QueryProcessIdList(JOB_COUNT_INCREMENT * (i + 1)))
              && (forall i :: 0 <= i < |probes| - 1 ==> ProbeAnswer(probes[i].capacity) == Some(ERROR_MORE_DATA))
              && ProbeAnswer(probes[|probes| - 1].capacity) != Some(ERROR_MORE_DATA)
              && (ProbeAnswer(probes[|probes| - 1].capacity) == None ==>
                    probes[|probes| - 1].capacity >= |kernel.members| && |probes| == Rounds(|kernel.members|))
    {
      var n := |kernel.members|;
      var k := StopRound(1);
      RoundsFit(n);
      ProbesGrow(k);
      // The probe that fits is never answered ERROR_MORE_DATA, so the loop
      // stops there at the latest.
      assert ProbeAnswer(JOB_COUNT_INCREMENT * Rounds(n)) != Some(ERROR_MORE_DATA);
      if ProbeAnswer(JOB_COUNT_INCREMENT * k) == None {
        if k > 1 {
          assert ProbeAnswer(JOB_COUNT_INCREMENT * (k - 1)) == Some(ERROR_MORE_DATA);
        }
        RoundsUnique(n, k);
      }
    }

    /** An error other than ERROR_MORE_DATA on the first probe is thrown at
        once, however many processes the job has. */
    lemma FirstProbeFailureStops()
      requires handle.Some? && ValidToken(handle.value)
      requires QueryProcessIdList(JOB_COUNT_INCREMENT) in os.failures
      requires os.failures[QueryProcessIdList(JOB_COUNT_INCREMENT)] != ERROR_MORE_DATA
      ensures ProcessIdsOutcome() == Answer([QueryProcessIdList(JOB_COUNT_INCREMENT)],
                                            Err(Win32(os.failures[QueryProcessIdList(JOB_COUNT_INCREMENT)])))
    {
      assert Probes(1) == [QueryProcessIdList(JOB_COUNT_INCREMENT)];
    }

    /** `GetProcessIds`, the static `GetJobObjectProcessIds` on this handle:
        probe with room for 5 ids and grow by 5 on every ERROR_MORE_DATA. */
    method GetJobObjectProcessIds() returns (r: Result<seq<int>, JobError>)
      modifies this`calls
      ensures calls == old(calls) + ProcessIdsOutcome().calls
      ensures r == ProcessIdsOutcome().result
    {
      if handle.None? {
        return Err(NullHandle);
      }
      var k := 1;
      assert Probes(1) == [QueryProcessIdList(JOB_COUNT_INCREMENT)];
      calls := calls + [QueryProcessIdList(JOB_COUNT_INCREMENT)];
      var answer := ProbeAnswer(JOB_COUNT_INCREMENT);
      while answer == Some(ERROR_MORE_DATA)
        invariant k >= 1
        invariant calls == old(calls) + Probes(k)
        invariant answer == ProbeAnswer(JOB_COUNT_INCREMENT * k)
        invariant StopRound(k) == StopRound(1)
        decreases |kernel.members| - JOB_COUNT_INCREMENT * k
      {
        k := k + 1;
        calls := calls + [QueryProcessIdList(JOB_COUNT_INCREMENT * k)];
        answer := ProbeAnswer(JOB_COUNT_INCREMENT * k);
      }
      if answer.Some? {
        return Err(Win32(answer.value));
      }
      return Ok(kernel.members);
    }

    method TerminateProcesses() returns (r: Result<(), JobError>)
      modifies this`calls
      ensures handle.None? ==> r == Err(ObjectDisposed) && calls == old(calls)
      ensures handle.Some? ==> r == Ok(()) && calls == old(calls) + [TerminateJobObject(0)]
    {
      if handle.None? {
        return Err(ObjectDisposed);
      }
      calls := calls + [TerminateJobObject(0)];
      return Ok(());
    }

    /** What `TerminateProcessesAndWait(milliseconds)` does. */
    function TerminateAndWaitOutcome(milliseconds: int): Answer<()>
      reads this`handle, kernel`members
    {
      if handle.None? then Answer([], Err(ObjectDisposed))
      else
        var ids := ProcessIdsOutcome();
        var head := [TerminateJobObject(0)] + ids.calls;
        match ids.result
        case Err(e) => Answer(head, Err(e))
        case Ok(pids) =>
          var waits := WaitCalls(pids, milliseconds, os.exited);
          if waits.gone.Some? then Answer(head + waits.calls, Err(ProcessNotRunning(waits.gone.value)))
          else Answer(head + waits.calls + [WaitForJob(milliseconds)], Ok(()))
    }

    /** Terminate first, then list the processes, wait for each, and wait on
        the job last; it succeeds exactly when every process could still be
        looked up. */
    lemma TerminateAndWaitOrder(milliseconds: int)
      requires handle.Some?
      ensures var o := TerminateAndWaitOutcome(milliseconds);
              && |o.calls| >= 1 && o.calls[0] == TerminateJobObject(0)
              && o.calls[1..|ProcessIdsOutcome().calls| + 1] == ProcessIdsOutcome().calls
      ensures var o := TerminateAndWaitOutcome(milliseconds);
              o.result.Ok? <==> ProcessIdsOutcome().result.Ok? && forall i :: 0 <= i < |kernel.members| ==> kernel.members[i] !in os.exited
      ensures var o := TerminateAndWaitOutcome(milliseconds);
              o.result.Ok? ==>
                && o.calls[|o.calls| - 1] == WaitForJob(milliseconds)
                && forall pid :: pid in kernel.members ==> WaitForExit(pid, milliseconds) in o.calls
    {
      var ids := ProcessIdsOutcome();
      var head := [TerminateJobObject(0)] + ids.calls;
      assert head[1..|ids.calls| + 1] == ids.calls;
      if ids.result.Ok? {
        assert ids.result.value == kernel.members;
        var waits := WaitCalls(kernel.members, milliseconds, os.exited);
        WaitCallsStopAtFirstGone(kernel.members, milliseconds, os.exited);
        if waits.gone.None? {
          var all := head + waits.calls + [WaitForJob(milliseconds)];
          assert all[1..|ids.calls| + 1] == ids.calls;
          forall pid | pid in kernel.members
            ensures WaitForExit(pid, milliseconds) in all
          {
            assert WaitForExit(pid, milliseconds) in waits.calls;
          }
        } else {
          assert (head + waits.calls)[1..|ids.calls| + 1] == ids.calls;
        }
      }
    }

    /** Once a process has gone, the rest of the list is not looked at. */
    lemma WaitGonePersists(pids: seq<int>, i: nat, milliseconds: int)
      requires i <= |pids| && WaitCalls(pids[..i], milliseconds, os.exited).gone.Some?
      ensures WaitCalls(pids, milliseconds, os.exited) == WaitCalls(pids[..i], milliseconds, os.exited)
      decreases |pids| - i
    {
      if i < |pids| {
        assert pids[..i + 1][..i] == pids[..i];
        WaitGonePersists(pids, i + 1, milliseconds);
      } else {
        assert pids[..i] == pids;
      }
    }

    /** The loop of `TerminateProcessesAndWait`: look up each process and
        wait for it. */
    method WaitForProcesses(pids: seq<int>, milliseconds: int) returns (r: Result<(), JobError>)
      modifies this`calls
      ensures calls == old(calls) + WaitCalls(pids, milliseconds, os.exited).calls
      ensures r == match WaitCalls(pids, milliseconds, os.exited).gone
                   case Some(pid) => Err(ProcessNotRunning(pid))
                   case None => Ok(())
    {
      var i := 0;
      while i < |pids|
        invariant 0 <= i <= |pids|
        invariant WaitCalls(pids[..i], milliseconds, os.exited).gone.None?
        invariant calls == old(calls) + WaitCalls(pids[..i], milliseconds, os.exited).calls
      {
        assert pids[..i + 1][..i] == pids[..i];
        calls := calls + [GetProcessById(pids[i])];
        if pids[i] in os.exited {
          WaitGonePersists(pids, i + 1, milliseconds);
          return Err(ProcessNotRunning(pids[i]));
        }
        calls := calls + [WaitForExit(pids[i], milliseconds)];
        i := i + 1;
      }
      assert pids[..i] == pids;
      return Ok(());
    }

    method TerminateProcessesAndWait(milliseconds: int := INFINITE) returns (r: Result<(), JobError>)
      modifies this`calls
      ensures calls == old(calls) + TerminateAndWaitOutcome(milliseconds).calls
      ensures r == TerminateAndWaitOutcome(milliseconds).result
    {
      ghost var listing := ProcessIdsOutcome();
      ghost var head := [TerminateJobObject(0)] + listing.calls;
      r := TerminateProcesses();
      if r.Err? {
        return;
      }
      var ids := GetJobObjectProcessIds();
      assert calls == old(calls) + head && ids == listing.result;
      if ids.Err? {
        return Err(ids.error);
      }
      ghost var waits := WaitCalls(ids.value, milliseconds, os.exited);
      r := WaitForProcesses(ids.value, milliseconds);
      assert calls == old(calls) + (head + waits.calls);
      if r.Err? {
        return;
      }
      calls := calls + [WaitForJob(milliseconds)];
      assert calls == old(calls) + (head + waits.calls + [WaitForJob(milliseconds)]);
    }

    /** Create a completion port and associate it with the job; a failed
        association drops the port. */
    method SetCompletionPort() returns (r: Result<(), JobError>)
      requires Valid()
      modifies this`calls, this`completionPort, this`portsCreated
      ensures Valid()
      ensures portsCreated == old(portsCreated) + 1
      ensures handle.None? ==>
                && r == Err(NullHandle) && completionPort == Some(portsCreated)
                && calls == old(calls) + [CreateIoCompletionPort]
      ensures handle.Some? ==>
                && r == Ok(())
                && calls == old(calls) + [CreateIoCompletionPort, SetInformation(AssociateCompletionPortInformation)]
                && completionPort == (if Failure(SetInformation(AssociateCompletionPortInformation)).Some? then None
                                      else Some(portsCreated))
    {
      OpeningPort(closes, handle, completionPort, portsCreated);
      portsCreated := portsCreated + 1;
      completionPort := Some(portsCreated);
      calls := calls + [CreateIoCompletionPort];
      if handle.None? {
        return Err(NullHandle);
      }
      calls := calls + [SetInformation(AssociateCompletionPortInformation)];
      if Failure(SetInformation(AssociateCompletionPortInformation)).Some? {
        completionPort := None;
      }
      return Ok(());
    }

    /** Drain the completion port: every queued code, in order, as a
        message; nothing at all without a port. */
    method GetQueuedCompletionStatus() returns (msgs: seq<CompletionMsg>)
      modifies this`calls, kernel`queue
      ensures completionPort.None? ==> msgs == [] && calls == old(calls) && kernel.queue == old(kernel.queue)
      ensures completionPort.Some? ==>
                && msgs == MsgsOf(old(kernel.queue)) && kernel.queue == []
                && calls == old(calls) + Dequeues(|old(kernel.queue)| + 1)
    {
      msgs := [];
      if completionPort.None? {
        return;
      }
      ghost var queued := kernel.queue;
      ghost var i := 0;
      while kernel.queue != []
        invariant 0 <= i <= |queued|
        invariant kernel.queue == queued[i..]
        invariant msgs == MsgsOf(queued[..i])
        invariant calls == old(calls) + Dequeues(i)
        decreases |kernel.queue|
      {
        calls := calls + [DequeueCompletion(COMPLETION_WAIT_MS)];
        var code := kernel.queue[0];
        kernel.queue := kernel.queue[1..];
        msgs := msgs + [MsgOf(code)];
        assert queued[..i + 1][..i] == queued[..i];
        i := i + 1;
      }
      assert queued[..i] == queued;
      calls := calls + [DequeueCompletion(COMPLETION_WAIT_MS)];
    }

    method GetCpuStatistics() returns (r: Result<CpuStatistics, JobError>)
      modifies this`calls
      ensures handle.None? ==> r == Err(ObjectDisposed) && calls == old(calls)
      ensures handle.Some? ==> calls == old(calls) + [QueryInformation(BasicAccountingInformation)]
      ensures handle.Some? ==>
                var failure := Failure(QueryInformation(BasicAccountingInformation));
                r == if failure.Some? && failure.value != ERROR_MORE_DATA then Err(Win32(failure.value))
                     else Ok(CpuStatistics(kernel.accounting.totalKernelTime, kernel.accounting.totalUserTime))
    {
      if handle.None? {
        return Err(ObjectDisposed);
      }
      calls := calls + [QueryInformation(BasicAccountingInformation)];
      var failure := Failure(QueryInformation(BasicAccountingInformation));
      if failure.Some? && failure.value != ERROR_MORE_DATA {
        return Err(Win32(failure.value));
      }
      return Ok(CpuStatistics(kernel.accounting.totalKernelTime, kernel.accounting.totalUserTime));
    }

    /** Close the handle and the port, each only if it is open; a second
        call changes nothing. */
    method Dispose()
      requires Valid()
      modifies this`handle, this`completionPort, this`closes
      ensures Valid()
      ensures handle == None && completionPort == None
      ensures closes == old(closes) + (if old(handle).Some? then [JobHandle] else [])
                        + (if old(completionPort).Some? then [PortHandle(old(completionPort).value)] else [])
    {
      if handle.Some? {
        ClosingJob(closes, handle.value, completionPort, portsCreated);
        closes := closes + [JobHandle];
        handle := None;
      }
      if completionPort.Some? {
        ClosingPort(closes, handle, completionPort.value, portsCreated);
        closes := closes + [PortHandle(completionPort.value)];
        completionPort := None;
      }
    }
  }
}
