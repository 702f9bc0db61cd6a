/** Running, finding and stopping processes in a container by asking the
    privileged container host: the requests the runner builds and what it
    makes of the host's answers. The host client keeps a log of the
    requests it was sent; its answers are fixed in advance. */
module ConstrainedProcesses {
  import opened Wrappers

  type Environment = map<string, string>

  /** The grace period `StopAll` gives processes that are not killed, in
      milliseconds. */
  const STOP_GRACE_PERIOD_MS := 10000

  // ---------------------------------------------------------------------
  // Correlation keys.

  datatype Guid = Guid(bytes: seq<bv8>)

  const EMPTY_GUID := Guid([0, 0, 0, 0, 0, 0, 0, 0, 0, 0, 0, 0, 0, 0, 0, 0])

  /** A version 4 GUID from 16 random bytes (missing bytes read as 0): the
      version nibble 4 goes into byte 6 and the variant bits 10 into byte 8,
      as RFC 4122 section 4.4 lays them out. */
  function NewGuid(random: seq<bv8>): (g: Guid)
    ensures |g.bytes| == 16
    ensures g.bytes[6] & 0xF0 == 0x40 && g.bytes[8] & 0xC0 == 0x80
    ensures g != EMPTY_GUID
  {
    var b := seq(16, i requires 0 <= i < 16 => if i < |random| then random[i] else 0);
    var g := Guid(b[6 := (b[6] & 0x0F) | 0x40][8 := (b[8] & 0x3F) | 0x80]);
    assert g.bytes[6] != EMPTY_GUID.bytes[6];
    g
  }

  // ---------------------------------------------------------------------
  // Environment blocks.

  /** The default environment block: the container's TEMP and PATH. */
  function DefaultEnvironment(temp: string, path: string): (r: Environment)
    ensures "TEMP" in r && "PATH" in r
    ensures r["TEMP"] == temp && r["PATH"] == path
  {
    map["TEMP" := temp, "PATH" := path]
  }

  /** The caller's entries merged on top of the defaults: the caller wins a
      clash, and every default the caller leaves alone stays. */
  function MergeEnvironment(defaults: Environment, caller: Environment): (r: Environment)
    ensures r.Keys == defaults.Keys + caller.Keys
    ensures forall k :: k in caller ==> r[k] == caller[k]
    ensures forall k :: k in defaults && k !in caller ==> r[k] == defaults[k]
  {
    defaults + caller
  }

  /** Merging is idempotent, and whatever the caller passes, TEMP and PATH
      are in the block sent. */
  lemma MergeEnvironmentProperties(temp: string, path: string, caller: Environment)
    ensures var merged := MergeEnvironment(DefaultEnvironment(temp, path), caller);
            && "TEMP" in merged && "PATH" in merged
            && MergeEnvironment(merged, caller) == merged
            && (caller == map[] ==> merged == DefaultEnvironment(temp, path))
  {
    var defaults := DefaultEnvironment(temp, path);
    var merged := MergeEnvironment(defaults, caller);
    assert MergeEnvironment(merged, caller).Keys == merged.Keys;
    if caller == map[] {
      assert merged.Keys == defaults.Keys;
    }
  }

  // ---------------------------------------------------------------------
  // Requests and answers.

  datatype ProcessRunSpec = ProcessRunSpec(
    executablePath: string,
    arguments: seq<string>,
    workingDirectory: string,
    environment: Environment)

  datatype CreateProcessParams = CreateProcessParams(
    executablePath: string,
    arguments: seq<string>,
    workingDirectory: string,
    environment: Environment,
    key: Guid)

  datatype HostRequest =
    | CreateProcess(createParams: CreateProcessParams)
    | FindProcessById(id: int)
    | StopAllProcesses(timeout: int)

  datatype FindProcessByIdResult = FindProcessByIdResult(id: int, environment: Environment)

  /** A process the host has placed in the container. */
  datatype ConstrainedProcess = ConstrainedProcess(id: int, environment: Environment)

  /** The create request for `spec`: its path, arguments and directory as
      given, its environment merged over the defaults, and a fresh key. */
  function CreateRequest(spec: ProcessRunSpec, defaults: Environment, random: seq<bv8>): (p: CreateProcessParams)
    ensures p.executablePath == spec.executablePath && p.arguments == spec.arguments
    ensures p.workingDirectory == spec.workingDirectory
    ensures forall k :: k in spec.environment ==> k in p.environment && p.environment[k] == spec.environment[k]
    ensures forall k :: k in defaults ==> k in p.environment
    ensures p.key != EMPTY_GUID
  {
    CreateProcessParams(spec.executablePath, spec.arguments, spec.workingDirectory,
                        MergeEnvironment(defaults, spec.environment), NewGuid(random))
  }

  /** The timeout `StopAll` sends: none when killing, the grace period
      otherwise. */
  function StopTimeout(kill: bool): (timeout: int)
    ensures kill ==> timeout == 0
    ensures !kill ==> timeout == STOP_GRACE_PERIOD_MS
  {
    if kill then 0 else STOP_GRACE_PERIOD_MS
  }

  // ---------------------------------------------------------------------
  // The host client and the runner.

  /** The client end of the channel to the container host. It answers a
      create request with `createdId` and a lookup with what `known` holds
      for the id, if anything. */
  class ContainerHostClient {
    const createdId: int
    const known: map<int, Environment>
    var sent: seq<HostRequest>
    var disposals: nat

    constructor (createdId: int, known: map<int, Environment>)
      ensures this.createdId == createdId && this.known == known
      ensures sent == [] && disposals == 0
    {
      this.createdId := createdId;
      this.known := known;
      sent := [];
      disposals := 0;
    }

    method CreateProcess(createParams: CreateProcessParams) returns (id: int)
      modifies this`sent
      ensures sent == old(sent) + [HostRequest.CreateProcess(createParams)]
      ensures id == createdId
    {
      sent := sent + [HostRequest.CreateProcess(createParams)];
      id := createdId;
    }

    method FindProcessById(id: int) returns (r: Option<FindProcessByIdResult>)
      modifies this`sent
      ensures sent == old(sent) + [HostRequest.FindProcessById(id)]
      ensures r.Some? <==> id in known
      ensures r.Some? ==> r.value == FindProcessByIdResult(id, known[id])
    {
      sent := sent + [HostRequest.FindProcessById(id)];
      if id in known {
        return Some(FindProcessByIdResult(id, known[id]));
      }
      return None;
    }

    method StopAllProcesses(timeout: int)
      modifies this`sent
      ensures sent == old(sent) + [HostRequest.StopAllProcesses(timeout)]
    {
      sent := sent + [HostRequest.StopAllProcesses(timeout)];
    }

    method Dispose()
      modifies this`disposals
      ensures disposals == old(disposals) + 1
    {
      disposals := disposals + 1;
    }
  }

  class ConstrainedProcessRunner {
    const client: ContainerHostClient

    constructor (client: ContainerHostClient)
      ensures this.client == client
    {
      this.client := client;
    }

    /** Send exactly one create request and return the process the host
        created, with the environment it was given: the caller's block over
        the default block of the container's `temp` and `path`. `random` is
        the bytes the key is made from. */
    method Run(spec: ProcessRunSpec, temp: string, path: string, random: seq<bv8>) returns (process: ConstrainedProcess)
      modifies client`sent
      ensures client.sent == old(client.sent)
                + [HostRequest.CreateProcess(CreateRequest(spec, DefaultEnvironment(temp, path), random))]
      ensures process.id == client.createdId
      ensures process.environment == CreateRequest(spec, DefaultEnvironment(temp, path), random).environment
      ensures "TEMP" in process.environment && "PATH" in process.environment
      ensures "TEMP" !in spec.environment ==> process.environment["TEMP"] == temp
      ensures "PATH" !in spec.environment ==> process.environment["PATH"] == path
    {
      var request := CreateRequest(spec, DefaultEnvironment(temp, path), random);
      var id := client.CreateProcess(request);
      return ConstrainedProcess(id, request.environment);
    }

    /** Ask the host for the process; an unknown id is no process, not an
        error. */
    method FindProcessById(id: int) returns (process: Option<ConstrainedProcess>)
      modifies client`sent
      ensures client.sent == old(client.sent) + [HostRequest.FindProcessById(id)]
      ensures process.Some? <==> id in client.known
      ensures process.Some? ==> process.value == ConstrainedProcess(id, client.known[id])
    {
      var found := client.FindProcessById(id);
      if found.None? {
        return None;
      }
      return Some(ConstrainedProcess(found.value.id, found.value.environment));
    }

    method StopAll(kill: bool)
      modifies client`sent
      ensures client.sent == old(client.sent) + [HostRequest.StopAllProcesses(StopTimeout(kill))]
    {
      client.StopAllProcesses(StopTimeout(kill));
    }

    method Dispose()
      modifies client`disposals
      ensures client.disposals == old(client.disposals) + 1
    {
      client.Dispose();
    }
  }
}
