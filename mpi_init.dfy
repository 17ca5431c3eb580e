/** The builder of the `mpirun` command line for a multiprocessed run:
    an optional CUDA device prefix, the host list or the process count, and
    the module of the outer or inner training loop. */
module MpiInit {
  import opened Common
  import opened Text

  /** The entries of the MPI configuration file that the builder reads. */
  datatype InitConfig = InitConfig(cudaDevices: seq<int>, gpuAddrs: seq<string>, nProcesses: int, isOuter: bool)

  /** The exception raised for a host that does not answer a ping. */
  datatype InitError = Unreachable(addr: string)

  /** A reachability test: did `ping -c 1 addr` succeed? */
  type Ping = string -> bool

  const CudaVariable: string := "CUDA_VISIBLE_DEVICES="
  const HostsFlag: string := "mpirun -H "
  const ProcessesFlag: string := "mpirun -n "
  const OuterModule: string := "python3 -m training.training_multiprocessing.loop_outer.multiprocessed_training_outer_loop"
  const InnerModule: string := "python3 -m training.training_multiprocessing.loop_inner.multiprocessed_training_inner_loop"

  /** `','.join(map(str, devices))`. */
  function DeviceList(devices: seq<int>): (r: seq<string>)
    ensures |r| == |devices|
    ensures forall k :: 0 <= k < |r| ==> r[k] == IntToString(devices[k])
  {
    seq(|devices|, k requires 0 <= k < |devices| => IntToString(devices[k]))
  }

  /** The device prefix: present exactly when devices are given. */
  function CudaPrefix(devices: seq<int>): string {
    if devices == [] then "" else CudaVariable + Join(",", DeviceList(devices)) + " "
  }

  /** The launch part: the hosts, the local host first, or else the
      process count plus one for the coordinator. */
  function LaunchPart(c: InitConfig, hostIp: string): string {
    if c.gpuAddrs != [] then HostsFlag + Join(",", [hostIp] + c.gpuAddrs) + " "
    else ProcessesFlag + IntToString(c.nProcesses + 1) + " "
  }

  function ModulePath(isOuter: bool): string {
    if isOuter then OuterModule else InnerModule
  }

  /** The command printed when every host answers. */
  function Command(c: InitConfig, hostIp: string): string {
    CudaPrefix(c.cudaDevices) + LaunchPart(c, hostIp) + ModulePath(c.isOuter)
  }

  /** `addrs[k]` is `a`, does not answer, and every address before it answers. */
  predicate FirstFailureAt(addrs: seq<string>, ping: Ping, k: int, a: string) {
    0 <= k < |addrs| && addrs[k] == a && !ping(a) && forall j :: 0 <= j < k ==> ping(addrs[j])
  }

  /** The first address, in list order, that does not answer. */
  function FirstUnreachable(addrs: seq<string>, ping: Ping): (r: Option<string>)
    ensures r == None <==> forall k :: 0 <= k < |addrs| ==> ping(addrs[k])
    ensures r.Some? ==> exists k :: FirstFailureAt(addrs, ping, k, r.value)
  {
    if addrs == [] then None
    else if !ping(addrs[0]) then
      assert FirstFailureAt(addrs, ping, 0, addrs[0]);
      Some(addrs[0])
    else
      var rest := FirstUnreachable(addrs[1..], ping);
      assert forall k :: 1 <= k < |addrs| ==> addrs[k] == addrs[1..][k - 1];
      assert rest.Some? ==> exists k :: FirstFailureAt(addrs, ping, k, rest.value) by {
        if rest.Some? {
          var k :| FirstFailureAt(addrs[1..], ping, k, rest.value);
          assert FirstFailureAt(addrs, ping, k + 1, rest.value);
        }
      }
      rest
  }

  /** What `main` prints, or the exception it raises. */
  function Outcome(c: InitConfig, ping: Ping, hostIp: string): Result<string, InitError> {
    match FirstUnreachable(c.gpuAddrs, ping)
    case Some(a) => Err(Unreachable(a))
    case None => Ok(Command(c, hostIp))
  }

  /** `main`: the command is built by appending to `arg`, pinging every
      address in turn before the host list is added. */
  method BuildCommand(c: InitConfig, ping: Ping, hostIp: string) returns (r: Result<string, InitError>)
    ensures r == Outcome(c, ping, hostIp)
  {
    var arg := "";
    if c.cudaDevices != [] {
      var devices := Join(",", DeviceList(c.cudaDevices));
      arg := arg + (CudaVariable + devices + " ");
    }
    assert arg == CudaPrefix(c.cudaDevices);
    if c.gpuAddrs != [] {
      var i := 0;
      while i < |c.gpuAddrs|
        invariant 0 <= i <= |c.gpuAddrs|
        invariant FirstUnreachable(c.gpuAddrs, ping) == FirstUnreachable(c.gpuAddrs[i..], ping)
      {
        var addr := c.gpuAddrs[i];
        if !ping(addr) {
          return Err(Unreachable(addr));
        }
        assert c.gpuAddrs[i..][1..] == c.gpuAddrs[i + 1..];
        i := i + 1;
      }
      var addrs := [hostIp] + c.gpuAddrs;
      arg := arg + (HostsFlag + Join(",", addrs) + " ");
    } else {
      arg := arg + (ProcessesFlag + IntToString(c.nProcesses + 1) + " ");
    }
    assert arg == CudaPrefix(c.cudaDevices) + LaunchPart(c, hostIp);
    if c.isOuter {
      arg := arg + OuterModule;
    } else {
      arg := arg + InnerModule;
    }
    r := Ok(arg);
  }

  lemma PrefixOfAppend(p: string, s: string)
    ensures p <= p + s
  {
    assert (p + s)[..|p|] == p;
  }

  lemma HeadOfAppend(a: string, b: string)
    requires a != []
    ensures (a + b)[0] == a[0]
  {
  }

  lemma PrefixHead(p: string, s: string)
    requires p != [] && p <= s
    ensures s[0] == p[0]
  {
    assert s[..|p|] == p;
  }

  /** `(a + b + c) + d == a + (b + c + d)`, for the launch part inside a command. */
  lemma Regroup(a: string, b: string, c: string, d: string, e: string)
    ensures a + (b + c + d) + e == a + b + c + d + e
  {
  }

  lemma SuffixOfAppend(a: string, b: string)
    ensures (a + b)[|a + b| - |b|..] == b
  {
  }

  lemma HeadOfChain(a: string, b: string, c: string, d: string)
    requires a != []
    ensures ("" + (a + b + c) + d)[0] == a[0]
  {
  }

  lemma PrefixOfChain(a: string, b: string, c: string, d: string, e: string)
    ensures a <= a + b + c + d + e
    ensures a + b + c <= a + b + c + d + e
  {
    assert (a + b + c + d + e)[..|a|] == a;
    assert (a + b + c + d + e)[..|a + b + c|] == a + b + c;
  }

  /** Without devices the command starts with `mpirun`, not with the CUDA variable. */
  lemma NoDevicesNoPrefix(c: InitConfig, hostIp: string)
    requires c.cudaDevices == []
    ensures !(CudaVariable <= Command(c, hostIp))
  {
    var cmd := Command(c, hostIp);
    if c.gpuAddrs != [] {
      HeadOfChain(HostsFlag, Join(",", [hostIp] + c.gpuAddrs), " ", ModulePath(c.isOuter));
    } else {
      HeadOfChain(ProcessesFlag, IntToString(c.nProcesses + 1), " ", ModulePath(c.isOuter));
    }
    assert cmd[0] == 'm';
    if CudaVariable <= cmd {
      PrefixHead(CudaVariable, cmd);
      assert false;
    }
  }

  /** With devices the command starts with the CUDA variable, the
      comma-joined devices and a space. */
  lemma DevicesPrefix(c: InitConfig, hostIp: string)
    requires c.cudaDevices != []
    ensures CudaVariable + Join(",", DeviceList(c.cudaDevices)) + " " <= Command(c, hostIp)
    ensures CudaVariable <= Command(c, hostIp)
  {
    PrefixOfChain(CudaVariable, Join(",", DeviceList(c.cudaDevices)), " ", LaunchPart(c, hostIp), ModulePath(c.isOuter));
  }

  /** The command starts with the CUDA variable exactly when devices are given. */
  lemma CudaPrefixIff(c: InitConfig, hostIp: string)
    ensures CudaVariable <= Command(c, hostIp) <==> c.cudaDevices != []
  {
    if c.cudaDevices == [] {
      NoDevicesNoPrefix(c, hostIp);
    } else {
      DevicesPrefix(c, hostIp);
    }
  }

  /** With a host list, the launch part names the local host first, then
      the configured addresses in order. */
  lemma HostFirst(c: InitConfig, hostIp: string)
    requires c.gpuAddrs != []
    ensures Command(c, hostIp) ==
      CudaPrefix(c.cudaDevices) + HostsFlag + hostIp + "," + Join(",", c.gpuAddrs) + " " + ModulePath(c.isOuter)
  {
    var addrs := [hostIp] + c.gpuAddrs;
    JoinHead(",", addrs);
    assert addrs[1..] == c.gpuAddrs;
    var joined := Join(",", addrs);
    assert joined == hostIp + "," + Join(",", c.gpuAddrs);
    var cuda := CudaPrefix(c.cudaDevices);
    Regroup(cuda, HostsFlag, joined, " ", ModulePath(c.isOuter));
    Regroup(cuda + HostsFlag, hostIp, ",", Join(",", c.gpuAddrs), " ");
  }

  /** Without a host list, one process more than configured is requested:
      the count in the command reads back as `n_processes + 1`. */
  lemma ProcessCount(c: InitConfig, hostIp: string)
    requires c.gpuAddrs == [] && c.nProcesses >= 0
    ensures Command(c, hostIp) ==
      CudaPrefix(c.cudaDevices) + ProcessesFlag + NatToString(c.nProcesses + 1) + " " + ModulePath(c.isOuter)
    ensures ParseNat(NatToString(c.nProcesses + 1)) == c.nProcesses + 1
  {
    var cuda, count, tail := CudaPrefix(c.cudaDevices), NatToString(c.nProcesses + 1), ModulePath(c.isOuter);
    assert LaunchPart(c, hostIp) == ProcessesFlag + count + " ";
    assert Command(c, hostIp) == cuda + (ProcessesFlag + count + " ") + tail;
    Regroup(cuda, ProcessesFlag, count, " ", tail);
    ParseNatToString(c.nProcesses + 1);
  }

  /** The command ends with the outer-loop module exactly in outer mode,
      and with the inner-loop module otherwise. */
  lemma ModuleAtEnd(c: InitConfig, hostIp: string)
    ensures var cmd := Command(c, hostIp);
      |cmd| >= |OuterModule| &&
      (cmd[|cmd| - |OuterModule|..] == OuterModule <==> c.isOuter) &&
      (cmd[|cmd| - |InnerModule|..] == InnerModule <==> !c.isOuter)
  {
    var head := CudaPrefix(c.cudaDevices) + LaunchPart(c, hostIp);
    var tail := ModulePath(c.isOuter);
    var cmd := Command(c, hostIp);
    assert cmd == head + tail;
    SuffixOfAppend(head, tail);
    ModulesDiffer();
    assert cmd[|cmd| - |tail|..] == tail;
  }

  lemma ModulesDiffer()
    ensures |OuterModule| == |InnerModule| && OuterModule != InnerModule
  {
    assert |OuterModule| == |InnerModule| == 90;
    assert OuterModule[50] == 'o' && InnerModule[50] == 'i';
  }

  /** An unreachable host stops the builder before any command exists; the
      host it names is the first in the list that does not answer. */
  lemma UnreachableIsFirst(c: InitConfig, ping: Ping, hostIp: string)
    requires Outcome(c, ping, hostIp).Err?
    ensures var a := Outcome(c, ping, hostIp).error.addr;
      exists k :: 0 <= k < |c.gpuAddrs| && c.gpuAddrs[k] == a && !ping(a) &&
        forall j :: 0 <= j < k ==> ping(c.gpuAddrs[j])
  {
  }
}
