/**
  GPU snapshots: the composite that merges the vendor backends, and the NVIDIA
  backend's per-process join. What a driver call returns is a parameter.
*/
module Gpu {
  import opened Basics

  datatype Backend = Nvml | AmdSysfs | AppleIoReport

  datatype Kind = Compute | Graphics | Both | Unknown

  datatype Device = Device(
    index: nat,
    backend: Backend,
    name: string,
    busId: string,
    memUsedBytes: Option<nat>,
    memTotalBytes: Option<nat>,
    supportsProcessStats: bool)

  datatype GpuProcess = GpuProcess(pid: nat, deviceIndex: nat, name: string, kind: Kind, memBytes: Option<nat>)

  datatype GpusSnapshot = GpusSnapshot(
    backends: seq<Backend>,
    available: bool,
    devices: seq<Device>,
    processes: seq<GpuProcess>,
    detail: string)

  const UNAVAILABLE: GpusSnapshot := GpusSnapshot([], false, [], [], "")

  /** What a child backend answered: a snapshot, or the text of its error. */
  type ChildResult = Result<GpusSnapshot, string>

  predicate DenselyNumbered(s: GpusSnapshot) {
    forall k :: 0 <= k < |s.devices| ==> s.devices[k].index == k
  }

  predicate PointsHome(s: GpusSnapshot) {
    forall k :: 0 <= k < |s.processes| ==> s.processes[k].deviceIndex < |s.devices|
  }

  // ---------------------------------------------------------------- composite

  function Usable(children: seq<ChildResult>): seq<GpusSnapshot> {
    if children == [] then []
    else
      var last := children[|children| - 1];
      Usable(children[..|children| - 1]) + if last.Ok? && last.value.available then [last.value] else []
  }

  function Failures(children: seq<ChildResult>): seq<string> {
    if children == [] then []
    else
      Failures(children[..|children| - 1]) +
      match children[|children| - 1]
      case Err(e) => [e]
      case Ok(s) => if !s.available && s.detail != "" then [s.detail] else []
  }

  function ShiftDevice(d: Device, offset: nat): Device {
    d.(index := offset + d.index)
  }

  function ShiftProcess(p: GpuProcess, offset: nat): GpuProcess {
    p.(deviceIndex := p.deviceIndex + offset)
  }

  function ShiftDevices(ds: seq<Device>, offset: nat): seq<Device> {
    seq(|ds|, k requires 0 <= k < |ds| => ShiftDevice(ds[k], offset))
  }

  function ShiftProcesses(ps: seq<GpuProcess>, offset: nat): seq<GpuProcess> {
    seq(|ps|, k requires 0 <= k < |ps| => ShiftProcess(ps[k], offset))
  }

  function Devices(us: seq<GpusSnapshot>): seq<Device> {
    if us == [] then []
    else Devices(us[..|us| - 1]) + ShiftDevices(us[|us| - 1].devices, |Devices(us[..|us| - 1])|)
  }

  function Processes(us: seq<GpusSnapshot>): seq<GpuProcess> {
    if us == [] then []
    else Processes(us[..|us| - 1]) + ShiftProcesses(us[|us| - 1].processes, |Devices(us[..|us| - 1])|)
  }

  function Backends(us: seq<GpusSnapshot>): seq<Backend> {
    if us == [] then [] else Backends(us[..|us| - 1]) + us[|us| - 1].backends
  }

  function Join(parts: seq<string>): string {
    if parts == [] then ""
    else if |parts| == 1 then parts[0]
    else Join(parts[..|parts| - 1]) + "; " + parts[|parts| - 1]
  }

  function Merged(children: seq<ChildResult>): GpusSnapshot {
    var us := Usable(children);
    var available := Devices(us) != [];
    GpusSnapshot(
      FirstSeen(Backends(us)), available, Devices(us), Processes(us),
      if available then "" else if Failures(children) == [] then "no GPU detected" else Join(Failures(children)))
  }

  method AddBackends(backends: seq<Backend>, more: seq<Backend>, ghost earlier: seq<Backend>)
    returns (r: seq<Backend>)
    requires backends == FirstSeen(earlier)
    ensures r == FirstSeen(earlier + more)
  {
    r := backends;
    assert earlier + more[..0] == earlier;
    for k := 0 to |more|
      invariant r == FirstSeen(earlier + more[..k])
    {
      assert (earlier + more[..k + 1])[..|earlier| + k] == earlier + more[..k];
      if more[k] !in r {
        r := r + [more[k]];
      }
    }
    assert more[..|more|] == more;
  }

  lemma UsableGrows(us: seq<GpusSnapshot>, s: GpusSnapshot)
    ensures Devices(us + [s]) == Devices(us) + ShiftDevices(s.devices, |Devices(us)|)
    ensures Processes(us + [s]) == Processes(us) + ShiftProcesses(s.processes, |Devices(us)|)
    ensures Backends(us + [s]) == Backends(us) + s.backends
  {
    assert (us + [s])[..|us|] == us;
  }

  method AddDevices(devices: seq<Device>, more: seq<Device>, offset: nat) returns (r: seq<Device>)
    ensures r == devices + ShiftDevices(more, offset)
  {
    r := devices;
    for k := 0 to |more|
      invariant r == devices + ShiftDevices(more, offset)[..k]
    {
      var device := more[k];
      r := r + [device.(index := offset + device.index)];
    }
  }

  method AddProcesses(processes: seq<GpuProcess>, more: seq<GpuProcess>, offset: nat) returns (r: seq<GpuProcess>)
    ensures r == processes + ShiftProcesses(more, offset)
  {
    r := processes;
    for k := 0 to |more|
      invariant r == processes + ShiftProcesses(more, offset)[..k]
    {
      var process := more[k];
      r := r + [process.(deviceIndex := process.deviceIndex + offset)];
    }
  }

  lemma UsableStep(children: seq<ChildResult>, i: nat)
    requires i < |children|
    ensures Usable(children[..i + 1]) ==
            if children[i].Ok? && children[i].value.available then Usable(children[..i]) + [children[i].value]
            else Usable(children[..i])
    ensures Failures(children[..i + 1]) == Failures(children[..i]) +
                                           match children[i]
                                           case Err(e) => [e]
                                           case Ok(s) => if !s.available && s.detail != "" then [s.detail] else []
  {
    assert children[..i + 1][..i] == children[..i];
  }

  method MergeSnapshots(children: seq<ChildResult>) returns (merged: GpusSnapshot)
    ensures merged == Merged(children)
  {
    assert Devices([]) == [] && Processes([]) == [] && FirstSeen(Backends([])) == [];
    hide Devices, Processes, Backends, FirstSeen, ShiftDevices, ShiftProcesses;
    merged := UNAVAILABLE;
    var failures: seq<string> := [];
    for i := 0 to |children|
      invariant merged.devices == Devices(Usable(children[..i]))
      invariant merged.processes == Processes(Usable(children[..i]))
      invariant merged.backends == FirstSeen(Backends(Usable(children[..i])))
      invariant !merged.available && merged.detail == ""
      invariant failures == Failures(children[..i])
    {
      ghost var us := Usable(children[..i]);
      UsableStep(children, i);
      match children[i] {
        case Err(e) =>
          failures := failures + [e];
        case Ok(snapshot) =>
          if !snapshot.available {
            if snapshot.detail != "" {
              failures := failures + [snapshot.detail];
            }
          } else {
            var offset := |merged.devices|;
            var devices := AddDevices(merged.devices, snapshot.devices, offset);
            var processes := AddProcesses(merged.processes, snapshot.processes, offset);
            var backends := AddBackends(merged.backends, snapshot.backends, Backends(us));
            UsableGrows(us, snapshot);
            merged := merged.(devices := devices, processes := processes, backends := backends);
          }
      }
    }
    assert children[..|children|] == children;
    var available := merged.devices != [];
    merged := merged.(available := available);
    if !available {
      var joined := Join(failures);
      merged := merged.(detail := if failures == [] then "no GPU detected" else joined);
    }
  }

  /** Merged devices are numbered 0..n-1 when every usable child numbers its own that way. */
  lemma {:induction false} MergedIsDense(us: seq<GpusSnapshot>)
    requires forall i :: 0 <= i < |us| ==> DenselyNumbered(us[i])
    ensures forall k :: 0 <= k < |Devices(us)| ==> Devices(us)[k].index == k
  {
    if us != [] {
      MergedIsDense(us[..|us| - 1]);
    }
  }

  /** Where child `i`'s devices and processes start in the merged lists. */
  lemma {:induction false} ChildLandsAt(us: seq<GpusSnapshot>, i: nat)
    requires i < |us|
    ensures var d, p := |Devices(us[..i])|, |Processes(us[..i])|;
            && d + |us[i].devices| <= |Devices(us)| && p + |us[i].processes| <= |Processes(us)|
            && Devices(us)[d..d + |us[i].devices|] == ShiftDevices(us[i].devices, d)
            && Processes(us)[p..p + |us[i].processes|] == ShiftProcesses(us[i].processes, d)
  {
    hide Devices, Processes, ShiftDevices, ShiftProcesses;
    var n := |us| - 1;
    assert us[..n] + [us[n]] == us;
    UsableGrows(us[..n], us[n]);
    ShiftsKeepLength(us[n], |Devices(us[..n])|);
    if i < n {
      ChildLandsAt(us[..n], i);
      assert us[..n][..i] == us[..i];
      var d, p := |Devices(us[..i])|, |Processes(us[..i])|;
      var more := |Devices(us[..n])|;
      SliceOfPrefix(Devices(us[..n]), ShiftDevices(us[n].devices, more), d, d + |us[i].devices|);
      SliceOfPrefix(Processes(us[..n]), ShiftProcesses(us[n].processes, more), p, p + |us[i].processes|);
    }
  }

  lemma ShiftsKeepLength(s: GpusSnapshot, offset: nat)
    ensures |ShiftDevices(s.devices, offset)| == |s.devices|
    ensures |ShiftProcesses(s.processes, offset)| == |s.processes|
  {
  }

  /** After the merge a process still points at the record of its own child's device. */
  lemma ProcessesKeepTheirDevice(us: seq<GpusSnapshot>, i: nat, k: nat)
    requires i < |us| && k < |us[i].processes| && us[i].processes[k].deviceIndex < |us[i].devices|
    ensures var d, p := |Devices(us[..i])|, |Processes(us[..i])|;
            && p + k < |Processes(us)|
            && var q := Processes(us)[p + k];
               && q.deviceIndex < |Devices(us)|
               && q == us[i].processes[k].(deviceIndex := q.deviceIndex)
               && Devices(us)[q.deviceIndex] == ShiftDevice(us[i].devices[us[i].processes[k].deviceIndex], d)
  {
    hide Devices, Processes;
    ChildLandsAt(us, i);
    var d, p := |Devices(us[..i])|, |Processes(us[..i])|;
    assert Processes(us)[p..p + |us[i].processes|][k] == Processes(us)[p + k];
    var home := us[i].processes[k].deviceIndex;
    assert Devices(us)[d..d + |us[i].devices|][home] == Devices(us)[d + home];
  }

  /** How many devices and processes the available children list in all. */
  function DeviceTotal(children: seq<ChildResult>): nat {
    if children == [] then 0
    else
      var last := children[|children| - 1];
      DeviceTotal(children[..|children| - 1]) + if last.Ok? && last.value.available then |last.value.devices| else 0
  }

  function ProcessTotal(children: seq<ChildResult>): nat {
    if children == [] then 0
    else
      var last := children[|children| - 1];
      ProcessTotal(children[..|children| - 1]) + if last.Ok? && last.value.available then |last.value.processes| else 0
  }

  lemma {:induction false} TotalsAreLengths(children: seq<ChildResult>)
    ensures |Devices(Usable(children))| == DeviceTotal(children)
    ensures |Processes(Usable(children))| == ProcessTotal(children)
  {
    hide Devices, Processes;
    if children != [] {
      var n := |children| - 1;
      TotalsAreLengths(children[..n]);
      UsableStep(children, n);
      assert children[..n + 1] == children;
      if children[n].Ok? && children[n].value.available {
        UsableGrows(Usable(children[..n]), children[n].value);
        ShiftsKeepLength(children[n].value, |Devices(Usable(children[..n]))|);
      } else {
        assert Usable(children) == Usable(children[..n]);
      }
    } else {
      NothingUsable();
    }
  }

  lemma NothingUsable()
    ensures Devices([]) == [] && Processes([]) == []
  {
  }

  lemma {:induction false} UsablePosition(children: seq<ChildResult>, i: nat)
    requires i < |children| && children[i].Ok? && children[i].value.available
    ensures var us, u := Usable(children), |Usable(children[..i])|;
            u < |us| && us[u] == children[i].value && us[..u] == Usable(children[..i])
  {
    var n := |children| - 1;
    UsableStep(children, n);
    assert children[..n + 1] == children;
    if i < n {
      UsablePosition(children[..n], i);
      assert children[..n][..i] == children[..i];
    }
  }

  /**
    Every device and process of an available child stands in the merged lists, after those
    of the children before it, unchanged but for its device number, which moves up by the
    number of devices before.
  */
  lemma MergeLosesNothing(children: seq<ChildResult>, i: nat)
    requires i < |children| && children[i].Ok? && children[i].value.available
    ensures var child, merged := children[i].value, Merged(children);
            var d, p := DeviceTotal(children[..i]), ProcessTotal(children[..i]);
            && |merged.devices| == DeviceTotal(children) && |merged.processes| == ProcessTotal(children)
            && d + |child.devices| <= |merged.devices| && p + |child.processes| <= |merged.processes|
            && (forall k :: 0 <= k < |child.devices| ==>
                  merged.devices[d + k] == child.devices[k].(index := d + child.devices[k].index))
            && (forall k :: 0 <= k < |child.processes| ==>
                  merged.processes[p + k] == child.processes[k].(deviceIndex := d + child.processes[k].deviceIndex))
  {
    hide Devices, Processes, Usable, Failures, Join, Backends, FirstSeen, DeviceTotal, ProcessTotal;
    var us, u := Usable(children), |Usable(children[..i])|;
    TotalsAreLengths(children);
    TotalsAreLengths(children[..i]);
    UsablePosition(children, i);
    ChildLandsAt(us, u);
    var child := children[i].value;
    var d, p := DeviceTotal(children[..i]), ProcessTotal(children[..i]);
    forall k | 0 <= k < |child.devices|
      ensures Devices(us)[d + k] == child.devices[k].(index := d + child.devices[k].index)
    {
      assert Devices(us)[d + k] == Devices(us)[d..d + |child.devices|][k];
    }
    forall k | 0 <= k < |child.processes|
      ensures Processes(us)[p + k] == child.processes[k].(deviceIndex := d + child.processes[k].deviceIndex)
    {
      assert Processes(us)[p + k] == Processes(us)[p..p + |child.processes|][k];
    }
  }

  /** Why a child contributed nothing: its error, or what it says about being unavailable. */
  predicate FailedWith(child: ChildResult, text: string) {
    match child
    case Err(e) => e == text
    case Ok(s) => !s.available && s.detail != "" && s.detail == text
  }

  lemma {:induction false} FailureIsListed(children: seq<ChildResult>, i: nat, text: string)
    requires i < |children| && FailedWith(children[i], text)
    ensures text in Failures(children)
  {
    if i < |children| - 1 {
      FailureIsListed(children[..|children| - 1], i, text);
    }
  }

  lemma {:induction false} JoinHolds(parts: seq<string>, k: nat)
    requires k < |parts|
    ensures exists before, after :: Join(parts) == before + parts[k] + after
  {
    var n := |parts| - 1;
    if n == 0 {
      assert Join(parts) == "" + parts[k] + "";
    } else if k == n {
      assert Join(parts) == Join(parts[..n]) + "; " + parts[k] + "";
    } else {
      JoinHolds(parts[..n], k);
      var before, after :| Join(parts[..n]) == before + parts[k] + after;
      assert Join(parts) == before + parts[k] + (after + "; " + parts[n]);
    }
  }

  /** With no device to show, the snapshot names every failure, or says that none was reported. */
  lemma UnavailableSaysWhy(children: seq<ChildResult>, i: nat, text: string)
    requires !Merged(children).available
    ensures i < |children| && FailedWith(children[i], text) ==>
              exists before, after :: Merged(children).detail == before + text + after
    ensures (forall k, t :: 0 <= k < |children| ==> !FailedWith(children[k], t)) ==>
              Merged(children).detail == "no GPU detected"
  {
    hide Join, Devices, Processes, Backends, FirstSeen, Usable;
    if i < |children| && FailedWith(children[i], text) {
      FailureIsListed(children, i, text);
      var k :| 0 <= k < |Failures(children)| && Failures(children)[k] == text;
      JoinHolds(Failures(children), k);
    }
    if forall k, t :: 0 <= k < |children| ==> !FailedWith(children[k], t) {
      NoFailureListed(children);
    }
  }

  lemma {:induction false} NoFailureListed(children: seq<ChildResult>)
    requires forall k, t :: 0 <= k < |children| ==> !FailedWith(children[k], t)
    ensures Failures(children) == []
  {
    if children != [] {
      var last := children[|children| - 1];
      NoFailureListed(children[..|children| - 1]);
      assert !FailedWith(last, if last.Err? then last.error else last.value.detail);
    }
  }

  function Working(us: seq<GpusSnapshot>): seq<ChildResult> {
    seq(|us|, i requires 0 <= i < |us| => Ok(us[i]))
  }

  lemma {:induction false} UsableIsIdempotent(us: seq<GpusSnapshot>)
    requires forall i :: 0 <= i < |us| ==> us[i].available
    ensures Usable(Working(us)) == us
  {
    if us != [] {
      var n := |us| - 1;
      UsableIsIdempotent(us[..n]);
      assert Working(us)[..n] == Working(us[..n]);
      assert us == us[..n] + [us[n]];
    }
  }

  lemma {:induction false} UsableAreAvailable(children: seq<ChildResult>)
    ensures forall i :: 0 <= i < |Usable(children)| ==>
              Usable(children)[i].available && Ok(Usable(children)[i]) in children
  {
    if children != [] {
      UsableAreAvailable(children[..|children| - 1]);
    }
  }

  /** A failing or unavailable child leaves no trace beside the other children's rows. */
  lemma FailuresAreInvisible(children: seq<ChildResult>)
    ensures var dropped := Merged(Working(Usable(children)));
            && Merged(children).devices == dropped.devices
            && Merged(children).processes == dropped.processes
            && Merged(children).backends == dropped.backends
            && Merged(children).available == dropped.available
  {
    UsableAreAvailable(children);
    UsableIsIdempotent(Usable(children));
  }

  /** Children that keep the backend contract merge into a snapshot that keeps it. */
  lemma MergeKeepsContract(children: seq<ChildResult>)
    requires forall i :: 0 <= i < |children| && children[i].Ok? && children[i].value.available ==>
                           DenselyNumbered(children[i].value) && PointsHome(children[i].value)
    ensures DenselyNumbered(Merged(children)) && PointsHome(Merged(children))
    ensures Distinct(Merged(children).backends)
    ensures Merged(children).available <==> Merged(children).devices != []
  {
    var us := Usable(children);
    UsableAreAvailable(children);
    MergedIsDense(us);
    MergedPointsHome(us);
    FirstSeenIsExact(Backends(us));
  }

  lemma {:induction false} MergedPointsHome(us: seq<GpusSnapshot>)
    requires forall i :: 0 <= i < |us| ==> PointsHome(us[i])
    ensures forall k :: 0 <= k < |Processes(us)| ==> Processes(us)[k].deviceIndex < |Devices(us)|
  {
    if us != [] {
      MergedPointsHome(us[..|us| - 1]);
    }
  }

  lemma {:induction false} NoDevicesIff(us: seq<GpusSnapshot>)
    ensures Devices(us) == [] <==> forall i :: 0 <= i < |us| ==> us[i].devices == []
  {
    hide ShiftDevices, Processes, Backends;
    if us != [] {
      var n := |us| - 1;
      NoDevicesIff(us[..n]);
      assert us == us[..n] + [us[n]];
      UsableGrows(us[..n], us[n]);
      ShiftsKeepLength(us[n], |Devices(us[..n])|);
    }
  }

  lemma {:induction false} NoBackendsIff(us: seq<GpusSnapshot>)
    ensures Backends(us) == [] <==> forall i :: 0 <= i < |us| ==> us[i].backends == []
  {
    if us != [] {
      var n := |us| - 1;
      NoBackendsIff(us[..n]);
      assert forall i :: 0 <= i < n ==> us[..n][i] == us[i];
      assert |Backends(us)| == |Backends(us[..n])| + |us[n].backends|;
    }
  }

  /**
    The record promises no backends in an unavailable snapshot. The merge breaks
    that exactly when no usable child has a device and one of them names a backend.
    No engine of this repository answers so: it takes one written outside it.
  */
  lemma UnavailableWithBackends(children: seq<ChildResult>)
    ensures !Merged(children).available && Merged(children).backends != [] <==>
            && (forall i :: 0 <= i < |Usable(children)| ==> Usable(children)[i].devices == [])
            && (exists i :: 0 <= i < |Usable(children)| && Usable(children)[i].backends != [])
  {
    hide Devices, Processes, Backends, FirstSeen, Usable, Failures, Join;
    var us := Usable(children);
    var bs := Backends(us);
    NoDevicesIff(us);
    NoBackendsIff(us);
    FirstSeenMembers(bs);
    assert FirstSeen(bs) == [] <==> bs == [] by {
      if bs != [] {
        assert bs[0] in bs;
      }
      if FirstSeen(bs) != [] {
        assert FirstSeen(bs)[0] in FirstSeen(bs);
      }
    }
    assert Merged(children).backends == FirstSeen(bs);
    assert Merged(children).available <==> Devices(us) != [];
  }

  /** An engine outside this repository that answers like this is enough to break the promise. */
  const BACKEND_WITHOUT_DEVICE: GpusSnapshot := GpusSnapshot([Nvml], true, [], [], "")

  lemma MergeCanNameBackendsUnavailable()
    ensures var merged := Merged([Ok(BACKEND_WITHOUT_DEVICE)]);
            !merged.available && merged.backends == [Nvml]
  {
    var children: seq<ChildResult> := [Ok(BACKEND_WITHOUT_DEVICE)];
    assert children[..0] == [];
    assert Usable(children) == Usable([]) + [BACKEND_WITHOUT_DEVICE];
    UsableGrows([], BACKEND_WITHOUT_DEVICE);
    assert Usable(children) == [] + [BACKEND_WITHOUT_DEVICE];
    assert Backends([]) + [Nvml] == [Nvml] && FirstSeen([Nvml][..0]) == [];
    assert FirstSeen([Nvml]) == [Nvml];
  }

  /** A snapshot that says it is available has a device to show, as those of every engine here do. */
  predicate AvailableWithDevice(child: ChildResult) {
    child.Ok? && child.value.available ==> child.value.devices != []
  }

  /** With such children, which is what the engines of this repository send, the promise is kept. */
  lemma EnginesKeepThePromise(children: seq<ChildResult>)
    requires forall i :: 0 <= i < |children| ==> AvailableWithDevice(children[i])
    ensures !Merged(children).available ==> Merged(children).backends == []
  {
    hide Merged;
    UnavailableWithBackends(children);
    UsableAreAvailable(children);
    var us := Usable(children);
    forall i | 0 <= i < |us| ensures us[i].devices != [] {
      var k :| 0 <= k < |children| && children[k] == Ok(us[i]);
      assert AvailableWithDevice(children[k]);
    }
  }

  // ------------------------------------------------------------------ process kinds

  function MergeKind(a: Kind, b: Kind): Kind {
    if a == b then a
    else if a == Unknown then b
    else if b == Unknown then a
    else Both
  }

  /** A join: `Unknown` at the bottom, `Both` at the top. */
  lemma KindsFormALattice(a: Kind, b: Kind, c: Kind)
    ensures MergeKind(MergeKind(a, b), c) == MergeKind(a, MergeKind(b, c))
    ensures MergeKind(a, b) == MergeKind(b, a) && MergeKind(a, a) == a
    ensures MergeKind(Unknown, a) == a && MergeKind(Both, a) == Both
  {
  }

  // ------------------------------------------------------------- NVIDIA join

  /** One entry of a driver list; no figure under drivers that report none. */
  datatype Report = Report(pid: nat, memory: Option<nat>)

  datatype Observation = Observation(pid: nat, memory: Option<nat>, kind: Kind)

  function Observed(reports: seq<Report>, kind: Kind): seq<Observation> {
    seq(|reports|, i requires 0 <= i < |reports| => Observation(reports[i].pid, reports[i].memory, kind))
  }

  function Pids(obs: seq<Observation>): seq<nat> {
    seq(|obs|, i requires 0 <= i < |obs| => obs[i].pid)
  }

  /** The join of everything observed of `pid`. */
  function KindOf(obs: seq<Observation>, pid: nat): Kind {
    if obs == [] then Unknown
    else
      var last := obs[|obs| - 1];
      MergeKind(KindOf(obs[..|obs| - 1], pid), if last.pid == pid then last.kind else Unknown)
  }

  /** The first figure reported for `pid`. */
  function MemoryOf(obs: seq<Observation>, pid: nat): Option<nat> {
    if obs == [] then None
    else
      var before := MemoryOf(obs[..|obs| - 1], pid);
      if before == None && obs[|obs| - 1].pid == pid then obs[|obs| - 1].memory else before
  }

  function RowOf(obs: seq<Observation>, deviceIndex: nat, pid: nat): GpuProcess {
    GpuProcess(pid, deviceIndex, "", KindOf(obs, pid), MemoryOf(obs, pid))
  }

  /** One row per process, in first-seen order. */
  function Rows(obs: seq<Observation>, deviceIndex: nat): seq<GpuProcess> {
    var order := FirstSeen(Pids(obs));
    seq(|order|, k requires 0 <= k < |order| => RowOf(obs, deviceIndex, order[k]))
  }

  /** The accumulator shared by the two passes over one device. */
  class ProcessMerge {
    var merged: map<nat, (Kind, Option<nat>)>
    var order: seq<nat>
    ghost var seen: seq<Observation>

    ghost predicate Valid()
      reads this
    {
      && order == FirstSeen(Pids(seen))
      && (forall pid :: pid in merged <==> pid in order)
      && (forall pid :: pid in merged ==> merged[pid] == (KindOf(seen, pid), MemoryOf(seen, pid)))
    }

    constructor ()
      ensures Valid() && seen == []
    {
      merged, order, seen := map[], [], [];
    }

    method Absorb(procs: seq<Report>, kind: Kind)
      requires Valid()
      modifies this
      ensures Valid() && seen == old(seen) + Observed(procs, kind)
    {
      for i := 0 to |procs|
        invariant Valid() && seen == old(seen) + Observed(procs, kind)[..i]
      {
        AbsorbOne(procs[i], kind);
      }
    }

    method AbsorbOne(info: Report, kind: Kind)
      requires Valid()
      modifies this
      ensures Valid() && seen == old(seen) + [Observation(info.pid, info.memory, kind)]
    {
      hide KindOf, MemoryOf, FirstSeen, Pids;
      var pid := info.pid;
      ghost var before := seen;
      ghost var after := seen + [Observation(pid, info.memory, kind)];
      ObservationAdds(before, Observation(pid, info.memory, kind));
      FirstSeenMembers(Pids(before));
      if pid in merged {
        var (k, m) := merged[pid];
        merged := merged[pid := (MergeKind(k, kind), if m == None then info.memory else m)];
      } else {
        UnseenIsUnknown(before, pid);
        order := order + [pid];
        merged := merged[pid := (kind, info.memory)];
      }
      seen := after;
    }
  }

  lemma ObservationAdds(obs: seq<Observation>, o: Observation)
    ensures var after := obs + [o];
            && FirstSeen(Pids(after)) == FirstSeen(Pids(obs)) + (if o.pid in FirstSeen(Pids(obs)) then [] else [o.pid])
            && forall pid ::
                 && KindOf(after, pid) == MergeKind(KindOf(obs, pid), if o.pid == pid then o.kind else Unknown)
                 && MemoryOf(after, pid) ==
                    if MemoryOf(obs, pid) == None && o.pid == pid then o.memory else MemoryOf(obs, pid)
  {
    var after := obs + [o];
    assert after[..|obs|] == obs;
    assert Pids(after)[..|obs|] == Pids(obs);
  }

  lemma {:induction false} UnseenIsUnknown(obs: seq<Observation>, pid: nat)
    requires pid !in Pids(obs)
    ensures KindOf(obs, pid) == Unknown && MemoryOf(obs, pid) == None
  {
    if obs != [] {
      var n := |obs| - 1;
      assert Pids(obs)[n] == obs[n].pid;
      assert forall i :: 0 <= i < n ==> Pids(obs[..n])[i] == Pids(obs)[i];
      UnseenIsUnknown(obs[..n], pid);
    }
  }

  function ListOf(list: Option<seq<Report>>): seq<Report> {
    match list
    case Some(reports) => reports
    case None => []
  }

  /** Both driver lists of one device, a failed query contributing nothing. */
  function DeviceObservations(compute: Option<seq<Report>>, graphics: Option<seq<Report>>): seq<Observation> {
    Observed(ListOf(compute), Compute) + Observed(ListOf(graphics), Graphics)
  }

  method CollectProcesses(
    compute: Option<seq<Report>>, graphics: Option<seq<Report>>, deviceIndex: nat, out: seq<GpuProcess>)
    returns (out': seq<GpuProcess>)
    ensures out' == out + Rows(DeviceObservations(compute, graphics), deviceIndex)
  {
    hide KindOf, MemoryOf, FirstSeen;
    var acc := new ProcessMerge();
    if compute.Some? {
      acc.Absorb(compute.value, Compute);
    }
    assert acc.seen == Observed(ListOf(compute), Compute);
    if graphics.Some? {
      acc.Absorb(graphics.value, Graphics);
    }
    assert acc.seen == DeviceObservations(compute, graphics);
    hide Observed, ListOf, DeviceObservations;
    out' := out;
    ghost var rows := Rows(acc.seen, deviceIndex);
    for k := 0 to |acc.order|
      invariant acc.Valid() && acc.seen == DeviceObservations(compute, graphics)
      invariant out' == out + rows[..k]
    {
      var pid := acc.order[k];
      var (kind, memBytes) := acc.merged[pid];
      assert rows[..k + 1] == rows[..k] + [rows[k]];
      assert rows[k] == GpuProcess(pid, deviceIndex, "", kind, memBytes);
      out' := out' + [GpuProcess(pid, deviceIndex, "", kind, memBytes)];
    }
  }

  function ReportsFor(pid: nat): Observation -> bool {
    (o: Observation) => o.pid == pid && o.memory.Some?
  }

  /** A process's memory is the first figure any entry of it reports, and unknown if none does. */
  lemma {:induction false} MemoryIsTheFirstReported(obs: seq<Observation>, pid: nat)
    ensures MemoryOf(obs, pid) == None <==> forall i :: 0 <= i < |obs| ==> !ReportsFor(pid)(obs[i])
    ensures MemoryOf(obs, pid) != None ==>
              exists k :: FirstAt(obs, ReportsFor(pid), k) && obs[k].memory == MemoryOf(obs, pid)
  {
    if obs != [] {
      var n := |obs| - 1;
      MemoryIsTheFirstReported(obs[..n], pid);
      assert forall i :: 0 <= i < n ==> obs[..n][i] == obs[i];
      if MemoryOf(obs[..n], pid) != None {
        var k :| FirstAt(obs[..n], ReportsFor(pid), k) && obs[..n][k].memory == MemoryOf(obs[..n], pid);
        assert FirstAt(obs, ReportsFor(pid), k);
      } else if MemoryOf(obs, pid) != None {
        assert FirstAt(obs, ReportsFor(pid), n);
      }
    }
  }

  lemma {:induction false} KindJoins(obs: seq<Observation>, pid: nat)
    requires forall i :: 0 <= i < |obs| ==> obs[i].kind in {Compute, Graphics}
    ensures var c := exists i :: 0 <= i < |obs| && obs[i].pid == pid && obs[i].kind == Compute;
            var g := exists i :: 0 <= i < |obs| && obs[i].pid == pid && obs[i].kind == Graphics;
            KindOf(obs, pid) == if c && g then Both else if c then Compute else if g then Graphics else Unknown
  {
    if obs != [] {
      var n := |obs| - 1;
      KindJoins(obs[..n], pid);
      assert forall i :: 0 <= i < n ==> obs[..n][i] == obs[i];
    }
  }

  /**
    One row per process that either list names, no process twice, in order of
    first appearance; listed as `Both` exactly when both lists name it.
  */
  lemma RowsAreOnePerProcess(compute: Option<seq<Report>>, graphics: Option<seq<Report>>, deviceIndex: nat)
    ensures var obs := DeviceObservations(compute, graphics);
            var rows := Rows(obs, deviceIndex);
            && (forall i, j :: 0 <= i < j < |rows| ==> rows[i].pid != rows[j].pid)
            && (forall pid :: (exists k :: 0 <= k < |rows| && rows[k].pid == pid) <==> pid in Pids(obs))
            && (forall k :: 0 <= k < |rows| ==>
                  (rows[k].kind == Both <==> Names(compute, rows[k].pid) && Names(graphics, rows[k].pid)))
  {
    var obs := DeviceObservations(compute, graphics);
    var rows := Rows(obs, deviceIndex);
    var order := FirstSeen(Pids(obs));
    FirstSeenIsExact(Pids(obs));
    forall pid ensures (exists k :: 0 <= k < |rows| && rows[k].pid == pid) <==> pid in Pids(obs) {
      if pid in order {
        var k :| 0 <= k < |order| && order[k] == pid;
        assert rows[k].pid == pid;
      }
    }
    forall k | 0 <= k < |rows|
      ensures rows[k].kind == Both <==> Names(compute, rows[k].pid) && Names(graphics, rows[k].pid)
    {
      KindJoins(obs, rows[k].pid);
      NamesIsObserved(compute, graphics, rows[k].pid);
    }
  }

  predicate Names(list: Option<seq<Report>>, pid: nat) {
    exists i :: 0 <= i < |ListOf(list)| && ListOf(list)[i].pid == pid
  }

  lemma NamesIsObserved(compute: Option<seq<Report>>, graphics: Option<seq<Report>>, pid: nat)
    ensures var obs := DeviceObservations(compute, graphics);
            && (Names(compute, pid) <==> exists i :: 0 <= i < |obs| && obs[i].pid == pid && obs[i].kind == Compute)
            && (Names(graphics, pid) <==> exists i :: 0 <= i < |obs| && obs[i].pid == pid && obs[i].kind == Graphics)
  {
    var obs := DeviceObservations(compute, graphics);
    var n := |ListOf(compute)|;
    if Names(compute, pid) {
      var i :| 0 <= i < n && ListOf(compute)[i].pid == pid;
      assert obs[i] == Observation(pid, ListOf(compute)[i].memory, Compute);
    }
    if Names(graphics, pid) {
      var i :| 0 <= i < |ListOf(graphics)| && ListOf(graphics)[i].pid == pid;
      assert obs[n + i] == Observation(pid, ListOf(graphics)[i].memory, Graphics);
    }
  }

  // ------------------------------------------------------ NVIDIA device list

  /** What the driver says of one device, `None` when it cannot be read. */
  datatype Reading = Reading(device: Device, compute: Option<seq<Report>>, graphics: Option<seq<Report>>)

  function NvmlDevices(readings: seq<Option<Reading>>): seq<Device> {
    if readings == [] then []
    else
      var before := NvmlDevices(readings[..|readings| - 1]);
      match readings[|readings| - 1]
      case None => before
      case Some(r) => before + [r.device.(index := |before|, backend := Nvml, supportsProcessStats := true)]
  }

  function NvmlProcesses(readings: seq<Option<Reading>>): seq<GpuProcess> {
    if readings == [] then []
    else
      var before := NvmlProcesses(readings[..|readings| - 1]);
      match readings[|readings| - 1]
      case None => before
      case Some(r) =>
        before + Rows(DeviceObservations(r.compute, r.graphics), |NvmlDevices(readings[..|readings| - 1])|)
  }

  method CollectNvml(readings: seq<Option<Reading>>) returns (s: GpusSnapshot)
    ensures s == if NvmlDevices(readings) == []
                 then UNAVAILABLE.(detail := "NVML reported devices but none could be read")
                 else GpusSnapshot([Nvml], true, NvmlDevices(readings), NvmlProcesses(readings), "")
  {
    hide Rows;
    var devices: seq<Device> := [];
    var processes: seq<GpuProcess> := [];
    for i := 0 to |readings|
      invariant devices == NvmlDevices(readings[..i])
      invariant processes == NvmlProcesses(readings[..i])
    {
      assert readings[..i + 1][..i] == readings[..i];
      match readings[i] {
        case None =>
        case Some(reading) =>
          devices := devices + [reading.device.(index := |devices|, backend := Nvml, supportsProcessStats := true)];
          processes := CollectProcesses(reading.compute, reading.graphics, |devices| - 1, processes);
      }
    }
    assert readings[..|readings|] == readings;
    if devices == [] {
      return UNAVAILABLE.(detail := "NVML reported devices but none could be read");
    }
    s := GpusSnapshot([Nvml], true, devices, processes, "");
  }

  /**
    Unreadable devices are skipped, numbering stays dense, every process row points
    at a device, and there is no device only if none could be read.
  */
  lemma {:induction false} NvmlKeepsContract(readings: seq<Option<Reading>>)
    ensures var ds, ps := NvmlDevices(readings), NvmlProcesses(readings);
            && (forall k :: 0 <= k < |ds| ==> ds[k].index == k)
            && (forall k :: 0 <= k < |ps| ==> ps[k].deviceIndex < |ds|)
            && (ds == [] <==> forall i :: 0 <= i < |readings| ==> readings[i].None?)
  {
    hide Rows, DeviceObservations;
    if readings != [] {
      var n := |readings| - 1;
      NvmlKeepsContract(readings[..n]);
      assert forall i :: 0 <= i < n ==> readings[..n][i] == readings[i];
      NvmlTakesDevice(readings);
      if readings[n].Some? {
        NvmlTakesRows(readings);
        NvmlPointsHome(readings);
      }
    }
  }

  lemma NvmlPointsHome(readings: seq<Option<Reading>>)
    requires readings != [] && readings[|readings| - 1].Some?
    requires var front := readings[..|readings| - 1];
             forall k :: 0 <= k < |NvmlProcesses(front)| ==> NvmlProcesses(front)[k].deviceIndex < |NvmlDevices(front)|
    ensures forall k :: 0 <= k < |NvmlProcesses(readings)| ==>
                          NvmlProcesses(readings)[k].deviceIndex < |NvmlDevices(readings)|
  {
    hide NvmlProcesses, NvmlDevices, Rows, DeviceObservations;
    NvmlTakesDevice(readings);
    NvmlTakesRows(readings);
    var front := NvmlProcesses(readings[..|readings| - 1]);
    forall k | 0 <= k < |NvmlProcesses(readings)|
      ensures NvmlProcesses(readings)[k].deviceIndex < |NvmlDevices(readings)|
    {
      if k < |front| {
        assert NvmlProcesses(readings)[k] == front[k];
      }
    }
  }

  lemma NvmlTakesRows(readings: seq<Option<Reading>>)
    requires readings != [] && readings[|readings| - 1].Some?
    ensures var front, r := readings[..|readings| - 1], readings[|readings| - 1].value;
            var rows := Rows(DeviceObservations(r.compute, r.graphics), |NvmlDevices(front)|);
            && NvmlProcesses(readings) == NvmlProcesses(front) + rows
            && (forall k :: 0 <= k < |rows| ==> rows[k].deviceIndex == |NvmlDevices(front)|)
            && forall p :: p in NvmlProcesses(readings) <==> p in NvmlProcesses(front) || p in rows
  {
  }

  lemma NvmlTakesDevice(readings: seq<Option<Reading>>)
    requires readings != []
    ensures var n := |readings| - 1; var front := readings[..n]; var d := |NvmlDevices(front)|;
            if readings[n].None?
            then NvmlDevices(readings) == NvmlDevices(front) && NvmlProcesses(readings) == NvmlProcesses(front)
            else NvmlDevices(readings) ==
                 NvmlDevices(front) + [readings[n].value.device.(index := d, backend := Nvml, supportsProcessStats := true)]
  {
  }

  /** The device read at `i` carries exactly the process rows of its own two lists. */
  lemma {:induction false} NvmlRowsOfDevice(readings: seq<Option<Reading>>, i: nat)
    requires i < |readings| && readings[i].Some?
    ensures var d := |NvmlDevices(readings[..i])|;
            && d < |NvmlDevices(readings)|
            && NvmlDevices(readings)[d] == readings[i].value.device.(index := d, backend := Nvml, supportsProcessStats := true)
            && forall p :: p in NvmlProcesses(readings) && p.deviceIndex == d <==>
                           p in Rows(DeviceObservations(readings[i].value.compute, readings[i].value.graphics), d)
  {
    hide NvmlProcesses, NvmlDevices, Rows, DeviceObservations;
    var n := |readings| - 1;
    var d := |NvmlDevices(readings[..i])|;
    NvmlKeepsContract(readings[..n]);
    NvmlTakesDevice(readings);
    if readings[n].Some? {
      NvmlTakesRows(readings);
    }
    if i < n {
      NvmlRowsOfDevice(readings[..n], i);
      assert readings[..n][..i] == readings[..i];
    }
  }
}
