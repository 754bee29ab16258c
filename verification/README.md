# muxtop: a verified model

muxtop is a system monitor that runs on its own or as a client of a server on
another machine. This project models the parts of it that keep promises over
whole runs and proves those promises.

- `RateLimit`: the token bucket per address of the accept loop, in a map that
  forgets addresses. A simulation relates it to a limiter that never forgets.
- `Process`, `Sorting`, `ProcessTree`: the process table, its filter, and the
  forest built by a depth-first walk over a shared `visited` array. `Family`
  says what that forest is from the records alone.
- `Framing`, `Wire`: the length-prefixed frames, the slice decoder, the
  incremental reader, and the tag dispatch of messages.
- `Pipeline`, `Session`: collector, relay, broadcast, sessions with their permits
  and handshake, and reconnecting clients as one step system; token comparison
  and reconnect delays. `Delivery` says what gets through, and for which named
  reasons a snapshot does not.
- `Gpu`, `Network`, `Kube`: the merge of GPU backends, the per-process join, the
  ring of network samples, and the cluster cache under a racing poll.
- `Containers`, `Projections`, `Views`: the histories and derived views of the
  terminal interface.
- `Transport`: the sessions of the pipeline over their bytes, cut anywhere.
- `Palette`, `Modality`, `Tabs`: what the command palette offers, which key goes
  where, and what may reach a process or a container.
- `Tui`: views and routing together over one run.
- `Basics`: options, results and sequence facts.

Code that updates state in place is a class or a method with loops, proved
against functions on values; the theorems are about those functions and about
runs of any length. `lower`, `score`, the keymap and the Kubernetes view function
are parameters of the model, as are clock readings and every result of foreign
I/O.

Where the code and its comments disagree the model follows the code:

- `kill <name>` is described as taking the busiest match. It takes the first one
  shown, which is the busiest exactly under the CPU sort, descending
  (`Modality.TakesTheBusiestIff`).
- The record of a GPU snapshot promises no backends when it is unavailable. The
  merge alone does not keep that: a child that is available without a device and
  names a backend breaks it (`Gpu.UnavailableWithBackends` says when,
  `Gpu.MergeCanNameBackendsUnavailable` shows one). No engine of this repository
  answers so, and with theirs it holds (`Gpu.EnginesKeepThePromise`); it takes a
  `GpuEngine` from outside.
- The rescope is said never to leave rows outside the scope on screen. A poll
  already under way can bring some back (`Kube.LatePollLeaksIff` says when,
  `Kube.RescopeUnderAPollLeaks` shows one).
- The reconnect delay is reset after the wait for the error that resets it, not
  before (`Session.ReconnectDelays`).

The container count that bounds the cursor looks past the state of the daemon. That
shows only on a snapshot decoded from a foreign server: the collector here publishes
no containers with a daemon that is down (`Projections.CountIsRowsIff`,
`Projections.CountIsRowsHere`).

## Model

| member | source | states |
|---|---|---|
| `RateLimit.RunSimulates` | crates/muxtop-server/src/rate_limit.rs:20-26 | Over every run with non-decreasing time the limiter that evicts full buckets gives each call it keeps (every call but those turned away at the ceiling) the answer of a limiter that never forgets an address, and every address it has dropped is full in that one |
| `RateLimit.SweepIsUnobservable` | crates/muxtop-server/src/rate_limit.rs:86-91 | Dropping the buckets that have refilled changes what no address could draw, at that moment or any later one |
| `RateLimit.StepOnLevels` | crates/muxtop-server/src/rate_limit.rs:139-194 | One call is admitted exactly with a whole token in hand and takes exactly one; it leaves every other address as it was, and a refusal at the ceiling leaves the caller as it was too |
| `RateLimit.LevelAges` | crates/muxtop-server/src/rate_limit.rs:65-71 | What an address could draw grows by the refill of the time passed, up to the burst, whether it is tracked or not |
| `RateLimit.LevelIsConserved` | crates/muxtop-server/src/rate_limit.rs:180-194 | Across sweeps and re-insertions, tokens left plus calls admitted never exceed tokens before plus what flowed in |
| `RateLimit.AdmissionsAreBounded` | crates/muxtop-server/src/rate_limit.rs:180-194 | From any reachable state an address is admitted at most burst plus refill times the length of the run |
| `RateLimit.WindowBound` | crates/muxtop-server/src/rate_limit.rs:180-194 | In any window of calls of any run an address is admitted at most burst plus refill times the length of the window |
| `RateLimit.IdleAddressHasAToken` | crates/muxtop-server/src/server.rs:71-75 | With a burst of at least one, an address whose calls are a token apart has a whole token whenever its next call comes |
| `RateLimit.IdleCallerIsServed` | crates/muxtop-server/src/rate_limit.rs:139-194 | Such an address is refused at the tracking ceiling or not at all |
| `RateLimit.ReachableInv` | crates/muxtop-server/src/rate_limit.rs:151-192 | In every reachable state at most `max_tracked` addresses are tracked, tokens lie between zero and the burst, and no stamp is in the future |
| `RateLimit.SweepsAreAmortised` | crates/muxtop-server/src/rate_limit.rs:47-51 | Sweeps number at most the time passed over the minimum gap |
| `RateLimit.SweepsAreSpaced` | crates/muxtop-server/src/rate_limit.rs:151-158 | Two sweeps are at least the minimum gap apart |
| `RateLimit.SurvivorsAreRecent` | crates/muxtop-server/src/rate_limit.rs:23-26 | An address that survives a sweep made a call less than burst over refill ago |
| `RateLimit.ServerLimits` | crates/muxtop-server/src/server.rs:71-75 | With the settings the server derives from a positive rate: at most 65536 addresses tracked, and per address at most the larger of one and the rate, plus rate times the run, admitted |
| `RateLimit.ServerServes` | crates/muxtop-server/src/server.rs:71-75 | With those settings an address that leaves 1/rate between its calls is admitted at each of them, unless 65536 other addresses called in the last burst over rate plus one seconds |
| `RateLimit.AdmittedIffAffordable` | crates/muxtop-server/src/rate_limit.rs:180-194 | The limiter is exact: short of the ceiling a call is admitted if and only if that keeps every window starting at a call of the address within burst plus refill times its length |
| `RateLimit.CeilingNeedsACrowd` | crates/muxtop-server/src/rate_limit.rs:160-176 | A call is refused at the ceiling only if `max_tracked` distinct other addresses called before it |
| `RateLimit.CeilingNeedsARecentCrowd` | crates/muxtop-server/src/rate_limit.rs:151-176 | With room for the sweep trigger, each of those called less than burst over refill plus the minimum sweep gap before |
| `RateLimit.MemoryIsRecent` | crates/muxtop-server/src/rate_limit.rs:151-158 | When an address calls for the first time, every address tracked afterwards called less than burst over refill plus 30 s before |
| `RateLimit.DisabledAdmitsAll` | crates/muxtop-server/src/rate_limit.rs:140-142 | With a refill of zero every call of every run is admitted and nothing is tracked |
| `RateLimit.CeilingIsFlagged` | crates/muxtop-server/src/rate_limit.rs:160-177 | The log flag is set by a refusal at the ceiling, cleared by the next newcomer let in, and otherwise left alone |
| `RateLimit.RateLimiter.constructor` | crates/muxtop-server/src/rate_limit.rs:104-124 | A new limiter tracks nothing |
| `RateLimit.RateLimiter.Sweep` | crates/muxtop-server/src/rate_limit.rs:86-91 | The map in place becomes the swept one |
| `RateLimit.RateLimiter.TryAdmit` | crates/muxtop-server/src/rate_limit.rs:139-194 | The map, the sweep time and the log flag in place become those of the step function, and the answer is its answer; what that function admits and refuses is `AdmittedIffAffordable` and `CeilingNeedsACrowd` |
| `Process.SortedIsSort` | crates/muxtop-core/src/process.rs:66-91 | Sorting and reversing gives the input rearranged in the direction asked for, with tied names and users in input order ascending and in reverse input order descending |
| `Process.SortProcesses` | crates/muxtop-core/src/process.rs:66-91 | The array in place becomes such a table; names and users keep or reverse their ties, and on CPU, memory and PID the order of ties is left open, as the unstable sort leaves it |
| `Process.ColumnsCompare` | crates/muxtop-core/src/process.rs:66-91 | In a sorted table any two rows stand in the order of the field of the column: CPU, memory, PID, lowered name or lowered user |
| `Process.StringLeqIsLexicographic` | crates/muxtop-core/src/process.rs:73-84 | Names compare by the first character in which they differ, a prefix first |
| `Sorting.SortKeepsTies` | crates/muxtop-core/src/process.rs:70-86 | A stable sort keeps ties in input order, and reversing its result afterwards reverses them |
| `Sorting.TiedRowsKeepTheirOrder` | crates/muxtop-core/src/process.rs:70-91 | Of two tied rows the upper one stands first in the input, or last if the rows were reversed |
| `Process.FastPathAgrees` | crates/muxtop-core/src/process.rs:93-117 | The allocation-free window comparison answers as lowering the haystack and searching does, on every haystack |
| `Process.FastPathNeedsLoweredNeedle` | crates/muxtop-core/src/process.rs:93-117 | It does so for all haystacks exactly if the needle was lowered first |
| `Process.FilterIsExact` | crates/muxtop-core/src/process.rs:119-131 | The filter keeps each process as often as it occurs if its name or command contains the lowered pattern, and drops it otherwise |
| `ProcessTree.EveryProcessOnce` | crates/muxtop-core/src/process.rs:160-247 | For every list, cycles, repeated PIDs and deep chains included, the flattened forest is a permutation of the input |
| `ProcessTree.PlacedOrderIsComplete` | crates/muxtop-core/src/process.rs:160-247 | The two passes place each input index exactly once |
| `ProcessTree.RowsFollowPlacedOrder` | crates/muxtop-core/src/process.rs:249-263 | Row k of the flattened forest is the process at the k-th index placed |
| `ProcessTree.ForestIsShaped` | crates/muxtop-core/src/process.rs:191-229 | Depths are path lengths of at most 256 and each child names its parent as its parent PID |
| `ProcessTree.FlattenIsInvertible` | crates/muxtop-core/src/process.rs:249-263 | The flattened rows with their depths determine the forest: rebuilding by depth gives it back |
| `ProcessTree.ForestIsIdeal` | crates/muxtop-core/src/process.rs:167-189 | With distinct PIDs the forest is the real one, parentless and orphan processes on top and every other under its parent, exactly if every process is within 256 parent links of a root |
| `Family.ForestIsTheFamilyTree` | crates/muxtop-core/src/process.rs:160-247 | From the record fields alone, with distinct PIDs: the top level is the processes whose parent PID is missing, zero or unlisted, in list order, and every node holds exactly the processes that name its PID, exactly if each process reaches such a top one within 256 parent links |
| `Family.ChildSitsUnderParent` | crates/muxtop-core/src/process.rs:167-229 | With distinct PIDs and everything within reach, a process whose parent PID is that of a listed process, not zero, sits directly among the children of its node |
| `ProcessTree.RootWalkReaches` | crates/muxtop-core/src/process.rs:231-235 | With distinct PIDs the walk from the roots places exactly the processes within reach of a root |
| `ProcessTree.IndexChildren` | crates/muxtop-core/src/process.rs:167-178 | The index lists under each PID its children in input order, and nothing else |
| `ProcessTree.FindRoots` | crates/muxtop-core/src/process.rs:180-189 | The roots are the processes without a listed parent, in input order |
| `ProcessTree.BuildSubtree` | crates/muxtop-core/src/process.rs:193-229 | The walk over the shared `visited` array builds the specified subtree and marks exactly what it places |
| `ProcessTree.BuildProcessTree` | crates/muxtop-core/src/process.rs:160-247 | The two loops build the specified forest |
| `ProcessTree.FlattenTree` | crates/muxtop-core/src/process.rs:251-263 | The walk that pushes to a buffer yields the depth-first rows |
| `Framing.DecodeInvertsEncode` | crates/muxtop-proto/src/frame.rs:29-83 | A frame within the size cap decodes from its encoding, whatever bytes follow |
| `Framing.EncodeInvertsDecode` | crates/muxtop-proto/src/frame.rs:47-83 | What decodes re-encodes to exactly the bytes consumed |
| `Framing.FrameLayout` | crates/muxtop-proto/src/frame.rs:29-42 | The bytes of a frame are one plus the payload length in four bytes, highest first, the type byte and the payload; there are none exactly if that length exceeds 4194304 |
| `Framing.DecodesIffStartsWithAFrame` | crates/muxtop-proto/src/frame.rs:47-83 | A buffer decodes exactly if it starts with the encoding of some frame |
| `Framing.ReaderAgreesWithDecoder` | crates/muxtop-proto/src/frame.rs:122-176 | The stream reader and the slice decoder accept the same frames and reject in the same places |
| `Framing.CapRejectsOnHeader` | crates/muxtop-proto/src/frame.rs:122-150 | A tighter payload cap turns away only larger frames, on the header alone |
| `Framing.StreamRoundTrips` | crates/muxtop-proto/src/frame.rs:101-120 | Frames written back to back are read back as the same list before whatever follows |
| `Framing.TruncationIsClean` | crates/muxtop-proto/src/frame.rs:122-176 | A stream cut anywhere yields exactly the whole frames before the cut, then end-of-stream for a cut inside a header and an error for a cut inside a body |
| `Framing.ByteStream.ReadExact` | crates/muxtop-proto/src/frame.rs:122-176 | Filling a buffer takes the next bytes however they are chunked |
| `Framing.FrameReader.ReadFrameWithMaxPayload` | crates/muxtop-proto/src/frame.rs:122-176 | The incremental reader returns what the specification reads from the bytes to come and leaves the rest |
| `Framing.FrameReader.ReadFrames` | crates/muxtop-proto/src/frame.rs:101-120 | Reading on yields the specified list of frames, through any chunking |
| `Framing.FrameWriter.WriteFrame` | crates/muxtop-proto/src/frame.rs:190-195 | A frame within the cap is appended in full, any other is refused and writes nothing |
| `Wire.MessageRoundTrips` | crates/muxtop-proto/src/wire.rs:121-193 | Every message comes back from its frame as itself, through the tag dispatch |
| `Wire.TagsOnTheWire` | crates/muxtop-proto/src/wire.rs:121-193 | Snapshot, heartbeat, error, hello and welcome carry the tags 1 to 5 in both directions, and a frame with any other tag is refused with that tag |
| `Wire.BorrowedSnapshotRoundTrips` | crates/muxtop-proto/src/wire.rs:107-118 | A snapshot encoded by reference decodes as the snapshot message |
| `Wire.MessagesSurviveTheStream` | crates/muxtop-proto/src/wire.rs:121-193 | Messages sent over a stream cut anywhere arrive as a prefix of those sent, unchanged |
| `Pipeline.ShownInProductionOrder` | crates/muxtop-core/src/collector.rs:257-266 | Whatever is dropped by full queues, the relay, a lagging receiver or a reconnect, the snapshots a client shows are produced ones in strictly increasing order of production |
| `Pipeline.RunIsOrdered` | crates/muxtop-server/src/server.rs:93-126 | In every reachable state all snapshots on their way to a client are in production order and behind what its connection has yet to draw |
| `Pipeline.PermitsAreConserved` | crates/muxtop-server/src/server.rs:134-198 | Free permits plus live sessions equal `max_clients` in every reachable state |
| `Pipeline.PermitsAreReleasedOnce` | crates/muxtop-server/src/server.rs:171-198 | Permits released plus live sessions equal the sessions ever admitted |
| `Pipeline.EndedStaysEnded` | crates/muxtop-server/src/client.rs:49-50 | A session that ended never lives again, so its permit is not released twice |
| `Pipeline.HandshakeComesFirst` | crates/muxtop-server/src/client.rs:53-112 | In every reachable state a session log holds no snapshot or heartbeat before Welcome, and Welcome only if the token given is the configured one |
| `Delivery.NothingIsLostSilently` | crates/muxtop-proto/src/remote.rs:199-221 | Over every run, a snapshot shown to a client or on its way to it stays so unless an event loses it: queue full, receiver lagged by more than 16, failed write, session closed, handshake refused, or connection dropped |
| `Delivery.BroadcastIsOwed` | crates/muxtop-server/src/server.rs:93-112 | A snapshot relayed is on its way to every client with a subscribed session |
| `Delivery.NothingIsWithheldSilently` | crates/muxtop-server/src/server.rs:93-112 | Every snapshot produced is broadcast or waiting, unless the collector queue was full, nobody was subscribed or it did not encode |
| `Delivery.EverythingArrives` | crates/muxtop-proto/src/remote.rs:199-221 | From any state in which a client streams without lag, showing, reading and drawing in turn makes it show exactly what was shown and on its way followed by every value broadcast since its cursor, in order |
| `Delivery.ConnectedIsBroughtUpToDate` | crates/muxtop-proto/src/remote.rs:199-221 | The same from every reachable state, for every client past its handshake on a streaming session that has not lagged |
| `Delivery.DialingIn` | crates/muxtop-server/src/client.rs:53-112 | With a free permit a client gets in exactly with the configured token, subscribed to the next broadcast; without it the permit is back and the client off line; either way it keeps what it has shown and queued |
| `Delivery.FreshIsShown` | crates/muxtop-core/src/collector.rs:257-266 | A snapshot produced for a client that has caught up is the next one it shows |
| `Transport.CutConnectionKeepsOrder` | crates/muxtop-server/src/client.rs:121-142 | Wherever the bytes of a client's connection are cut, what decodes is a prefix of what was written and continues the snapshots shown and queued in strictly increasing production order |
| `Transport.NothingIsStreamedUnauthorized` | crates/muxtop-server/src/client.rs:76-112 | Wherever a session's bytes are cut, a snapshot or heartbeat decodes only if the configured token was presented and a Welcome came first |
| `Session.ConstantTimeEq` | crates/muxtop-server/src/client.rs:170-180 | The accumulating comparison is true exactly on equal byte strings |
| `Session.ReconnectDelays` | crates/muxtop-proto/src/remote.rs:82-114 | The wait after each error is a second doubled for each earlier failure since a connection last ended with end-of-stream, up to 30 s; that reset takes effect only after the wait for the error that caused it |
| `Session.DelaysDouble` | crates/muxtop-proto/src/remote.rs:82-114 | The first wait is one second; each next is twice the one before, at most 30, or one second again after an end-of-stream |
| `Gpu.MergeSnapshots` | crates/muxtop-core/src/gpu_engine.rs:185-240 | The loop over the children yields the specified merge |
| `Gpu.MergedIsDense` | crates/muxtop-core/src/gpu_engine.rs:212-218 | Devices are numbered 0..n-1 if every child numbers its own that way |
| `Gpu.ChildLandsAt` | crates/muxtop-core/src/gpu_engine.rs:212-222 | A child's devices and processes land in one stretch each, shifted by the devices before them |
| `Gpu.MergeLosesNothing` | crates/muxtop-core/src/gpu_engine.rs:212-222 | Stated on the children as given: the merge lists every device and process of each available child behind those of the children before it, unchanged but for the device number, and nothing more |
| `Gpu.UnavailableSaysWhy` | crates/muxtop-core/src/gpu_engine.rs:189-237 | With no device the detail text holds every failure reported, or says that no GPU was detected if there was none |
| `Gpu.ProcessesKeepTheirDevice` | crates/muxtop-core/src/gpu_engine.rs:219-222 | After the merge a process still points at the record of its own child's device |
| `Gpu.FailuresAreInvisible` | crates/muxtop-core/src/gpu_engine.rs:189-210 | Devices, processes, backends and availability equal those of the merge with failed and unavailable children dropped first |
| `Gpu.MergeKeepsContract` | crates/muxtop-core/src/gpu_engine.rs:185-240 | Children that number densely and point home merge into a snapshot that does; backends are free of duplicates; available exactly if there is a device |
| `Basics.FirstSeenIsExact` | crates/muxtop-core/src/gpu_engine.rs:223-227 | Backends are those named, each once, in order of first appearance |
| `Gpu.UnavailableWithBackends` | crates/muxtop-core/src/gpu.rs:228-231 | An unavailable snapshot names backends, against what its record says, exactly if no usable child has a device and one names a backend |
| `Gpu.MergeCanNameBackendsUnavailable` | crates/muxtop-core/src/gpu_engine.rs:204-233 | An instance: one child that is available, has no device and names its backend, as an engine from outside might answer |
| `Gpu.EnginesKeepThePromise` | crates/muxtop-core/src/nvml_engine.rs:194-198 | Children that are available only with a device, as all engines here answer, merge into a snapshot that names no backend when unavailable |
| `Gpu.KindsFormALattice` | crates/muxtop-core/src/gpu.rs:114-122 | Merging kinds is associative, commutative and idempotent, with `Unknown` at the bottom and `Both` at the top |
| `Gpu.KindJoins` | crates/muxtop-core/src/nvml_engine.rs:249-256 | A row's kind is the join of all observations of its PID |
| `Gpu.MemoryIsTheFirstReported` | crates/muxtop-core/src/nvml_engine.rs:249-256 | A row's memory is the first figure any entry of its PID reports, and unknown exactly if none does |
| `Gpu.RowsAreOnePerProcess` | crates/muxtop-core/src/nvml_engine.rs:227-282 | One row per PID named in either list, and `Both` exactly for those in both |
| `Gpu.ProcessMerge.AbsorbOne` | crates/muxtop-core/src/nvml_engine.rs:237-263 | Absorbing an entry keeps first-seen order, the join of kinds and the first memory figure reported |
| `Gpu.CollectProcesses` | crates/muxtop-core/src/nvml_engine.rs:227-282 | Both lists are appended to the output as the specified rows |
| `Gpu.CollectNvml` | crates/muxtop-core/src/nvml_engine.rs:117-207 | The loop over devices yields the specified snapshot, unreadable devices skipped |
| `Gpu.NvmlKeepsContract` | crates/muxtop-core/src/nvml_engine.rs:153-191 | Devices stay densely numbered, every process row points at one, and there is none only if none could be read |
| `Gpu.NvmlRowsOfDevice` | crates/muxtop-core/src/nvml_engine.rs:153-191 | The rows that point at a device are exactly those of its own two lists |
| `Network.RingKeepsTheNewest` | crates/muxtop-core/src/network.rs:98-106 | After any pushes the ring holds exactly the newest `capacity` samples |
| `Network.SparklineExtendsLeft` | crates/muxtop-core/src/network.rs:170-193 | Asking for more points only adds points on the left |
| `Network.RingSparkline` | crates/muxtop-core/src/network.rs:170-193 | The line drawn from the ring is the end of the line of the whole history |
| `Network.SparklineTelescopes` | crates/muxtop-core/src/network.rs:170-193 | A line adds up to newest minus oldest exactly if no counter reset lies in its window |
| `Network.PointIsTheRise` | crates/muxtop-core/src/network.rs:170-193 | A point is the rise of the counter over its interval, and zero across a reset |
| `Network.ValueOfTheFirstNamed` | crates/muxtop-core/src/network.rs:141-151 | The counter read is that of the first interface with the name, zero if there is none |
| `Network.NetworkHistory.constructor` | crates/muxtop-core/src/network.rs:89-95 | Empty, with a capacity of at least two |
| `Network.NetworkHistory.Push` | crates/muxtop-core/src/network.rs:98-106 | The newest sample goes in and the oldest out when full |
| `Network.NetworkHistory.SparklineOf` | crates/muxtop-core/src/network.rs:170-193 | The loop computes the specified deltas, missing interfaces counting zero |
| `Network.NetworkHistory.Bandwidth` | crates/muxtop-core/src/network.rs:153-168 | The rate times the interval is the last sparkline point; zero without two samples or time between them |
| `Kube.RowsPostdateRescope` | crates/muxtop-core/src/kube_engine.rs:197-202 | Every pod or deployment row reported was written by a poll that completed after the caches were last cleared, and lies in the scope if that poll began after it was written |
| `Kube.RunKeepsInv` | crates/muxtop-core/src/kube_engine.rs:810-835 | In every reachable state each row carries the stamp of the poll that listed it and the scope that poll used |
| `Kube.CacheShowsTheLastListing` | crates/muxtop-core/src/kube_engine.rs:861-894 | What a finishing poll lists is what is reported, kind by kind, until a later poll lists that kind again or, for pods and deployments, a rescope clears it |
| `Kube.PollAsksForTheScope` | crates/muxtop-core/src/kube_engine.rs:810-835 | A poll asks for the scope in force when it begins and stays under way until it finishes |
| `Kube.ScopeIsTheLastWritten` | crates/muxtop-core/src/kube_engine.rs:197-202 | A scope stays in force until another is written |
| `Kube.ClearedUntilListed` | crates/muxtop-core/src/kube_engine.rs:197-202 | After a rescope there is no pod and no deployment row until a poll lists some |
| `Kube.RescopeKeepsNodes` | crates/muxtop-core/src/kube_engine.rs:197-202 | No rescope drops or changes a node row: only a poll that lists nodes does |
| `Kube.LatePollLeaksIff` | crates/muxtop-core/src/kube_engine.rs:193-202 | Right after a rescope a finishing poll can still show a row outside the scope exactly if one was under way over a scope that the new one does not cover |
| `Kube.RescopeUnderAPollLeaks` | crates/muxtop-core/src/kube_engine.rs:810-835 | An instance: a poll begun cluster-wide, then a rescope to any namespace |
| `Kube.PodsPerNode` | crates/muxtop-core/src/kube_engine.rs:559-568 | Each node is counted its scheduled pods that have not finished |
| `Kube.OccupantsAreUnfinished` | crates/muxtop-core/src/kube_engine.rs:559-568 | The pods counted are those scheduled on the node, by a name that is not empty, whose phase is neither succeeded nor failed |
| `Kube.JoinPodCounts` | crates/muxtop-core/src/kube_engine.rs:301-307 | The join changes nothing of a node but its pod count, zero when it has none |
| `Containers.RingsFollowTheRun` | crates/muxtop-tui/src/app.rs:1535-1577 | Over every run the rings of a container hold the newest 60 CPU figures and RX deltas of its unbroken presence, and one not in the last snapshot has no entry |
| `Containers.NewestPoints` | crates/muxtop-tui/src/app.rs:1535-1577 | Each snapshot adds to the rings of a container its CPU figure and the bytes received since the snapshot before, zero if it is new or its counter went back |
| `Containers.HistoryIsConsistent` | crates/muxtop-tui/src/app.rs:1535-1577 | The three maps share one key set, the ids of the last list pushed, and the two rings of an id one length of at most 60 |
| `Containers.ContainerHistory.PushContainerHistory` | crates/muxtop-tui/src/app.rs:1535-1577 | The maps in place become those of the specified push |
| `Projections.TablesShowExactlyTheMatches` | crates/muxtop-tui/src/app.rs:1626-1647 | Table and tree show every matching process as often as listed and no other; the table is in the order asked for |
| `Projections.TreeHasTheTablesRows` | crates/muxtop-tui/src/app.rs:1120-1126 | Both presentations have the same number of rows, all from the snapshot |
| `Projections.ContainerRowsAreOrderedMatches` | crates/muxtop-tui/src/app.rs:1381-1414 | The container table runs in the direction asked for on every column, whichever way that column is first sorted, and holds, while the daemon is up, exactly the containers whose lowered name, image or identifier contains the lowered filter |
| `Projections.ContainerRowsByField` | crates/muxtop-tui/src/app.rs:1390-1414 | Any two rows stand in the order of the field of the column: name, CPU, memory, bytes received, bytes sent or start time |
| `Projections.ContainerTiesFollowTheSnapshot` | crates/muxtop-tui/src/app.rs:1390-1414 | Tied containers keep the snapshot's order under the column's first direction and its reverse under the other |
| `Projections.CountIsRowsIff` | crates/muxtop-tui/src/app.rs:1596-1616 | The count that bounds the cursor is the number of rows shown exactly if the daemon is up or nothing matches |
| `Projections.CountIsRowsHere` | crates/muxtop-core/src/collector.rs:366-399 | With an empty list whenever the daemon is down, as the collector publishes it, the count is the number of rows |
| `Projections.ForeignSnapshotSetsThemApart` | crates/muxtop-tui/src/app.rs:1596-1616 | An instance that only a foreign server could send: one container with the daemon down is counted and not shown |
| `Views.AppViews.constructor` | crates/muxtop-tui/src/app.rs:960-1042 | A new state shows nothing and satisfies the invariant |
| `Views.AppViews.RecomputeVisible` | crates/muxtop-tui/src/app.rs:1619-1655 | Table, tree and cursor become those of the current snapshot, filter and sort, and that filter is the one in force |
| `Views.AppViews.RecomputeVisibleDebounced` | crates/muxtop-tui/src/app.rs:1660-1669 | Nothing is recomputed within 50 ms of the previous keystroke, everything otherwise |
| `Views.AppViews.RecomputeContainersView` | crates/muxtop-tui/src/app.rs:1367-1415 | The cache is the filter and sort projection of the snapshot |
| `Views.AppViews.RecomputeKubeView` | crates/muxtop-tui/src/app.rs:1185-1197 | The cache is the view function of the snapshot and settings, empty without a snapshot |
| `Views.AppViews.ApplySnapshot` | crates/muxtop-tui/src/app.rs:1508-1526 | Ignored while paused; otherwise the snapshot becomes the last one, both histories and all views follow, the current filter is in force and the cursor stays on a row |
| `Views.AppViews.SwitchKubeSubview` | crates/muxtop-tui/src/app.rs:1248-1258 | Sort, filter and cursor start afresh and the cache follows |
| `Views.AppViews.SelectedProcess` | crates/muxtop-tui/src/app.rs:1261-1267 | There is a selected process whenever a row is shown, and it is one of the snapshot |
| `Views.AppViews.SelectedContainer` | crates/muxtop-tui/src/app.rs:1329-1341 | The container at the cursor of the rows shown, if the cursor is on one |
| `Views.AppViews.MoveSelection` | crates/muxtop-tui/src/app.rs:1878-1886 | The cursor of the active tab moves within its rows and no other cursor moves |
| `Views.AppViews.ScrollRows` | crates/muxtop-tui/src/app.rs:2741-2751 | The window of the active tab moves within its rows and pulls the cursor into it; no other window or cursor moves |
| `Views.AppViews.ChangeFilter` | crates/muxtop-tui/src/app.rs:1965-1997 | The filter of the active tab becomes the text given, its cursor is kept on a row, its window returns to the top, and the process filter is in force at once or debounced; nothing on the other tabs changes |
| `Views.AppViews.FilterNow` | crates/muxtop-tui/src/app.rs:1965-1974 | Clearing, replacing or confirming the process filter puts it in force |
| `Views.AppViews.FilterTyped` | crates/muxtop-tui/src/app.rs:1977-1997 | A keystroke puts the new process filter in force unless it follows another within 50 ms |
| `Views.AppViews.CycleSort` | crates/muxtop-tui/src/app.rs:2033-2057 | Of all settings only the sort field of the active tab advances, its table follows, and cursors stay on rows |
| `Views.AppViews.ReverseSort` | crates/muxtop-tui/src/app.rs:2059-2080 | Of all settings only the direction of the active tab flips, its table follows, and cursors stay on rows |
| `Views.AppViews.Handle` | crates/muxtop-tui/src/app.rs:1681-1822 | Every event keeps all views and the process cursor consistent, sets exactly the tab, pause and settings it is about, and moves the cursor of the active tab as it says, within its rows |
| `Views.SettingsFollowEvents` | crates/muxtop-tui/src/app.rs:1725-1822 | Setting by setting: which event on which tab changes it, and to what; every other event leaves it alone |
| `Views.EditsMean` | crates/muxtop-tui/src/app.rs:2003-2031 | Typing appends one character while the text is under 256 bytes, erasing takes it back, clearing empties and replacing replaces |
| `Views.SortsGoRound` | crates/muxtop-tui/src/app.rs:2755-2850 | Cycling visits the columns of each table in the order of the source and starts over |
| `Views.AppViews.RunAll` | crates/muxtop-tui/src/app.rs:1508-1526 | Over every run all views stay consistent and the snapshots applied are exactly those that arrived unpaused |
| `Palette.OffersAreExact` | crates/muxtop-tui/src/app.rs:526-619 | A query that spells an allowed verb offers it alone; otherwise every allowed command without an argument is offered as often as registered if the query is empty or scores it, and nothing else is |
| `Palette.ExcludedIsNeverOffered` | crates/muxtop-tui/src/app.rs:526-619 | No query offers an excluded command |
| `Palette.LastRunComesFirst` | crates/muxtop-tui/src/app.rs:492-503 | On an empty query the command run last is offered first, exactly if it may be offered there at all |
| `Palette.EmptyQueryOrder` | crates/muxtop-tui/src/app.rs:540-570 | On an empty query offers run by how recently they were run, then commands of the tab in front, then those of no tab, then the rest |
| `Palette.OffersAreRanked` | crates/muxtop-tui/src/app.rs:571-609 | On a query that is no verb form offers run from the highest score down; a score is the matcher's plus 24 for a command of the tab in front and 8 for one of no tab, at most 65535 |
| `Palette.EqualScoresKeepTheirOrder` | crates/muxtop-tui/src/app.rs:607-609 | Offers of equal score stay in the order in which they are registered |
| `Palette.VerbFormsAreRead` | crates/muxtop-tui/src/app.rs:506-514 | The text before the first whitespace, lowered, selects one of seven verbs, with the rest trimmed as argument; any other word is no verb |
| `Palette.RecencyIsPosition` | crates/muxtop-tui/src/app.rs:550-556 | Recency is the place among the recent commands, five for one not among them |
| `Palette.PaletteState.Remember` | crates/muxtop-tui/src/app.rs:493-497 | The command moves to the front of at most five, each kept once |
| `Palette.PaletteState.Refilter` | crates/muxtop-tui/src/app.rs:526-619 | The offers and the argument become those of the listing function, whose contents and order the rows above state, and the cursor is on an offer |
| `Modality.EachExecutionHasItsDialog` | crates/muxtop-tui/src/app.rs:2298-2311 | Every action executed answers an earlier dialog of its own with that dialog's action |
| `Modality.TakesTheBusiestIff` | crates/muxtop-tui/src/app.rs:2463-2467 | `kill <name>` takes the busiest match on every list exactly under the CPU sort, descending |
| `Modality.App.constructor` | crates/muxtop-tui/src/app.rs:960-1042 | A new session satisfies the invariant with nothing raised or executed |
| `Modality.App.Raise` | crates/muxtop-tui/src/app.rs:2267-2291 | A dialog is raised only when none stands, aimed at the row selected or named at that moment |
| `Modality.App.HandleConfirmKey` | crates/muxtop-tui/src/app.rs:2298-2311 | Yes takes the standing dialog down and carries out its action once, no drops it, any other key changes nothing |
| `Modality.App.Execute` | crates/muxtop-tui/src/app.rs:2314-2343 | The action given is carried out as captured, or not at all without a container engine |
| `Modality.App.RequestContainer` | crates/muxtop-tui/src/app.rs:1417-1430 | A container dialog carries the full identifier of the selected row and is never raised remotely |
| `Modality.App.KillByName` | crates/muxtop-tui/src/app.rs:2467-2496 | The one dialog raised terminates the first visible process whose lowered name or command contains the lowered needle; none is raised exactly if no process does; the mode is not looked at |
| `Modality.App.ContainerByName` | crates/muxtop-tui/src/app.rs:2499-2523 | The one dialog raised is for the first visible container whose lowered name or image contains the lowered needle or whose lowered identifier begins with it; none is raised exactly if there is no such container or the session is remote |
| `Modality.App.GoToTab` | crates/muxtop-tui/src/app.rs:1833-1845 | Changing tab ends filter typing everywhere but on the GPU tab |
| `Modality.App.OpenText` | crates/muxtop-tui/src/app.rs:2377-2400 | Opening the palette or the command line offers what an empty query offers in this mode |
| `Modality.App.Dispatch` | crates/muxtop-tui/src/app.rs:1725-1822 | An action raises exactly the dialog it asks for, for the row selected and never remotely, and changes tab, overlay, pause and typing exactly as the action says |
| `Modality.App.LocalActionsAsk` | crates/muxtop-tui/src/app.rs:1797-1815 | In a local session with a row selected, kill, renice, stop, kill and restart of a container each raise the dialog with the identifier and name of that row |
| `Modality.App.RowCommandsAsk` | crates/muxtop-tui/src/app.rs:2641-2660 | A command for the selected row raises what the key it stands for raises |
| `Modality.OverlayActionsMean` | crates/muxtop-tui/src/app.rs:1725-1822 | Which overlay each opening action opens and when it opens none, and that going back closes it |
| `Modality.OtherActionsMean` | crates/muxtop-tui/src/app.rs:1725-1845 | What quitting, pausing, refreshing, changing tab or sub-view, filtering and going back do to the session |
| `Modality.TabCommandsMean` | crates/muxtop-tui/src/app.rs:2610-2680 | Which tab each tab command leads to, the scope toggle staying put in a remote session |
| `Modality.ModeCommandsMean` | crates/muxtop-tui/src/app.rs:2610-2680 | What the commands that quit, filter, pause, refresh or open an overlay do |
| `Modality.TabsGoRound` | crates/muxtop-tui/src/app.rs:2639-2640 | The next tab is another one, and the previous one of it is where it came from |
| `Modality.OverlayKeysMean` | crates/muxtop-tui/src/app.rs:2204-2260 | How the keys of an open overlay leave it or move it, by a row, a page of 20 or to the top |
| `Modality.NamedTabsMean` | crates/muxtop-tui/src/app.rs:2593-2606 | `tab <name>` finds a tab whose lowered label begins with the lowered name, whenever there is one |
| `Modality.App.ExecuteInvocation` | crates/muxtop-tui/src/app.rs:2443-2461 | A command asks for exactly the dialog it names, and a blocked one is refused remotely, `kill` with a name excepted |
| `Modality.App.OnlyKillByNameAsksRemotely` | crates/muxtop-tui/src/app.rs:2467-2496 | Run in a remote session, a command raises a dialog exactly if it is `kill` with a name that matches: only the palette keeps that one out |
| `Modality.App.TakeOffer` | crates/muxtop-tui/src/app.rs:2413-2419 | What the palette offers a remote session is never a blocked command |
| `Modality.App.HandlePaletteKey` | crates/muxtop-tui/src/app.rs:2402-2440 | Only Enter on an offer does anything outside the palette, and it asks for the dialog of that offer |
| `Modality.App.HandleActionsKey` | crates/muxtop-tui/src/app.rs:2240-2260 | Only Enter on an entry of the menu runs it |
| `Modality.App.HandleViewKey` | crates/muxtop-tui/src/app.rs:1699-1718 | Keys go to the overlay, then to the filter, then to the keymap; with neither in the way a bound key raises exactly the dialog of its action and has exactly its effect on tab, overlay, pause, typing and scope, and an unbound one does nothing |
| `Modality.App.HandleKey` | crates/muxtop-tui/src/app.rs:1681-1719 | Only yes against a standing dialog executes, once and as captured, and no or Esc drops it; while one stands a key can only answer it; with no dialog, overlay or typing a bound key does exactly what its action says and an unbound one nothing; Ctrl+C quits from everywhere and does nothing else |
| `Modality.App.HandleMouse` | crates/muxtop-tui/src/app.rs:2715-2734 | The wheel scrolls an open overlay by three lines, not above its top, and touches no dialog |
| `Modality.App.RunAll` | crates/muxtop-tui/src/app.rs:526-540 | Over every run executions only grow, by at most one for each yes pressed, and a remote session raises, executes and rescopes nothing |
| `Tui.Terminal.constructor` | crates/muxtop-tui/src/app.rs:960-1042 | Views and routing start in agreement |
| `Tui.Terminal.CurrentScene` | crates/muxtop-tui/src/app.rs:1261-1341 | What the routing is shown is the rows and the cursors of the views, all drawn from the last snapshot |
| `Tui.Terminal.PressKey` | crates/muxtop-tui/src/app.rs:1681-1719 | A dialog that a key raises is aimed at the row under the cursor of the tables as they stand, or at a row they show |
| `Tui.Terminal.ChangeViews` | crates/muxtop-tui/src/app.rs:1508-1526 | A view event keeps the agreement, forgets no snapshot that was on display and touches nothing of the routing |
| `Tui.Terminal.Run` | crates/muxtop-tui/src/app.rs:2298-2311 | Over every run of keys, wheel turns, snapshots and view changes, each dialog raised and so each action executed names, by identifier and name, a process or container of a snapshot that was on display |

## Left out

- Rounding and NaN: `f32` and `f64` are `real`, so NaN CPU figures, under which the sort has no order, do not occur.
- Concurrent callers of the rate limiter: the clock is read before the lock, so the model takes the single accept loop as its caller, with non-decreasing time.
- RateLimit.RunSimulates: the comparison leaves out the calls refused at the tracking ceiling, because those are the ones a limiter without a ceiling would answer differently.
- Framing.FrameWriter.WriteFrame: does not model a write that fails half way through a frame.
- Pipeline: the server tasks, the relay and the clients are steps on one value, not classes; timeouts, TLS and socket errors are arbitrary outcomes of a step.
- Session.ConstantTimeEq: the timing that the name is about is not modelled; only the answer is.
- The collector's slots for container, cluster and GPU results, and how they are seeded.
- Kube: cache and scope are fields of one value that the steps replace; metrics polling, labels, object conversion and quantity parsing are not modelled, nor is the scope label read by `snapshot`.
- Lowercasing outside ASCII is any function that lowers ASCII letters on ASCII strings.
- bincode payloads: one encoder and decoder per type, with the decoder undoing the encoder.
- Overflow of `u32` device indices and of `u64` byte counters.
- Cursor bounds on the Network, Containers, Kubernetes and GPU tabs after a shrinking snapshot, which the code does not keep; the cursors of the Network and GPU tabs are not modelled at all.
- Views.AppViews.ChangeFilter: the filters of the Network and GPU tabs are not modelled, because nothing is cached from them.
- Views.AppViews.CycleSort: the sort fields of the Network and GPU tabs are not modelled, for the same reason.
- Views.AppViews.ReverseSort: nor are their directions.
- Tui.Terminal.Run: what a key does to filter text, cursors and sorting is any of the view events rather than the one bound to it.
- The GPU view's projection and the name of its selected row.
- Views.AppViews.RecomputeKubeView: takes the function that computes the view's indices as an arbitrary parameter.
- Modality.App.Execute: what the operating system or the container engine does with an action, and its cancellation on quit, are not modelled.
- Modality: sort, sub-view and cursor commands are told apart by a number and change no modal state; toasts, themes and the clipboard are left out.
- Docker CPU deltas, resolution of GPU process names, total GPU memory, drawing, command-line parsing and logging.
