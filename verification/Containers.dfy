/** Container rows, and the per-container sparkline histories of the TUI. */
module Containers {
  import opened Basics
  import Network

  datatype Container = Container(
    id: string,
    idFull: string,
    name: string,
    image: string,
    cpuPct: real,
    memUsedBytes: nat,
    netRxBytes: nat,
    netTxBytes: nat,
    startedAtMs: nat)

  datatype ContainersSnapshot = ContainersSnapshot(daemonUp: bool, containers: seq<Container>)

  const CONTAINER_HISTORY_LEN: nat := 60

  /** CPU rings, last cumulative RX counters and RX-delta rings, by container id. */
  datatype History = History(cpu: map<string, seq<real>>, rxLast: map<string, nat>, rx: map<string, seq<nat>>)

  function Ring<T>(m: map<string, seq<T>>, id: string): seq<T> {
    if id in m then m[id] else []
  }

  function PushOne(h: History, c: Container): History {
    var delta := if c.id in h.rxLast then Network.SaturatingSub(c.netRxBytes, h.rxLast[c.id]) else 0;
    History(
      h.cpu[c.id := Network.Pushed(Ring(h.cpu, c.id), CONTAINER_HISTORY_LEN, c.cpuPct)],
      h.rxLast[c.id := c.netRxBytes],
      h.rx[c.id := Network.Pushed(Ring(h.rx, c.id), CONTAINER_HISTORY_LEN, delta)])
  }

  function PushMany(h: History, cs: seq<Container>): History {
    if cs == [] then h else PushOne(PushMany(h, cs[..|cs| - 1]), cs[|cs| - 1])
  }

  function Ids(cs: seq<Container>): set<string> {
    set c | c in cs :: c.id
  }

  function DropMissing<V>(m: map<string, V>, seen: set<string>): map<string, V> {
    map id | id in m && id in seen :: m[id]
  }

  function PushSnapshot(h: History, cs: seq<Container>): History {
    var pushed := PushMany(h, cs);
    var seen := Ids(cs);
    History(DropMissing(pushed.cpu, seen), DropMissing(pushed.rxLast, seen), DropMissing(pushed.rx, seen))
  }

  function PushSnapshots(snaps: seq<seq<Container>>): History {
    if snaps == [] then History(map[], map[], map[])
    else PushSnapshot(PushSnapshots(snaps[..|snaps| - 1]), snaps[|snaps| - 1])
  }

  // ------------------------------------------------------- what a ring should hold

  /** The records of `id` within one snapshot. */
  function RecordsOf(cs: seq<Container>, id: string): seq<Container> {
    if cs == [] then []
    else RecordsOf(cs[..|cs| - 1], id) + if cs[|cs| - 1].id == id then [cs[|cs| - 1]] else []
  }

  /** The records of `id` over the unbroken run of snapshots that ends now. */
  function Trace(snaps: seq<seq<Container>>, id: string): seq<Container> {
    if snaps == [] || RecordsOf(snaps[|snaps| - 1], id) == [] then []
    else Trace(snaps[..|snaps| - 1], id) + RecordsOf(snaps[|snaps| - 1], id)
  }

  function CpuOf(trace: seq<Container>): seq<real> {
    seq(|trace|, i requires 0 <= i < |trace| => trace[i].cpuPct)
  }

  function RxOf(trace: seq<Container>): seq<nat> {
    seq(|trace|, i requires 0 <= i < |trace| => trace[i].netRxBytes)
  }

  /** The first record of a container has no delta yet and counts zero. */
  function RxDeltas(trace: seq<Container>): seq<nat> {
    if trace == [] then [] else [0] + Network.Deltas(RxOf(trace))
  }

  /** The entry of `id` holds exactly the newest part of `trace`. */
  ghost predicate Holds(h: History, id: string, trace: seq<Container>) {
    if trace == [] then id !in h.cpu && id !in h.rxLast && id !in h.rx
    else
      && id in h.cpu && h.cpu[id] == LastN(CpuOf(trace), CONTAINER_HISTORY_LEN)
      && id in h.rxLast && h.rxLast[id] == trace[|trace| - 1].netRxBytes
      && id in h.rx && h.rx[id] == LastN(RxDeltas(trace), CONTAINER_HISTORY_LEN)
  }

  lemma PushedKeepsNewest<T>(s: seq<T>, x: T, n: nat)
    requires n > 0
    ensures Network.Pushed(LastN(s, n), n, x) == LastN(s + [x], n)
  {
  }

  lemma DeltasGrow(values: seq<nat>, v: nat)
    requires values != []
    ensures Network.Deltas(values + [v]) ==
            Network.Deltas(values) + [Network.SaturatingSub(v, values[|values| - 1])]
  {
    hide Network.SaturatingSub;
    var more := values + [v];
    assert forall i :: 0 <= i < |values| ==> more[i] == values[i];
  }

  lemma RxDeltasGrow(trace: seq<Container>, c: Container)
    ensures CpuOf(trace + [c]) == CpuOf(trace) + [c.cpuPct]
    ensures RxDeltas(trace + [c]) == RxDeltas(trace) +
              [if trace == [] then 0 else Network.SaturatingSub(c.netRxBytes, trace[|trace| - 1].netRxBytes)]
  {
    hide Network.SaturatingSub;
    assert RxOf(trace + [c]) == RxOf(trace) + [c.netRxBytes];
    if trace != [] {
      DeltasGrow(RxOf(trace), c.netRxBytes);
    }
  }

  lemma PushOneHolds(h: History, id: string, trace: seq<Container>, c: Container)
    requires Holds(h, id, trace)
    ensures Holds(PushOne(h, c), id, if c.id == id then trace + [c] else trace)
  {
    if c.id == id {
      RxDeltasGrow(trace, c);
      PushedKeepsNewest(CpuOf(trace), c.cpuPct, CONTAINER_HISTORY_LEN);
      var delta := if trace == [] then 0 else Network.SaturatingSub(c.netRxBytes, trace[|trace| - 1].netRxBytes);
      PushedKeepsNewest(RxDeltas(trace), delta, CONTAINER_HISTORY_LEN);
    }
  }

  lemma {:induction false} PushManyHolds(h: History, id: string, trace: seq<Container>, cs: seq<Container>)
    requires Holds(h, id, trace)
    ensures Holds(PushMany(h, cs), id, trace + RecordsOf(cs, id))
  {
    hide Holds, PushOne;
    if cs == [] {
      assert trace + [] == trace;
    } else {
      var n := |cs| - 1;
      PushManyHolds(h, id, trace, cs[..n]);
      PushOneHolds(PushMany(h, cs[..n]), id, trace + RecordsOf(cs[..n], id), cs[n]);
      if cs[n].id == id {
        assert trace + RecordsOf(cs[..n], id) + [cs[n]] == trace + RecordsOf(cs, id);
      } else {
        assert RecordsOf(cs, id) == RecordsOf(cs[..n], id);
      }
    }
  }

  lemma {:induction false} RecordsExistIff(cs: seq<Container>, id: string)
    ensures RecordsOf(cs, id) != [] <==> id in Ids(cs)
  {
    if cs != [] {
      RecordsExistIff(cs[..|cs| - 1], id);
      assert forall c :: c in cs <==> c in cs[..|cs| - 1] || c == cs[|cs| - 1];
    }
  }

  lemma DropKeepsSeen(h: History, id: string, trace: seq<Container>, seen: set<string>)
    requires Holds(h, id, trace)
    ensures Holds(
      History(DropMissing(h.cpu, seen), DropMissing(h.rxLast, seen), DropMissing(h.rx, seen)),
      id, if id in seen then trace else [])
  {
  }

  /**
    Over every run of snapshots: the rings of a container hold exactly the newest
    60 CPU figures and RX deltas of its unbroken presence, and a container that is
    not in the last snapshot has no entry at all.
  */
  lemma {:induction false} RingsFollowTheRun(snaps: seq<seq<Container>>, id: string)
    ensures Holds(PushSnapshots(snaps), id, Trace(snaps, id))
  {
    hide Holds, PushMany;
    if snaps == [] {
      assert Holds(PushSnapshots(snaps), id, []) by { NothingHeld(id); }
    } else {
      var n := |snaps| - 1;
      RingsFollowTheRun(snaps[..n], id);
      PushManyHolds(PushSnapshots(snaps[..n]), id, Trace(snaps[..n], id), snaps[n]);
      RecordsExistIff(snaps[n], id);
      DropKeepsSeen(
        PushMany(PushSnapshots(snaps[..n]), snaps[n]), id,
        Trace(snaps[..n], id) + RecordsOf(snaps[n], id), Ids(snaps[n]));
    }
  }

  lemma {:induction false} SoleRecord(cs: seq<Container>, k: nat)
    requires k < |cs| && forall j :: 0 <= j < |cs| && j != k ==> cs[j].id != cs[k].id
    ensures RecordsOf(cs, cs[k].id) == [cs[k]]
  {
    var n := |cs| - 1;
    if k < n {
      SoleRecord(cs[..n], k);
    } else {
      NoRecord(cs[..n], cs[k].id);
    }
  }

  lemma {:induction false} NoRecord(cs: seq<Container>, id: string)
    requires forall j :: 0 <= j < |cs| ==> cs[j].id != id
    ensures RecordsOf(cs, id) == []
  {
    if cs != [] {
      NoRecord(cs[..|cs| - 1], id);
    }
  }

  /**
    A container of the last snapshot adds one point to each of its rings: its CPU figure,
    and the bytes received since the snapshot before, zero if it was not there or its
    counter went back.
  */
  lemma NewestPoints(snaps: seq<seq<Container>>, k: nat)
    requires snaps != [] && k < |snaps[|snaps| - 1]|
    requires var cs := snaps[|snaps| - 1]; forall j :: 0 <= j < |cs| && j != k ==> cs[j].id != cs[k].id
    ensures var c := snaps[|snaps| - 1][k];
            var before, now := PushSnapshots(snaps[..|snaps| - 1]), PushSnapshots(snaps);
            && c.id in now.cpu && c.id in now.rx
            && |now.cpu[c.id]| == |now.rx[c.id]| == (if c.id in before.cpu then Min(60, |before.cpu[c.id]| + 1) else 1)
            && now.cpu[c.id][|now.cpu[c.id]| - 1] == c.cpuPct
            && now.rx[c.id][|now.rx[c.id]| - 1] ==
               if c.id in before.rxLast && before.rxLast[c.id] <= c.netRxBytes then c.netRxBytes - before.rxLast[c.id] else 0
  {
    hide PushSnapshots;
    var n := |snaps| - 1;
    var c := snaps[n][k];
    RingsFollowTheRun(snaps[..n], c.id);
    RingsFollowTheRun(snaps, c.id);
    SoleRecord(snaps[n], k);
    var trace := Trace(snaps[..n], c.id);
    assert Trace(snaps, c.id) == trace + [c];
    RxDeltasGrow(trace, c);
    assert |RxDeltas(trace)| == |trace|;
  }

  lemma NothingHeld(id: string)
    ensures Holds(History(map[], map[], map[]), id, [])
  {
  }

  /** The three maps share one key set, and the two rings of an id one length of at most 60. */
  lemma HistoryIsConsistent(snaps: seq<seq<Container>>)
    ensures var h := PushSnapshots(snaps);
            && h.cpu.Keys == h.rxLast.Keys == h.rx.Keys
            && h.cpu.Keys == (if snaps == [] then {} else Ids(snaps[|snaps| - 1]))
            && forall id :: id in h.cpu ==> |h.cpu[id]| == |h.rx[id]| <= CONTAINER_HISTORY_LEN
  {
    hide PushSnapshots;
    var h := PushSnapshots(snaps);
    forall id
      ensures id in h.cpu <==> snaps != [] && id in Ids(snaps[|snaps| - 1])
      ensures id in h.cpu <==> id in h.rxLast
      ensures id in h.cpu <==> id in h.rx
      ensures id in h.cpu ==> |h.cpu[id]| == |h.rx[id]| <= CONTAINER_HISTORY_LEN
    {
      RingsFollowTheRun(snaps, id);
      if snaps != [] {
        RecordsExistIff(snaps[|snaps| - 1], id);
      }
    }
  }

  lemma NoIds()
    ensures Ids([]) == {}
  {
  }

  lemma IdsGrow(cs: seq<Container>, i: nat)
    requires i < |cs|
    ensures Ids(cs[..i + 1]) == Ids(cs[..i]) + {cs[i].id}
  {
    assert cs[..i + 1] == cs[..i] + [cs[i]];
  }

  class ContainerHistory {
    var cpu: map<string, seq<real>>
    var rxLast: map<string, nat>
    var rx: map<string, seq<nat>>

    ghost function View(): History
      reads this
    {
      History(cpu, rxLast, rx)
    }

    constructor ()
      ensures View() == PushSnapshots([])
    {
      cpu, rxLast, rx := map[], map[], map[];
    }

    method PushOneContainer(c: Container)
      modifies this
      ensures View() == PushOne(old(View()), c)
    {
      var cpuRing := if c.id in cpu then cpu[c.id] else [];
      if |cpuRing| >= CONTAINER_HISTORY_LEN {
        cpuRing := cpuRing[1..];
      }
      cpu := cpu[c.id := cpuRing + [c.cpuPct]];

      var delta := 0;
      if c.id in rxLast {
        delta := Network.SaturatingSub(c.netRxBytes, rxLast[c.id]);
      }
      rxLast := rxLast[c.id := c.netRxBytes];

      var rxRing := if c.id in rx then rx[c.id] else [];
      if |rxRing| >= CONTAINER_HISTORY_LEN {
        rxRing := rxRing[1..];
      }
      rx := rx[c.id := rxRing + [delta]];
    }

    method RetainSeen(seen: set<string>)
      modifies this
      ensures cpu == DropMissing(old(cpu), seen)
      ensures rxLast == DropMissing(old(rxLast), seen)
      ensures rx == DropMissing(old(rx), seen)
    {
      cpu := DropMissing(cpu, seen);
      rx := DropMissing(rx, seen);
      rxLast := DropMissing(rxLast, seen);
    }

    method PushContainerHistory(cs: ContainersSnapshot)
      modifies this
      ensures View() == PushSnapshot(old(View()), cs.containers)
    {
      hide PushOne, DropMissing, Ids;
      var seen: set<string> := {};
      NoIds();
      for i := 0 to |cs.containers|
        invariant View() == PushMany(old(View()), cs.containers[..i])
        invariant seen == Ids(cs.containers[..i])
      {
        IdsGrow(cs.containers, i);
        seen := seen + {cs.containers[i].id};
        PushOneContainer(cs.containers[i]);
        assert cs.containers[..i + 1][..i] == cs.containers[..i];
      }
      assert cs.containers[..|cs.containers|] == cs.containers;
      RetainSeen(seen);
    }
  }
}
