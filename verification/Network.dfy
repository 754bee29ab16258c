/** The ring of network snapshots behind the bandwidth figures and sparklines. */
module Network {
  import opened Basics

  datatype Interface = Interface(name: string, bytesRx: nat, bytesTx: nat)

  datatype NetworkSnapshot = NetworkSnapshot(interfaces: seq<Interface>)

  datatype Sample = Sample(snapshot: NetworkSnapshot, timestamp: real)

  type Counter = Interface -> nat

  /** The counter of the first interface with that name, zero if there is none. */
  function ValueIn(interfaces: seq<Interface>, iface: string, extract: Counter): nat {
    if interfaces == [] then 0
    else if interfaces[0].name == iface then extract(interfaces[0])
    else ValueIn(interfaces[1..], iface, extract)
  }

  function Value(s: Sample, iface: string, extract: Counter): nat {
    ValueIn(s.snapshot.interfaces, iface, extract)
  }

  /** Zero for a name nobody has, and otherwise the counter of the interface that has it first. */
  lemma {:induction false} ValueOfTheFirstNamed(s: Sample, iface: string, extract: Counter, k: nat)
    ensures (forall i :: 0 <= i < |s.snapshot.interfaces| ==> s.snapshot.interfaces[i].name != iface) ==>
              Value(s, iface, extract) == 0
    ensures && k < |s.snapshot.interfaces| && s.snapshot.interfaces[k].name == iface
            && (forall i :: 0 <= i < k ==> s.snapshot.interfaces[i].name != iface) ==>
              Value(s, iface, extract) == extract(s.snapshot.interfaces[k])
    decreases |s.snapshot.interfaces|
  {
    var all_ := s.snapshot.interfaces;
    if all_ != [] && all_[0].name != iface {
      ValueOfTheFirstNamed(Sample(NetworkSnapshot(all_[1..]), s.timestamp), iface, extract, if k > 0 then k - 1 else 0);
    }
  }

  function Values(samples: seq<Sample>, iface: string, extract: Counter): seq<nat> {
    seq(|samples|, i requires 0 <= i < |samples| => Value(samples[i], iface, extract))
  }

  function SaturatingSub(a: nat, b: nat): nat {
    if a >= b then a - b else 0
  }

  /** Steps between consecutive counters, a reset counting as zero. */
  function Deltas(values: seq<nat>): seq<nat> {
    if |values| < 2 then []
    else seq(|values| - 1, i requires 0 <= i < |values| - 1 => SaturatingSub(values[i + 1], values[i]))
  }

  // --------------------------------------------------------------------- ring

  function Pushed<T>(ring: seq<T>, capacity: nat, x: T): seq<T> {
    (if |ring| >= capacity && ring != [] then ring[1..] else ring) + [x]
  }

  function PushAll<T>(capacity: nat, xs: seq<T>): seq<T> {
    if xs == [] then [] else Pushed(PushAll(capacity, xs[..|xs| - 1]), capacity, xs[|xs| - 1])
  }

  /** The ring holds exactly the newest `capacity` of everything ever pushed. */
  lemma {:induction false} RingKeepsTheNewest<T>(capacity: nat, xs: seq<T>)
    requires capacity > 0
    ensures PushAll(capacity, xs) == LastN(xs, capacity)
  {
    if xs != [] {
      RingKeepsTheNewest(capacity, xs[..|xs| - 1]);
    }
  }

  function Sparkline(samples: seq<Sample>, iface: string, points: nat, extract: Counter): seq<nat> {
    LastN(Deltas(Values(samples, iface, extract)), points)
  }

  /** Asking for more points only extends the line to the left. */
  lemma SparklineExtendsLeft(samples: seq<Sample>, iface: string, k: nat, m: nat, extract: Counter)
    requires k <= m
    ensures Sparkline(samples, iface, k, extract) == LastN(Sparkline(samples, iface, m, extract), k)
    ensures |Sparkline(samples, iface, k, extract)| ==
            Min(k, if samples == [] then 0 else |samples| - 1)
  {
  }

  /** What a ring shows is the end of the sparkline of the whole history. */
  lemma RingSparkline(capacity: nat, history: seq<Sample>, iface: string, points: nat, extract: Counter)
    requires capacity >= 2
    ensures Sparkline(PushAll(capacity, history), iface, points, extract) ==
            LastN(Deltas(Values(history, iface, extract)), Min(points, capacity - 1))
  {
    hide Deltas, PushAll, Value;
    RingKeepsTheNewest(capacity, history);
    var all_ := Values(history, iface, extract);
    assert Values(LastN(history, capacity), iface, extract) == LastN(all_, capacity);
    DeltasOfNewest(all_, capacity - 1);
    LastOfLast(Deltas(all_), capacity - 1, points);
  }

  /** A point is the rise of the counter over its interval, and a reset draws zero. */
  lemma PointIsTheRise(samples: seq<Sample>, iface: string, points: nat, extract: Counter, k: nat)
    requires k < |Sparkline(samples, iface, points, extract)|
    ensures var n := |Sparkline(samples, iface, points, extract)|;
            var i := |samples| - n + k;
            && 0 < i < |samples|
            && var before, after := Value(samples[i - 1], iface, extract), Value(samples[i], iface, extract);
               Sparkline(samples, iface, points, extract)[k] == if before <= after then after - before else 0
  {
    hide Value;
    var values := Values(samples, iface, extract);
    assert |Deltas(values)| == |values| - 1;
  }

  lemma DeltasOfNewest(values: seq<nat>, n: nat)
    requires n > 0
    ensures Deltas(LastN(values, n + 1)) == LastN(Deltas(values), n)
  {
    hide Deltas, SaturatingSub;
    DeltaCount(values);
    if |values| > n + 1 {
      var from := |values| - (n + 1);
      var window := values[from..];
      DeltaCount(window);
      forall i | 0 <= i < n ensures Deltas(window)[i] == Deltas(values)[from..][i] {
        DeltaAt(window, i);
        DeltaAt(values, from + i);
      }
      assert Deltas(window) == Deltas(values)[from..];
    }
  }

  lemma DeltaCount(values: seq<nat>)
    ensures |Deltas(values)| == if values == [] then 0 else |values| - 1
  {
  }

  lemma DeltaAt(values: seq<nat>, i: nat)
    requires i + 1 < |values|
    ensures i < |Deltas(values)| && Deltas(values)[i] == SaturatingSub(values[i + 1], values[i])
  {
  }

  lemma LastOfLast<T>(s: seq<T>, n: nat, m: nat)
    ensures LastN(LastN(s, n), m) == LastN(s, Min(m, n))
  {
  }

  ghost predicate NonDecreasing(values: seq<nat>) {
    forall i :: 0 <= i < |values| - 1 ==> values[i] <= values[i + 1]
  }

  lemma DeltasOfFront(values: seq<nat>)
    requires |values| >= 2
    ensures var n := |values| - 1;
            && Deltas(values) == Deltas(values[..n]) + [SaturatingSub(values[n], values[n - 1])]
            && (NonDecreasing(values) <==> NonDecreasing(values[..n]) && values[n - 1] <= values[n])
  {
    hide SaturatingSub;
    var n := |values| - 1;
    assert forall i :: 0 <= i < n ==> values[..n][i] == values[i];
    assert Deltas(values)[..n - 1] == Deltas(values[..n]);
    if NonDecreasing(values[..n]) && values[n - 1] <= values[n] {
      forall i | 0 <= i < n ensures values[i] <= values[i + 1] {
        assert i < n - 1 ==> values[..n][i] <= values[..n][i + 1];
      }
    }
  }

  lemma {:induction false} DeltasSum(values: seq<nat>)
    requires values != []
    ensures Sum(Deltas(values)) >= values[|values| - 1] as int - values[0] as int
    ensures Sum(Deltas(values)) == values[|values| - 1] as int - values[0] as int <==> NonDecreasing(values)
  {
    hide Deltas, NonDecreasing;
    var n := |values| - 1;
    if n == 0 {
      assert Deltas(values) == [] && NonDecreasing(values) by { SingleValue(values); }
    } else {
      var front, step := Deltas(values[..n]), SaturatingSub(values[n], values[n - 1]);
      DeltasSum(values[..n]);
      DeltasOfFront(values);
      assert (front + [step])[..|front|] == front;
    }
  }

  lemma SingleValue(values: seq<nat>)
    requires |values| == 1
    ensures Deltas(values) == [] && NonDecreasing(values)
  {
  }

  /** A sparkline adds up to newest minus oldest exactly when no counter reset lies in its window. */
  lemma SparklineTelescopes(samples: seq<Sample>, iface: string, points: nat, extract: Counter)
    requires |samples| >= 2 && points > 0
    ensures var window := LastN(Values(samples, iface, extract), Min(points, |samples| - 1) + 1);
            var rise := window[|window| - 1] as int - window[0] as int;
            Sum(Sparkline(samples, iface, points, extract)) == rise <==> NonDecreasing(window)
  {
    var values := Values(samples, iface, extract);
    var n := Min(points, |samples| - 1);
    DeltasOfNewest(values, n);
    DeltasSum(LastN(values, n + 1));
    assert LastN(Deltas(values), n) == LastN(Deltas(values), points);
  }

  lemma LastDelta(values: seq<nat>)
    requires |values| >= 2
    ensures LastN(Deltas(values), 1) == [SaturatingSub(values[|values| - 1], values[|values| - 2])]
  {
  }

  lemma LastPoint(samples: seq<Sample>, iface: string, extract: Counter)
    requires |samples| >= 2
    ensures Sparkline(samples, iface, 1, extract) ==
            [SaturatingSub(Value(samples[|samples| - 1], iface, extract), Value(samples[|samples| - 2], iface, extract))]
  {
    hide Deltas, SaturatingSub, Value, LastN;
    LastDelta(Values(samples, iface, extract));
  }

  /** `rate` per second over `elapsed` seconds makes `total`. */
  predicate IsRate(rate: real, elapsed: real, total: real) {
    rate * elapsed == total
  }

  lemma QuotientIsRate(total: real, elapsed: real)
    requires elapsed > 0.0
    ensures IsRate(total / elapsed, elapsed, total)
  {
  }

  class NetworkHistory {
    var samples: seq<Sample>
    const capacity: nat

    ghost predicate Valid()
      reads this
    {
      capacity >= 2 && |samples| <= capacity
    }

    constructor (capacity: nat)
      ensures Valid() && samples == [] && this.capacity == if capacity >= 2 then capacity else 2
    {
      this.capacity := if capacity >= 2 then capacity else 2;
      samples := [];
    }

    method Push(snapshot: NetworkSnapshot, now: real)
      requires Valid()
      modifies this
      ensures Valid() && samples == Pushed(old(samples), capacity, Sample(snapshot, now))
    {
      if |samples| >= capacity {
        samples := samples[1..];
      }
      samples := samples + [Sample(snapshot, now)];
    }

    method FindIfaceValue(snapshot: NetworkSnapshot, iface: string, extract: Counter) returns (v: nat)
      ensures v == ValueIn(snapshot.interfaces, iface, extract)
    {
      var interfaces := snapshot.interfaces;
      var i := 0;
      assert interfaces[0..] == interfaces;
      while i < |interfaces|
        invariant i <= |interfaces|
        invariant ValueIn(interfaces, iface, extract) == ValueIn(interfaces[i..], iface, extract)
      {
        assert interfaces[i..][1..] == interfaces[i + 1..];
        if interfaces[i].name == iface {
          return extract(interfaces[i]);
        }
        i := i + 1;
      }
      v := 0;
    }

    method SparklineOf(iface: string, points: nat, extract: Counter) returns (result: seq<nat>)
      requires Valid()
      ensures result == Sparkline(samples, iface, points, extract)
    {
      result := [];
      if |samples| < 2 || points == 0 {
        return;
      }
      var n := Min(points, |samples| - 1);
      var start := |samples| - n - 1;
      ghost var deltas := Deltas(Values(samples, iface, extract));
      for i := start to |samples| - 1
        invariant result == deltas[start..i]
      {
        var prev := FindIfaceValue(samples[i].snapshot, iface, extract);
        var curr := FindIfaceValue(samples[i + 1].snapshot, iface, extract);
        result := result + [SaturatingSub(curr, prev)];
      }
    }

    /** Bytes per second over the last interval: the last sparkline point over the time it took. */
    method Bandwidth(iface: string, extract: Counter) returns (rate: real)
      requires Valid()
      ensures |samples| < 2 ==> rate == 0.0
      ensures |samples| >= 2 ==>
                var elapsed := samples[|samples| - 1].timestamp - samples[|samples| - 2].timestamp;
                if elapsed > 0.0 then IsRate(rate, elapsed, Sparkline(samples, iface, 1, extract)[0] as real) else rate == 0.0
    {
      if |samples| < 2 {
        return 0.0;
      }
      LastPoint(samples, iface, extract);
      hide Sparkline, SaturatingSub, ValueIn, IsRate;
      var prev, curr := samples[|samples| - 2], samples[|samples| - 1];
      var prevVal := FindIfaceValue(prev.snapshot, iface, extract);
      var currVal := FindIfaceValue(curr.snapshot, iface, extract);
      var delta := SaturatingSub(currVal, prevVal) as real;
      var elapsed := curr.timestamp - prev.timestamp;
      if elapsed > 0.0 {
        rate := delta / elapsed;
        QuotientIsRate(delta, elapsed);
      } else {
        rate := 0.0;
      }
    }
  }
}
