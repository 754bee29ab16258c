/**
  Per-address token-bucket limiter of the accept loop, with its bounded map.

  `f32` is modelled by `real`, and the clock reading that `try_admit` takes for
  itself is the parameter `now`. `Step` is the specification of one call; the
  class `RateLimiter` is the limiter that updates its map in place.
*/
module RateLimit {

  datatype IpAddr = V4(bits: nat) | V6(bits: nat)

  const SWEEP_SIZE_TRIGGER: nat := 1024
  const SWEEP_INTERVAL: real := 30.0
  const MIN_SWEEP_GAP: real := 1.0
  const MAX_TRACKED_IPS: nat := 65536

  datatype Config = Config(refill: real, burst: real, maxTracked: nat)

  datatype Bucket = Bucket(lastRefill: real, tokens: real)

  datatype State = State(buckets: map<IpAddr, Bucket>, lastSweep: real, ceilingLogged: bool)

  /** The two ways to be refused are told apart here; the caller sees only `Admitted?`. */
  datatype Answer = Admitted | Drained | AtCeiling

  datatype Call = Call(ip: IpAddr, now: real)

  // ---------------------------------------------------------------- one call

  /** `Instant::duration_since` saturates at zero. */
  function Elapsed(now: real, earlier: real): real {
    if now >= earlier then now - earlier else 0.0
  }

  function Min(x: real, y: real): real {
    if x <= y then x else y
  }

  /** Tokens that flow into one bucket in `duration`. */
  function Inflow(cfg: Config, duration: real): real {
    duration * cfg.refill
  }

  function RefilledAt(cfg: Config, b: Bucket, now: real): real {
    Min(b.tokens + Inflow(cfg, Elapsed(now, b.lastRefill)), cfg.burst)
  }

  function Swept(cfg: Config, s: State, now: real): State {
    s.(buckets := map a | a in s.buckets && RefilledAt(cfg, s.buckets[a], now) < cfg.burst :: s.buckets[a],
       lastSweep := now)
  }

  predicate SweepDue(s: State, ip: IpAddr, now: real) {
    && ip !in s.buckets
    && Elapsed(now, s.lastSweep) >= MIN_SWEEP_GAP
    && (|s.buckets| >= SWEEP_SIZE_TRIGGER || Elapsed(now, s.lastSweep) >= SWEEP_INTERVAL)
  }

  /** The bucket of an address that gets past the bounding work, debited if it can be. */
  function Debited(cfg: Config, b: Bucket, now: real): (Bucket, Answer) {
    var tokens := RefilledAt(cfg, b, now);
    if tokens >= 1.0 then (Bucket(now, tokens - 1.0), Admitted) else (Bucket(now, tokens), Drained)
  }

  function FreshBucket(cfg: Config, now: real): Bucket {
    Bucket(now, cfg.burst)
  }

  /** A call once the sweeping is done. */
  function Charged(cfg: Config, s: State, call: Call): (State, Answer) {
    var Call(ip, now) := call;
    if ip in s.buckets then
      var (b, answer) := Debited(cfg, s.buckets[ip], now);
      (s.(buckets := s.buckets[ip := b]), answer)
    else if |s.buckets| >= cfg.maxTracked then
      (s.(ceilingLogged := true), AtCeiling)
    else
      var (b, answer) := Debited(cfg, FreshBucket(cfg, now), now);
      (s.(buckets := s.buckets[ip := b], ceilingLogged := false), answer)
  }

  function Step(cfg: Config, s: State, call: Call): (State, Answer) {
    if cfg.refill == 0.0 then (s, Admitted)
    else Charged(cfg, if SweepDue(s, call.ip, call.now) then Swept(cfg, s, call.now) else s, call)
  }

  function Init(t0: real): State {
    State(map[], t0, false)
  }

  // -------------------------------------------------------------------- runs

  /** Calls in the order of the single accept loop, none before the limiter existed. */
  ghost predicate Chronological(t0: real, calls: seq<Call>) {
    && (forall i :: 0 <= i < |calls| ==> t0 <= calls[i].now)
    && (forall i, j :: 0 <= i < j < |calls| ==> calls[i].now <= calls[j].now)
  }

  function Run(cfg: Config, s: State, calls: seq<Call>): State {
    if calls == [] then s
    else Step(cfg, Run(cfg, s, calls[..|calls| - 1]), calls[|calls| - 1]).0
  }

  function AnswerAt(cfg: Config, s: State, calls: seq<Call>, i: nat): Answer
    requires i < |calls|
  {
    Step(cfg, Run(cfg, s, calls[..i]), calls[i]).1
  }

  /** Time of the last event of a run that started at `t0`. */
  function End(t0: real, calls: seq<Call>): real {
    if calls == [] then t0 else calls[|calls| - 1].now
  }

  ghost predicate Valid(cfg: Config) {
    cfg.refill >= 0.0 && cfg.burst >= 1.0
  }

  /** What holds of every reachable state at time `t`. */
  ghost predicate Inv(cfg: Config, s: State, t: real) {
    && s.lastSweep <= t
    && |s.buckets| <= cfg.maxTracked
    && (forall a :: a in s.buckets ==> s.buckets[a].lastRefill <= t && 0.0 <= s.buckets[a].tokens <= cfg.burst)
  }

  lemma SweptIsSmaller(cfg: Config, s: State, now: real)
    ensures |Swept(cfg, s, now).buckets| <= |s.buckets|
  {
    var kept := Swept(cfg, s, now).buckets;
    assert kept.Keys <= s.buckets.Keys;
    SubsetIsSmaller(kept.Keys, s.buckets.Keys);
    assert |kept| == |kept.Keys| && |s.buckets| == |s.buckets.Keys|;
  }

  lemma {:induction false} SubsetIsSmaller<T>(a: set<T>, b: set<T>)
    requires a <= b
    ensures |a| <= |b|
  {
    if a != {} {
      var x :| x in a;
      SubsetIsSmaller(a - {x}, b - {x});
    }
  }

  lemma StepKeepsInv(cfg: Config, s: State, t: real, call: Call)
    requires Valid(cfg) && Inv(cfg, s, t) && t <= call.now
    ensures Inv(cfg, Step(cfg, s, call).0, call.now)
  {
    hide Inflow;
    SweptIsSmaller(cfg, s, call.now);
    var waited := if call.ip in s.buckets then call.now - s.buckets[call.ip].lastRefill else 0.0;
    InflowIsMonotone(cfg, 0.0, waited);
  }

  /**
    At every point of every run the map tracks at most `maxTracked` addresses,
    token counts lie in [0, burst] and no bucket is stamped in the future.
  */
  lemma {:induction false} ReachableInv(cfg: Config, s: State, t: real, calls: seq<Call>)
    requires Valid(cfg) && Inv(cfg, s, t) && Chronological(t, calls)
    ensures Inv(cfg, Run(cfg, s, calls), End(t, calls))
  {
    hide Inflow;
    if calls != [] {
      var n := |calls| - 1;
      ReachableInv(cfg, s, t, calls[..n]);
      StepKeepsInv(cfg, Run(cfg, s, calls[..n]), End(t, calls[..n]), calls[n]);
    }
  }

  lemma {:induction false} RunSplits(cfg: Config, s: State, a: seq<Call>, b: seq<Call>)
    ensures Run(cfg, s, a + b) == Run(cfg, Run(cfg, s, a), b)
  {
    if b == [] {
      assert a + b == a;
    } else {
      var n := |b| - 1;
      RunSplits(cfg, s, a, b[..n]);
      assert (a + b)[..|a + b| - 1] == a + b[..n];
    }
  }

  // ------------------------------------------------------------- token level

  /** The tokens `a` could spend at `t`: what eviction must not change. */
  function Level(cfg: Config, s: State, a: IpAddr, t: real): real {
    if a in s.buckets then RefilledAt(cfg, s.buckets[a], t) else cfg.burst
  }

  lemma InflowIsMonotone(cfg: Config, x: real, y: real)
    requires cfg.refill >= 0.0 && 0.0 <= x <= y
    ensures 0.0 <= Inflow(cfg, x) <= Inflow(cfg, y)
  {
  }

  lemma InflowAdds(cfg: Config, x: real, y: real)
    ensures Inflow(cfg, x + y) == Inflow(cfg, x) + Inflow(cfg, y)
  {
  }

  lemma RefillComposes(cfg: Config, b: Bucket, t1: real, t2: real)
    requires cfg.refill >= 0.0 && b.lastRefill <= t1 <= t2
    ensures RefilledAt(cfg, b, t2) == Min(RefilledAt(cfg, b, t1) + Inflow(cfg, t2 - t1), cfg.burst)
    ensures RefilledAt(cfg, b, t1) <= RefilledAt(cfg, b, t2)
  {
    hide Inflow;
    InflowIsMonotone(cfg, 0.0, t2 - t1);
    InflowAdds(cfg, t1 - b.lastRefill, t2 - t1);
    assert t2 - b.lastRefill == (t1 - b.lastRefill) + (t2 - t1);
  }

  /** With no call in between, a level only ages: it fills at `refill` up to `burst`. */
  lemma LevelAges(cfg: Config, s: State, a: IpAddr, t1: real, t2: real)
    requires Valid(cfg) && Inv(cfg, s, t1) && t1 <= t2
    ensures Level(cfg, s, a, t2) == Min(Level(cfg, s, a, t1) + Inflow(cfg, t2 - t1), cfg.burst)
  {
    hide Inflow;
    InflowIsMonotone(cfg, 0.0, t2 - t1);
    if a in s.buckets {
      RefillComposes(cfg, s.buckets[a], t1, t2);
    }
  }

  /** A sweep changes nobody's level, then or later. */
  lemma SweepIsUnobservable(cfg: Config, s: State, t: real, now: real, a: IpAddr, later: real)
    requires Valid(cfg) && Inv(cfg, s, t) && t <= now <= later
    ensures Level(cfg, Swept(cfg, s, now), a, later) == Level(cfg, s, a, later)
  {
    hide Inflow;
    if a in s.buckets {
      RefillComposes(cfg, s.buckets[a], now, later);
    }
  }

  /**
    One call, seen through levels. The caller is admitted exactly when a whole
    token is there, and pays for it; everybody else's level is untouched.
  */
  lemma StepOnLevels(cfg: Config, s: State, t: real, call: Call, a: IpAddr, later: real)
    requires Valid(cfg) && cfg.refill > 0.0 && Inv(cfg, s, t) && t <= call.now <= later
    ensures var (s', answer) := Step(cfg, s, call);
            var before := Level(cfg, s, call.ip, call.now);
            && (answer != AtCeiling ==>
                  && (answer == Admitted <==> before >= 1.0)
                  && Level(cfg, s', call.ip, call.now) == before - (if answer == Admitted then 1.0 else 0.0))
            && (a != call.ip || answer == AtCeiling ==> Level(cfg, s', a, later) == Level(cfg, s, a, later))
  {
    hide Inflow;
    InflowIsMonotone(cfg, 0.0, 0.0);
    InflowAdds(cfg, 0.0, 0.0);
    SweepIsUnobservable(cfg, s, t, call.now, a, later);
    SweepIsUnobservable(cfg, s, t, call.now, call.ip, call.now);
    var (s', answer) := Step(cfg, s, call);
    if answer == AtCeiling {
      assert Level(cfg, s', a, later) == Level(cfg, s, a, later);
    }
  }

  // --------------------------------------------- simulation by a naive limiter

  /** The limiter the module documentation starts from: it never forgets. */
  type Naive = map<IpAddr, Bucket>

  function NaiveStep(cfg: Config, n: Naive, call: Call): (Naive, bool) {
    if cfg.refill == 0.0 then (n, true)
    else
      var old_ := if call.ip in n then n[call.ip] else FreshBucket(cfg, call.now);
      var (b, answer) := Debited(cfg, old_, call.now);
      (n[call.ip := b], answer == Admitted)
  }

  function NaiveRun(cfg: Config, n: Naive, calls: seq<Call>): Naive {
    if calls == [] then n
    else NaiveStep(cfg, NaiveRun(cfg, n, calls[..|calls| - 1]), calls[|calls| - 1]).0
  }

  function NaiveAnswers(cfg: Config, n: Naive, calls: seq<Call>): seq<bool> {
    if calls == [] then []
    else
      var front := calls[..|calls| - 1];
      NaiveAnswers(cfg, n, front) + [NaiveStep(cfg, NaiveRun(cfg, n, front), calls[|calls| - 1]).1]
  }

  /** The calls of a run that the bounded limiter did not turn away at its ceiling. */
  function Kept(cfg: Config, s: State, calls: seq<Call>): seq<Call> {
    if calls == [] then []
    else
      var n := |calls| - 1;
      Kept(cfg, s, calls[..n]) + (if AnswerAt(cfg, s, calls, n) == AtCeiling then [] else [calls[n]])
  }

  function KeptAnswers(cfg: Config, s: State, calls: seq<Call>): seq<bool> {
    if calls == [] then []
    else
      var n := |calls| - 1;
      var answer := AnswerAt(cfg, s, calls, n);
      KeptAnswers(cfg, s, calls[..n]) + (if answer == AtCeiling then [] else [answer == Admitted])
  }

  /** A tracked address has the naive bucket; a forgotten one has a naive bucket that is full again. */
  ghost predicate Related(cfg: Config, s: State, n: Naive, t: real) {
    && (forall a :: a in s.buckets ==> a in n && n[a] == s.buckets[a])
    && (forall a :: a in n ==> n[a].lastRefill <= t)
    && (forall a :: a in n && a !in s.buckets ==> RefilledAt(cfg, n[a], t) == cfg.burst)
  }

  lemma RelatedAges(cfg: Config, s: State, n: Naive, t: real, now: real)
    requires cfg.refill >= 0.0 && Related(cfg, s, n, t) && t <= now
    ensures Related(cfg, s, n, now)
  {
    hide Inflow;
    forall a | a in n && a !in s.buckets ensures RefilledAt(cfg, n[a], now) == cfg.burst {
      RefillComposes(cfg, n[a], t, now);
    }
  }

  lemma SweepKeepsRelated(cfg: Config, s: State, n: Naive, t: real)
    requires cfg.refill >= 0.0 && Related(cfg, s, n, t)
    ensures Related(cfg, Swept(cfg, s, t), n, t)
  {
    hide Inflow;
  }

  lemma FreshIsFull(cfg: Config, now: real)
    ensures RefilledAt(cfg, FreshBucket(cfg, now), now) == cfg.burst
  {
  }

  lemma DebitedIsStamped(cfg: Config, b: Bucket, now: real)
    ensures Debited(cfg, b, now).0.lastRefill == now && Debited(cfg, b, now).1 != AtCeiling
  {
  }

  lemma SameLevelSameDebit(cfg: Config, b: Bucket, b': Bucket, now: real)
    requires RefilledAt(cfg, b, now) == RefilledAt(cfg, b', now)
    ensures Debited(cfg, b, now) == Debited(cfg, b', now)
  {
  }

  lemma ChargeSimulates(cfg: Config, s: State, n: Naive, call: Call)
    requires cfg.refill > 0.0 && Related(cfg, s, n, call.now)
    ensures var (s', answer) := Charged(cfg, s, call);
            var (n', ok) := NaiveStep(cfg, n, call);
            if answer == AtCeiling then Related(cfg, s', n, call.now)
            else Related(cfg, s', n', call.now) && ok == (answer == Admitted)
  {
    hide RefilledAt, Debited;
    var (s', answer) := Charged(cfg, s, call);
    var (n', ok) := NaiveStep(cfg, n, call);
    FreshIsFull(cfg, call.now);
    DebitedIsStamped(cfg, if call.ip in n then n[call.ip] else FreshBucket(cfg, call.now), call.now);
    if call.ip in n && call.ip !in s.buckets {
      SameLevelSameDebit(cfg, n[call.ip], FreshBucket(cfg, call.now), call.now);
    }
    if answer != AtCeiling {
      assert forall a :: a != call.ip ==> (a in s'.buckets <==> a in s.buckets) && (a in n' <==> a in n);
    }
  }

  lemma StepSimulates(cfg: Config, s: State, n: Naive, t: real, call: Call)
    requires cfg.refill >= 0.0 && Related(cfg, s, n, t) && t <= call.now
    ensures var (s', answer) := Step(cfg, s, call);
            var (n', ok) := NaiveStep(cfg, n, call);
            if answer == AtCeiling then Related(cfg, s', n, call.now)
            else Related(cfg, s', n', call.now) && ok == (answer == Admitted)
  {
    hide Related, RefilledAt, Charged, Swept;
    RelatedAges(cfg, s, n, t, call.now);
    SweepKeepsRelated(cfg, s, n, call.now);
    if cfg.refill > 0.0 {
      ChargeSimulates(cfg, if SweepDue(s, call.ip, call.now) then Swept(cfg, s, call.now) else s, n, call);
    }
  }

  lemma {:induction false} RunSimulates(cfg: Config, t0: real, calls: seq<Call>)
    requires cfg.refill >= 0.0 && Chronological(t0, calls)
    ensures Related(cfg, Run(cfg, Init(t0), calls), NaiveRun(cfg, map[], Kept(cfg, Init(t0), calls)), End(t0, calls))
    ensures NaiveAnswers(cfg, map[], Kept(cfg, Init(t0), calls)) == KeptAnswers(cfg, Init(t0), calls)
  {
    hide Inflow;
    if calls != [] {
      var n := |calls| - 1;
      var s := Init(t0);
      RunSimulates(cfg, t0, calls[..n]);
      var front := Kept(cfg, s, calls[..n]);
      StepSimulates(cfg, Run(cfg, s, calls[..n]), NaiveRun(cfg, map[], front), End(t0, calls[..n]), calls[n]);
      if AnswerAt(cfg, s, calls, n) == AtCeiling {
        assert Kept(cfg, s, calls) == front;
      } else {
        assert Kept(cfg, s, calls)[..|front|] == front;
      }
    }
  }

  // ------------------------------------------------------------ window bound

  ghost function AdmittedCount(cfg: Config, s: State, calls: seq<Call>, a: IpAddr): nat {
    if calls == [] then 0
    else
      var n := |calls| - 1;
      AdmittedCount(cfg, s, calls[..n], a) +
      if calls[n].ip == a && AnswerAt(cfg, s, calls, n) == Admitted then 1 else 0
  }

  lemma LevelIsNatural(cfg: Config, s: State, a: IpAddr, t: real)
    requires Valid(cfg) && Inv(cfg, s, t)
    ensures 0.0 <= Level(cfg, s, a, t) <= cfg.burst
  {
    hide Inflow;
    if a in s.buckets {
      InflowIsMonotone(cfg, 0.0, t - s.buckets[a].lastRefill);
    }
  }

  lemma StepConserves(cfg: Config, s: State, t: real, call: Call, a: IpAddr)
    requires Valid(cfg) && cfg.refill > 0.0 && Inv(cfg, s, t) && t <= call.now
    ensures Level(cfg, Step(cfg, s, call).0, a, call.now)
            + (if call.ip == a && Step(cfg, s, call).1 == Admitted then 1.0 else 0.0)
            <= Level(cfg, s, a, t) + Inflow(cfg, call.now - t)
  {
    hide Inflow, Step, Level, Inv;
    LevelAges(cfg, s, a, t, call.now);
    StepOnLevels(cfg, s, t, call, a, call.now);
  }

  /** Conservation: what `a` holds plus what it was granted never exceeds what it had plus what flowed in. */
  lemma {:induction false} LevelIsConserved(cfg: Config, s: State, t: real, calls: seq<Call>, a: IpAddr)
    requires Valid(cfg) && cfg.refill > 0.0 && Inv(cfg, s, t) && Chronological(t, calls)
    ensures var e := End(t, calls);
            Level(cfg, Run(cfg, s, calls), a, e) + AdmittedCount(cfg, s, calls, a) as real
            <= Level(cfg, s, a, t) + Inflow(cfg, e - t)
  {
    hide Inflow, Step, Level, Inv;
    InflowAdds(cfg, 0.0, 0.0);
    if calls != [] {
      var n := |calls| - 1;
      var m := End(t, calls[..n]);
      LevelIsConserved(cfg, s, t, calls[..n], a);
      ReachableInv(cfg, s, t, calls[..n]);
      StepConserves(cfg, Run(cfg, s, calls[..n]), m, calls[n], a);
      InflowAdds(cfg, m - t, calls[n].now - m);
      assert calls[n].now - t == (m - t) + (calls[n].now - m);
    }
  }

  /** From any reachable state on, `a` is admitted at most `burst` plus what flows in. */
  lemma AdmissionsAreBounded(cfg: Config, s: State, t: real, calls: seq<Call>, a: IpAddr)
    requires Valid(cfg) && cfg.refill > 0.0 && Inv(cfg, s, t) && Chronological(t, calls)
    ensures AdmittedCount(cfg, s, calls, a) as real <= cfg.burst + Inflow(cfg, End(t, calls) - t)
  {
    hide Inflow, Step, Level, Valid, Inv;
    LevelIsConserved(cfg, s, t, calls, a);
    LevelIsNatural(cfg, s, a, t);
    ReachableInv(cfg, s, t, calls);
    LevelIsNatural(cfg, Run(cfg, s, calls), a, End(t, calls));
  }

  /**
    In any window of any run one address is admitted at most `burst` plus
    `refill` times the length of the window, whatever was swept and re-inserted.
  */
  lemma WindowBound(cfg: Config, t0: real, calls: seq<Call>, i: nat, j: nat, a: IpAddr)
    requires Valid(cfg) && cfg.refill > 0.0 && Chronological(t0, calls) && i < j <= |calls|
    ensures AdmittedCount(cfg, Run(cfg, Init(t0), calls[..i]), calls[i..j], a) as real
            <= cfg.burst + Inflow(cfg, calls[j - 1].now - calls[i].now)
  {
    hide Inflow, Step, Valid;
    var s := Run(cfg, Init(t0), calls[..i]);
    ReachableInv(cfg, Init(t0), t0, calls[..i]);
    assert Inv(cfg, s, calls[i].now);
    AdmissionsAreBounded(cfg, s, calls[i].now, calls[i..j], a);
  }

  // -------------------------------------------------------------- the budget

  /** Calls of `a` among `calls[k..n]` that the run admits. */
  ghost function Served(cfg: Config, t0: real, calls: seq<Call>, a: IpAddr, k: nat, n: nat): nat
    requires n <= |calls|
  {
    if n <= k then 0
    else
      Served(cfg, t0, calls, a, k, n - 1) +
      if calls[n - 1].ip == a && AnswerAt(cfg, Init(t0), calls, n - 1) == Admitted then 1 else 0
  }

  lemma InflowIs(cfg: Config, duration: real)
    ensures Inflow(cfg, duration) == duration * cfg.refill
  {
  }

  /** One call from one address's side: its level ages to the call and pays for it if admitted. */
  lemma LevelAfterCall(cfg: Config, t0: real, calls: seq<Call>, a: IpAddr, n: nat, t: real)
    requires Valid(cfg) && cfg.refill > 0.0 && Chronological(t0, calls)
    requires 0 < n <= |calls| && calls[n - 1].now <= t
    ensures var now := calls[n - 1].now;
            var paid := if calls[n - 1].ip == a && AnswerAt(cfg, Init(t0), calls, n - 1) == Admitted then 1.0 else 0.0;
            Level(cfg, Run(cfg, Init(t0), calls[..n]), a, t) ==
            Min(Level(cfg, Run(cfg, Init(t0), calls[..n - 1]), a, now) - paid + Inflow(cfg, t - now), cfg.burst)
  {
    hide Inflow, Step, Level;
    var front := calls[..n - 1];
    assert calls[..n][..n - 1] == front;
    ReachableInv(cfg, Init(t0), t0, front);
    ReachableInv(cfg, Init(t0), t0, calls[..n]);
    StepOnLevels(cfg, Run(cfg, Init(t0), front), End(t0, front), calls[n - 1], a, calls[n - 1].now);
    LevelAges(cfg, Run(cfg, Init(t0), calls[..n]), a, calls[n - 1].now, t);
  }

  /** No level exceeds what the calls since any earlier call of the address leave of the budget. */
  lemma {:induction false} LevelWithinBudget(cfg: Config, t0: real, calls: seq<Call>, a: IpAddr, k: nat, n: nat, t: real)
    requires Valid(cfg) && cfg.refill > 0.0 && Chronological(t0, calls)
    requires k < n <= |calls| && calls[k].ip == a && calls[n - 1].now <= t
    ensures Level(cfg, Run(cfg, Init(t0), calls[..n]), a, t) <=
            cfg.burst + Inflow(cfg, t - calls[k].now) - Served(cfg, t0, calls, a, k, n) as real
  {
    hide Inflow, Step, Level, Run, Valid, Chronological, Init;
    var now := calls[n - 1].now;
    LevelAfterCall(cfg, t0, calls, a, n, t);
    ReachableInvAt(cfg, t0, calls, n - 1);
    if k == n - 1 {
      LevelIsNatural(cfg, Run(cfg, Init(t0), calls[..k]), a, now);
    } else {
      CallsAreOrdered(t0, calls, n);
      LevelWithinBudget(cfg, t0, calls, a, k, n - 1, now);
      InflowAdds(cfg, now - calls[k].now, t - now);
      assert t - calls[k].now == (now - calls[k].now) + (t - now);
    }
  }

  lemma ReachableInvAt(cfg: Config, t0: real, calls: seq<Call>, n: nat)
    requires Valid(cfg) && Chronological(t0, calls) && n < |calls|
    ensures Inv(cfg, Run(cfg, Init(t0), calls[..n]), calls[n].now)
  {
    hide Run;
    ReachableInv(cfg, Init(t0), t0, calls[..n]);
  }

  lemma CallsAreOrdered(t0: real, calls: seq<Call>, n: nat)
    requires Chronological(t0, calls) && 1 < n <= |calls|
    ensures calls[n - 2].now <= calls[n - 1].now
  {
  }

  /** A level is full, or exactly what the calls since some earlier one (`k`) leave of the budget. */
  lemma {:induction false} LevelIsSpent(cfg: Config, t0: real, calls: seq<Call>, a: IpAddr, n: nat, t: real)
    returns (k: nat)
    requires Valid(cfg) && cfg.refill > 0.0 && Chronological(t0, calls)
    requires n <= |calls| && (if n == 0 then t0 else calls[n - 1].now) <= t
    ensures k <= n
    ensures var level := Level(cfg, Run(cfg, Init(t0), calls[..n]), a, t);
            if k == n then level == cfg.burst
            else calls[k].ip == a &&
                 level == cfg.burst + Inflow(cfg, t - calls[k].now) - Served(cfg, t0, calls, a, k, n) as real
  {
    hide Inflow, Step, Valid, Chronological;
    if n == 0 {
      return 0;
    }
    var now := calls[n - 1].now;
    LevelAfterCall(cfg, t0, calls, a, n, t);
    hide Level, Run, Init;
    TimeStarts(cfg, t0, calls, n, t);
    if Level(cfg, Run(cfg, Init(t0), calls[..n]), a, t) == cfg.burst {
      return n;
    }
    k := LevelIsSpent(cfg, t0, calls, a, n - 1, now);
    if k < n - 1 {
      InflowAdds(cfg, now - calls[k].now, t - now);
      assert t - calls[k].now == (now - calls[k].now) + (t - now);
    }
  }

  lemma TimeStarts(cfg: Config, t0: real, calls: seq<Call>, n: nat, t: real)
    requires Valid(cfg) && Chronological(t0, calls) && 0 < n <= |calls| && calls[n - 1].now <= t
    ensures (if n == 1 then t0 else calls[n - 2].now) <= calls[n - 1].now
    ensures 0.0 <= Inflow(cfg, t - calls[n - 1].now)
  {
    InflowIsMonotone(cfg, 0.0, t - calls[n - 1].now);
  }

  /** Admitting call `i` keeps the window from call `k` within burst plus refill times its length. */
  ghost predicate Affordable(cfg: Config, t0: real, calls: seq<Call>, k: nat, i: nat)
    requires k <= i < |calls|
  {
    Served(cfg, t0, calls, calls[i].ip, k, i) as real + 1.0 <= cfg.burst + (calls[i].now - calls[k].now) * cfg.refill
  }

  /**
    The limiter is exact. Short of the ceiling a call is admitted if and only if that
    leaves every window that starts at a call of the address, this one included,
    within burst plus refill times its length.
  */
  lemma AdmittedIffAffordable(cfg: Config, t0: real, calls: seq<Call>, i: nat)
    requires Valid(cfg) && cfg.refill > 0.0 && Chronological(t0, calls) && i < |calls|
    requires AnswerAt(cfg, Init(t0), calls, i) != AtCeiling
    ensures AnswerAt(cfg, Init(t0), calls, i) == Admitted <==>
            forall k :: 0 <= k <= i && calls[k].ip == calls[i].ip ==> Affordable(cfg, t0, calls, k, i)
  {
    hide Inflow, Step, Level, Chronological;
    var a, now := calls[i].ip, calls[i].now;
    var level := Level(cfg, Run(cfg, Init(t0), calls[..i]), a, now);
    ReachableInvAt(cfg, t0, calls, i);
    StepOnLevels(cfg, Run(cfg, Init(t0), calls[..i]), now, calls[i], a, now);
    hide Run, Served;
    TimeStarts(cfg, t0, calls, i + 1, now);
    if level >= 1.0 {
      forall k | 0 <= k <= i && calls[k].ip == a ensures Affordable(cfg, t0, calls, k, i) {
        AffordableAt(cfg, t0, calls, k, i);
      }
    } else {
      var k := LevelIsSpent(cfg, t0, calls, a, i, now);
      InflowIs(cfg, now - calls[k].now);
      assert !Affordable(cfg, t0, calls, k, i);
    }
  }

  lemma AffordableAt(cfg: Config, t0: real, calls: seq<Call>, k: nat, i: nat)
    requires Valid(cfg) && cfg.refill > 0.0 && Chronological(t0, calls) && k <= i < |calls|
    requires calls[k].ip == calls[i].ip
    requires Level(cfg, Run(cfg, Init(t0), calls[..i]), calls[i].ip, calls[i].now) >= 1.0
    ensures Affordable(cfg, t0, calls, k, i)
  {
    hide Inflow, Level, Run, Chronological;
    InflowIs(cfg, calls[i].now - calls[k].now);
    if k < i {
      TimeStarts(cfg, t0, calls, i + 1, calls[i].now);
      LevelWithinBudget(cfg, t0, calls, calls[i].ip, k, i, calls[i].now);
    }
  }

  // ------------------------------------------------------------- the ceiling

  /** Other addresses that called before call `i`. */
  ghost function Others(calls: seq<Call>, i: nat): set<IpAddr>
    requires i < |calls|
  {
    set j | 0 <= j < i && calls[j].ip != calls[i].ip :: calls[j].ip
  }

  /** Those among them that did so less than `burst / refill` plus a second ago. */
  ghost function RecentOthers(cfg: Config, calls: seq<Call>, i: nat): set<IpAddr>
    requires i < |calls|
  {
    set j | 0 <= j < i && calls[j].ip != calls[i].ip
            && (calls[i].now - calls[j].now - 1.0) * cfg.refill < cfg.burst :: calls[j].ip
  }

  /** What the step compares with the ceiling. */
  lemma CeilingTest(cfg: Config, s: State, call: Call)
    requires Step(cfg, s, call).1 == AtCeiling
    ensures cfg.refill != 0.0 && call.ip !in s.buckets
    ensures var t := if SweepDue(s, call.ip, call.now) then Swept(cfg, s, call.now) else s;
            |t.buckets| >= cfg.maxTracked && t.buckets.Keys <= s.buckets.Keys
  {
  }

  /** A call is turned away at the ceiling only after `maxTracked` other addresses have called. */
  lemma CeilingNeedsACrowd(cfg: Config, t0: real, calls: seq<Call>, i: nat)
    requires i < |calls| && AnswerAt(cfg, Init(t0), calls, i) == AtCeiling
    ensures |Others(calls, i)| >= cfg.maxTracked
  {
    hide Step, Swept, SweepDue, Run;
    var s := Run(cfg, Init(t0), calls[..i]);
    CeilingTest(cfg, s, calls[i]);
    var t := if SweepDue(s, calls[i].ip, calls[i].now) then Swept(cfg, s, calls[i].now) else s;
    forall a | a in t.buckets.Keys ensures a in Others(calls, i) {
      StampIsACall(cfg, t0, calls[..i], a);
      var j :| 0 <= j < i && calls[..i][j] == Call(a, s.buckets[a].lastRefill);
      assert calls[j].ip == a;
    }
    SubsetIsSmaller(t.buckets.Keys, Others(calls, i));
  }

  /** Tracked addresses called less than `burst / refill` before the last sweep, or after it. */
  ghost predicate StampsFollowSweep(cfg: Config, s: State) {
    forall a :: a in s.buckets ==> Inflow(cfg, s.lastSweep - s.buckets[a].lastRefill) < cfg.burst
  }

  lemma StepFollowsSweep(cfg: Config, s: State, t: real, call: Call)
    requires Valid(cfg) && cfg.refill > 0.0 && Inv(cfg, s, t) && t <= call.now && StampsFollowSweep(cfg, s)
    ensures StampsFollowSweep(cfg, Step(cfg, s, call).0)
  {
    hide Inflow;
    var swept := Swept(cfg, s, call.now);
    assert StampsFollowSweep(cfg, swept);
    InflowOfPast(cfg, s.lastSweep - call.now);
    InflowOfPast(cfg, 0.0);
  }

  lemma InflowOfPast(cfg: Config, duration: real)
    requires cfg.refill >= 0.0 && duration <= 0.0
    ensures Inflow(cfg, duration) <= 0.0
  {
  }

  lemma {:induction false} RunFollowsSweep(cfg: Config, t0: real, calls: seq<Call>)
    requires Valid(cfg) && cfg.refill > 0.0 && Chronological(t0, calls)
    ensures StampsFollowSweep(cfg, Run(cfg, Init(t0), calls))
  {
    hide StampsFollowSweep, Step;
    if calls == [] {
      assert StampsFollowSweep(cfg, Init(t0)) by { NothingTracked(cfg, t0); }
    } else {
      var front := calls[..|calls| - 1];
      RunFollowsSweep(cfg, t0, front);
      ReachableInv(cfg, Init(t0), t0, front);
      StepFollowsSweep(cfg, Run(cfg, Init(t0), front), End(t0, front), calls[|calls| - 1]);
    }
  }

  lemma NothingTracked(cfg: Config, t0: real)
    ensures StampsFollowSweep(cfg, Init(t0))
  {
  }

  /**
    Sweeping keeps the ceiling for crowds that are there now: with room for the sweep
    trigger, a call is turned away only if `maxTracked` other addresses called less than
    `burst / refill` plus the minimum sweep gap before it.
  */
  lemma CeilingNeedsARecentCrowd(cfg: Config, t0: real, calls: seq<Call>, i: nat)
    requires Valid(cfg) && cfg.refill > 0.0 && Chronological(t0, calls)
    requires cfg.maxTracked >= SWEEP_SIZE_TRIGGER
    requires i < |calls| && AnswerAt(cfg, Init(t0), calls, i) == AtCeiling
    ensures |RecentOthers(cfg, calls, i)| >= cfg.maxTracked
  {
    hide Step, Run, Inflow, StampsFollowSweep, Chronological;
    var s, now := Run(cfg, Init(t0), calls[..i]), calls[i].now;
    CeilingTest(cfg, s, calls[i]);
    RunFollowsSweepAt(cfg, t0, calls, i);
    ReachableInvAt(cfg, t0, calls, i);
    var t := if SweepDue(s, calls[i].ip, now) then Swept(cfg, s, now) else s;
    forall a | a in t.buckets.Keys ensures a in RecentOthers(cfg, calls, i) {
      StampIsACall(cfg, t0, calls[..i], a);
      var stamp := s.buckets[a].lastRefill;
      var j :| 0 <= j < i && calls[..i][j] == Call(a, stamp);
      assert calls[j] == Call(a, stamp);
      TrackedIsRecent(cfg, s, calls[i], a);
    }
    SubsetIsSmaller(t.buckets.Keys, RecentOthers(cfg, calls, i));
  }

  lemma RunFollowsSweepAt(cfg: Config, t0: real, calls: seq<Call>, i: nat)
    requires Valid(cfg) && cfg.refill > 0.0 && Chronological(t0, calls) && i < |calls|
    ensures StampsFollowSweep(cfg, Run(cfg, Init(t0), calls[..i]))
  {
    hide Run;
    RunFollowsSweep(cfg, t0, calls[..i]);
  }

  lemma TrackedIsRecent(cfg: Config, s: State, call: Call, a: IpAddr)
    requires Valid(cfg) && cfg.refill > 0.0 && Inv(cfg, s, call.now) && StampsFollowSweep(cfg, s)
    requires cfg.maxTracked >= SWEEP_SIZE_TRIGGER && call.ip !in s.buckets
    requires var t := if SweepDue(s, call.ip, call.now) then Swept(cfg, s, call.now) else s;
             a in t.buckets && |t.buckets| >= cfg.maxTracked
    ensures a in s.buckets && (call.now - s.buckets[a].lastRefill - 1.0) * cfg.refill < cfg.burst
  {
    hide Inflow;
    var stamp := s.buckets[a].lastRefill;
    InflowIs(cfg, call.now - stamp - 1.0);
    InflowOfPast(cfg, -1.0);
    if SweepDue(s, call.ip, call.now) {
      InflowAdds(cfg, call.now - stamp, -1.0);
      assert call.now - stamp - 1.0 == (call.now - stamp) + -1.0;
    } else {
      InflowOfPast(cfg, call.now - s.lastSweep - 1.0);
      InflowAdds(cfg, s.lastSweep - stamp, call.now - s.lastSweep - 1.0);
      assert call.now - stamp - 1.0 == (s.lastSweep - stamp) + (call.now - s.lastSweep - 1.0);
    }
  }

  /** What a newcomer's call leaves tracked beside it: everybody, or those that a sweep spares. */
  lemma LeftTracked(cfg: Config, s: State, call: Call, a: IpAddr)
    requires cfg.refill > 0.0 && call.ip !in s.buckets && a in Step(cfg, s, call).0.buckets && a != call.ip
    ensures a in s.buckets
    ensures || RefilledAt(cfg, s.buckets[a], call.now) < cfg.burst
            || Elapsed(call.now, s.lastSweep) < 30.0
  {
    hide RefilledAt, Elapsed;
  }

  /** An address tracked beside a newcomer was swept neither now nor half a minute ago. */
  lemma SurvivesNewcomer(cfg: Config, s: State, call: Call, a: IpAddr)
    requires Valid(cfg) && cfg.refill > 0.0 && Inv(cfg, s, call.now) && StampsFollowSweep(cfg, s)
    requires call.ip !in s.buckets && a in Step(cfg, s, call).0.buckets && a != call.ip
    ensures a in s.buckets && (call.now - s.buckets[a].lastRefill - 30.0) * cfg.refill < cfg.burst
  {
    hide Inflow, Step;
    LeftTracked(cfg, s, call, a);
    var stamp := s.buckets[a].lastRefill;
    InflowIs(cfg, call.now - stamp - 30.0);
    if RefilledAt(cfg, s.buckets[a], call.now) < cfg.burst {
      InflowOfPast(cfg, -30.0);
      InflowAdds(cfg, call.now - stamp, -30.0);
      assert call.now - stamp - 30.0 == (call.now - stamp) + -30.0;
    } else {
      InflowOfPast(cfg, call.now - s.lastSweep - 30.0);
      InflowAdds(cfg, s.lastSweep - stamp, call.now - s.lastSweep - 30.0);
      assert call.now - stamp - 30.0 == (s.lastSweep - stamp) + (call.now - s.lastSweep - 30.0);
    }
  }

  /**
    The limiter forgets: when an address calls for the first time, every address tracked
    afterwards has made a call less than `burst / refill` plus half a minute before.
  */
  lemma MemoryIsRecent(cfg: Config, t0: real, calls: seq<Call>, i: nat, a: IpAddr)
    requires Valid(cfg) && cfg.refill > 0.0 && Chronological(t0, calls)
    requires i < |calls| && forall j :: 0 <= j < i ==> calls[j].ip != calls[i].ip
    requires a in Run(cfg, Init(t0), calls[..i + 1]).buckets
    ensures exists j :: 0 <= j <= i && calls[j].ip == a && (calls[i].now - calls[j].now - 30.0) * cfg.refill < cfg.burst
  {
    hide Step, Run, Inflow, StampsFollowSweep, Chronological;
    var s := Run(cfg, Init(t0), calls[..i]);
    RunTakesOne(cfg, t0, calls, i);
    if a == calls[i].ip {
      assert (calls[i].now - calls[i].now - 30.0) * cfg.refill < cfg.burst;
    } else {
      RunFollowsSweepAt(cfg, t0, calls, i);
      ReachableInvAt(cfg, t0, calls, i);
      if calls[i].ip in s.buckets {
        StampIsACall(cfg, t0, calls[..i], calls[i].ip);
        assert false;
      }
      SurvivesNewcomer(cfg, s, calls[i], a);
      StampIsACall(cfg, t0, calls[..i], a);
      var j :| 0 <= j < i && calls[..i][j] == Call(a, s.buckets[a].lastRefill);
      assert calls[j] == Call(a, s.buckets[a].lastRefill);
    }
  }

  lemma RunTakesOne(cfg: Config, t0: real, calls: seq<Call>, i: nat)
    requires i < |calls|
    ensures Run(cfg, Init(t0), calls[..i + 1]) == Step(cfg, Run(cfg, Init(t0), calls[..i]), calls[i]).0
  {
    assert calls[..i + 1][..i] == calls[..i];
  }

  /** With limiting switched off every call is admitted and nothing is remembered. */
  lemma {:induction false} DisabledAdmitsAll(cfg: Config, t0: real, calls: seq<Call>, i: nat)
    requires cfg.refill == 0.0 && i < |calls|
    ensures AnswerAt(cfg, Init(t0), calls, i) == Admitted
    ensures Run(cfg, Init(t0), calls).buckets == map[]
  {
    if |calls| > 1 {
      DisabledAdmitsAll(cfg, t0, calls[..|calls| - 1], 0);
    }
  }

  /** The ceiling flag is raised by a refusal there and lowered by the next newcomer let in, and by nothing else. */
  lemma CeilingIsFlagged(cfg: Config, s: State, call: Call)
    requires cfg.refill != 0.0
    ensures var (s', answer) := Step(cfg, s, call);
            s'.ceilingLogged == if answer == AtCeiling then true
                                else if call.ip in s.buckets then s.ceilingLogged else false
  {
  }

  // ----------------------------------------------------------- no starvation

  /** `later` is at least `1 / refill` after every call of `a`. */
  ghost predicate Idle(cfg: Config, calls: seq<Call>, a: IpAddr, later: real) {
    forall i :: 0 <= i < |calls| && calls[i].ip == a ==> Inflow(cfg, later - calls[i].now) >= 1.0
  }

  lemma {:induction false} IdleAddressHasAToken(cfg: Config, t0: real, calls: seq<Call>, a: IpAddr, later: real)
    requires Valid(cfg) && cfg.refill > 0.0 && Chronological(t0, calls)
    requires End(t0, calls) <= later && Idle(cfg, calls, a, later)
    ensures Level(cfg, Run(cfg, Init(t0), calls), a, later) >= 1.0
  {
    hide Inflow, Step, RefilledAt;
    if calls != [] {
      var n := |calls| - 1;
      var front := calls[..n];
      ReachableInv(cfg, Init(t0), t0, front);
      if calls[n].ip == a {
        ReachableInv(cfg, Init(t0), t0, calls);
        var s := Run(cfg, Init(t0), calls);
        LevelIsNatural(cfg, s, a, calls[n].now);
        LevelAges(cfg, s, a, calls[n].now, later);
      } else {
        IdleAddressHasAToken(cfg, t0, front, a, later);
        StepOnLevels(cfg, Run(cfg, Init(t0), front), End(t0, front), calls[n], a, later);
      }
    }
  }

  /** A caller that left `1 / refill` since each of its calls is refused only at the ceiling. */
  lemma IdleCallerIsServed(cfg: Config, t0: real, calls: seq<Call>, i: nat)
    requires Valid(cfg) && cfg.refill > 0.0 && Chronological(t0, calls)
    requires i < |calls| && Idle(cfg, calls[..i], calls[i].ip, calls[i].now)
    ensures AnswerAt(cfg, Init(t0), calls, i) in {Admitted, AtCeiling}
  {
    hide Inflow, Step, Level;
    var front := calls[..i];
    IdleAddressHasAToken(cfg, t0, front, calls[i].ip, calls[i].now);
    ReachableInv(cfg, Init(t0), t0, front);
    StepOnLevels(cfg, Run(cfg, Init(t0), front), End(t0, front), calls[i], calls[i].ip, calls[i].now);
  }

  // ------------------------------------------------------------------ sweeps

  predicate SweepsAt(cfg: Config, s: State, calls: seq<Call>, i: nat)
    requires i < |calls|
  {
    cfg.refill != 0.0 && SweepDue(Run(cfg, s, calls[..i]), calls[i].ip, calls[i].now)
  }

  ghost function SweepCount(cfg: Config, s: State, calls: seq<Call>): nat {
    if calls == [] then 0
    else SweepCount(cfg, s, calls[..|calls| - 1]) + if SweepsAt(cfg, s, calls, |calls| - 1) then 1 else 0
  }

  /** The O(n) scan is amortised: a run that lasts T holds at most T / MIN_SWEEP_GAP sweeps. */
  lemma {:induction false} SweepsAreAmortised(cfg: Config, s: State, t: real, calls: seq<Call>)
    requires Valid(cfg) && Inv(cfg, s, t) && Chronological(t, calls)
    ensures SweepCount(cfg, s, calls) as real * MIN_SWEEP_GAP <= Run(cfg, s, calls).lastSweep - s.lastSweep
    ensures Run(cfg, s, calls).lastSweep <= End(t, calls)
  {
    hide Inflow;
    ReachableInv(cfg, s, t, calls);
    if calls != [] {
      var n := |calls| - 1;
      SweepsAreAmortised(cfg, s, t, calls[..n]);
    }
  }

  lemma SweepIsStamped(cfg: Config, s: State, calls: seq<Call>, i: nat)
    requires i < |calls| && SweepsAt(cfg, s, calls, i)
    ensures Run(cfg, s, calls[..i + 1]).lastSweep == calls[i].now
  {
    assert calls[..i + 1][..i] == calls[..i];
  }

  lemma AfterACall(t0: real, calls: seq<Call>, i: nat, j: nat)
    requires Chronological(t0, calls) && i < j <= |calls|
    ensures Chronological(t0, calls[..i + 1]) && End(t0, calls[..i + 1]) == calls[i].now
    ensures Chronological(calls[i].now, calls[i + 1..j])
    ensures End(calls[i].now, calls[i + 1..j]) == calls[j - 1].now
  {
  }

  /** Two sweeps of one run are at least `MIN_SWEEP_GAP` apart. */
  lemma SweepsAreSpaced(cfg: Config, t0: real, calls: seq<Call>, i: nat, j: nat)
    requires Valid(cfg) && Chronological(t0, calls) && i < j < |calls|
    requires SweepsAt(cfg, Init(t0), calls, i) && SweepsAt(cfg, Init(t0), calls, j)
    ensures calls[j].now - calls[i].now >= MIN_SWEEP_GAP
  {
    hide Inflow, Step, Run, Chronological;
    var before := calls[..i + 1];
    var between := calls[i + 1..j];
    var s := Run(cfg, Init(t0), before);
    AfterACall(t0, calls, i, j);
    SweepIsStamped(cfg, Init(t0), calls, i);
    ReachableInv(cfg, Init(t0), t0, before);
    RunSplits(cfg, Init(t0), before, between);
    assert calls[..j] == before + between;
    SweepsAreAmortised(cfg, s, calls[i].now, between);
  }

  /** A tracked bucket carries the time of a call that its address really made. */
  lemma {:induction false} StampIsACall(cfg: Config, t0: real, calls: seq<Call>, a: IpAddr)
    requires a in Run(cfg, Init(t0), calls).buckets
    ensures exists i :: 0 <= i < |calls| && calls[i] == Call(a, Run(cfg, Init(t0), calls).buckets[a].lastRefill)
  {
    var n := |calls| - 1;
    var s := Run(cfg, Init(t0), calls[..n]);
    if calls[n].ip == a && cfg.refill != 0.0 {
      assert calls[n] == Call(a, Run(cfg, Init(t0), calls).buckets[a].lastRefill);
    } else {
      StampIsACall(cfg, t0, calls[..n], a);
      var i :| 0 <= i < n && calls[..n][i] == Call(a, s.buckets[a].lastRefill);
      assert calls[i] == Call(a, s.buckets[a].lastRefill);
    }
  }

  /** Whoever survives a sweep called less than `burst / refill` before it. */
  lemma SurvivorsAreRecent(cfg: Config, t0: real, calls: seq<Call>, now: real, a: IpAddr)
    requires Valid(cfg) && Chronological(t0, calls) && End(t0, calls) <= now
    requires a in Swept(cfg, Run(cfg, Init(t0), calls), now).buckets
    ensures exists i :: 0 <= i < |calls| && calls[i].ip == a && Inflow(cfg, now - calls[i].now) < cfg.burst
  {
    hide Inflow;
    hide Step, Run;
    ReachableInv(cfg, Init(t0), t0, calls);
    StampIsACall(cfg, t0, calls, a);
    var b := Run(cfg, Init(t0), calls).buckets[a];
    var i :| 0 <= i < |calls| && calls[i] == Call(a, b.lastRefill);
    assert RefilledAt(cfg, b, now) < cfg.burst;
    assert Elapsed(now, b.lastRefill) == now - calls[i].now;
  }

  // ------------------------------------------------------ the server's settings

  /** The configured rate is the refill; the burst is that rate, but at least one. */
  function ServerConfig(rate: real): Config {
    Config(rate, if rate > 1.0 then rate else 1.0, MAX_TRACKED_IPS)
  }

  /**
    As the server sets it up, with a positive rate: at most 65536 addresses are tracked,
    and one address is admitted at most burst plus rate times the length of the run.
  */
  lemma ServerLimits(rate: real, t0: real, calls: seq<Call>, a: IpAddr)
    requires rate > 0.0 && Chronological(t0, calls)
    ensures var cfg := ServerConfig(rate);
            && |Run(cfg, Init(t0), calls).buckets| <= 65536
            && Served(cfg, t0, calls, a, 0, |calls|) as real
               <= (if rate > 1.0 then rate else 1.0) + (End(t0, calls) - t0) * rate
  {
    hide Inflow, Step, Run, AdmittedCount, Served, Chronological, End;
    var cfg := ServerConfig(rate);
    ReachableInv(cfg, Init(t0), t0, calls);
    AdmissionsAreBounded(cfg, Init(t0), t0, calls, a);
    ServedIsAdmitted(cfg, t0, calls, a, |calls|);
    assert calls[..|calls|] == calls;
    assert |Run(cfg, Init(t0), calls).buckets| <= cfg.maxTracked;
    assert Served(cfg, t0, calls, a, 0, |calls|) == AdmittedCount(cfg, Init(t0), calls, a);
    ServerBudget(rate, Served(cfg, t0, calls, a, 0, |calls|) as real, End(t0, calls) - t0);
  }

  lemma ServerBudget(rate: real, admitted: real, length: real)
    requires admitted <= ServerConfig(rate).burst + Inflow(ServerConfig(rate), length)
    ensures admitted <= (if rate > 1.0 then rate else 1.0) + length * rate
  {
    InflowIs(ServerConfig(rate), length);
  }

  /** An address that leaves `1 / rate` seconds between its calls. */
  ghost predicate Spaced(rate: real, calls: seq<Call>, i: nat)
    requires i < |calls|
  {
    forall j :: 0 <= j < i && calls[j].ip == calls[i].ip ==> (calls[i].now - calls[j].now) * rate >= 1.0
  }

  /**
    Such an address is admitted by the server unless 65536 others called within the
    time a bucket takes to refill plus a second.
  */
  lemma ServerServes(rate: real, t0: real, calls: seq<Call>, i: nat)
    requires rate > 0.0 && Chronological(t0, calls) && i < |calls| && Spaced(rate, calls, i)
    requires |RecentOthers(ServerConfig(rate), calls, i)| < 65536
    ensures AnswerAt(ServerConfig(rate), Init(t0), calls, i) == Admitted
  {
    hide Inflow, AnswerAt, RecentOthers, Idle, Chronological;
    var cfg := ServerConfig(rate);
    SpacedIsIdle(cfg, calls, i);
    IdleCallerIsServed(cfg, t0, calls, i);
    if AnswerAt(cfg, Init(t0), calls, i) == AtCeiling {
      CeilingNeedsARecentCrowd(cfg, t0, calls, i);
    }
  }

  lemma SpacedIsIdle(cfg: Config, calls: seq<Call>, i: nat)
    requires i < |calls|
    requires Spaced(cfg.refill, calls, i)
    ensures Idle(cfg, calls[..i], calls[i].ip, calls[i].now)
  {
    hide Inflow;
    forall j | 0 <= j < i && calls[..i][j].ip == calls[i].ip ensures Inflow(cfg, calls[i].now - calls[..i][j].now) >= 1.0 {
      InflowIs(cfg, calls[i].now - calls[j].now);
    }
  }

  lemma {:induction false} ServedIsAdmitted(cfg: Config, t0: real, calls: seq<Call>, a: IpAddr, n: nat)
    requires n <= |calls|
    ensures Served(cfg, t0, calls, a, 0, n) == AdmittedCount(cfg, Init(t0), calls[..n], a)
  {
    hide Run, Step;
    if n > 0 {
      ServedIsAdmitted(cfg, t0, calls, a, n - 1);
      assert calls[..n][..n - 1] == calls[..n - 1];
    }
  }

  // --------------------------------------------------------- the limiter class

  class RateLimiter {
    const cfg: Config
    var buckets: map<IpAddr, Bucket>
    var lastSweep: real
    var ceilingLogged: bool

    ghost function View(): State
      reads this
    {
      State(buckets, lastSweep, ceilingLogged)
    }

    constructor (refill: real, burst: real, maxTracked: nat, now: real)
      ensures cfg == Config(refill, burst, maxTracked)
      ensures View() == Init(now)
    {
      cfg := Config(refill, burst, maxTracked);
      buckets, lastSweep, ceilingLogged := map[], now, false;
    }

    method Sweep(now: real)
      modifies this
      ensures View() == Swept(cfg, old(View()), now)
    {
      buckets := map a | a in buckets && RefilledAt(cfg, buckets[a], now) < cfg.burst :: buckets[a];
      lastSweep := now;
    }

    method TryAdmit(ip: IpAddr, now: real) returns (ok: bool)
      modifies this
      ensures View() == Step(cfg, old(View()), Call(ip, now)).0
      ensures ok <==> Step(cfg, old(View()), Call(ip, now)).1 == Admitted
    {
      hide RefilledAt, Elapsed;
      if cfg.refill == 0.0 {
        return true;
      }
      if ip !in buckets {
        var sinceSweep := Elapsed(now, lastSweep);
        if sinceSweep >= MIN_SWEEP_GAP && (|buckets| >= SWEEP_SIZE_TRIGGER || sinceSweep >= SWEEP_INTERVAL) {
          Sweep(now);
        }
        if |buckets| >= cfg.maxTracked {
          if !ceilingLogged {
            ceilingLogged := true;
          }
          return false;
        }
        ceilingLogged := false;
        buckets := buckets[ip := Bucket(now, cfg.burst)];
      }
      var tokens := RefilledAt(cfg, buckets[ip], now);
      ok := tokens >= 1.0;
      if ok {
        tokens := tokens - 1.0;
      }
      buckets := buckets[ip := Bucket(now, tokens)];
    }
  }
}
