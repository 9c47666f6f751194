/** The per-address rate limiter: two sliding windows per key in a sharded map,
    with garbage collection. Times are nanoseconds; 0 is Go's zero time. */
module RateLimit {
  import opened Basics

  const SECOND := 1_000_000_000
  const RATE_THRESHOLD := 2
  const RATE_SUSTAIN_WINDOW := 600_000_000_000
  const VOLUME_THRESHOLD := 30
  const VOLUME_WINDOW := 600_000_000_000
  const RATE_SHARDS := 64
  const RATE_GC_MAX_AGE := 660_000_000_000

  datatype RateState = RateState(timestamps: seq<nat>, highSince: nat, volume: seq<nat>)

  const FRESH := RateState([], 0, [])

  // ---- The code's per-key step ----

  /** Drops leading times before the cutoff. */
  function Prune(ts: seq<nat>, cutoff: int): (r: seq<nat>)
    ensures |r| <= |ts|
  {
    if ts != [] && ts[0] < cutoff then Prune(ts[1..], cutoff) else ts
  }

  method PruneLoop(ts: seq<nat>, cutoff: int) returns (r: seq<nat>)
    ensures r == Prune(ts, cutoff)
  {
    var i := 0;
    while i < |ts| && ts[i] < cutoff
      invariant 0 <= i <= |ts| && Prune(ts[i..], cutoff) == Prune(ts, cutoff)
    {
      assert ts[i..][1..] == ts[i + 1..];
      i := i + 1;
    }
    r := ts[i..];
  }

  datatype HitResult = HitResult(state: RateState, ban: bool)

  function HighAfter(st: RateState, rate: nat, now: nat): nat {
    if rate <= RATE_THRESHOLD then 0 else if st.highSince == 0 then now else st.highSince
  }

  /** One event for a key: `now` is the first clock reading of `Record`, `later` the one taken by
      `time.Since`. A ban drops the state. */
  function Hit(st: RateState, now: nat, later: nat): HitResult {
    var ts := Prune(st.timestamps + [now], now - SECOND);
    var high := HighAfter(st, |ts|, now);
    if |ts| > RATE_THRESHOLD && later - high >= RATE_SUSTAIN_WINDOW then HitResult(FRESH, true)
    else
      var vol := Prune(st.volume + [now], now - VOLUME_WINDOW);
      HitResult(RateState(ts, high, vol), |vol| >= VOLUME_THRESHOLD)
  }

  /** `rateGC`'s test: the newest time in either window is missing or before the cutoff. */
  predicate Stale(st: RateState, cutoff: int) {
    var a := if st.timestamps == [] then 0 else st.timestamps[|st.timestamps| - 1];
    var b := if st.volume == [] then 0 else st.volume[|st.volume| - 1];
    var lastSeen := if b > a then b else a;
    lastSeen == 0 || lastSeen < cutoff
  }

  // ---- The sharded map ----

  type Shards = s: seq<map<Key, RateState>> | |s| == RATE_SHARDS
    witness seq(RATE_SHARDS, i => map[])

  const EMPTY: Shards := seq(RATE_SHARDS, i => map[])

  datatype Op =
    | Record(key: Key, now: nat, later: nat)
    | Sweep(index: nat, at: int)
    | Clear(key: Key)

  function Place(hash: Key -> nat, k: Key): (i: nat)
    ensures i < RATE_SHARDS
  {
    hash(k) % RATE_SHARDS
  }

  function Held(hash: Key -> nat, s: Shards, k: Key): Option<RateState> {
    var m := s[Place(hash, k)];
    if k in m then Some(m[k]) else None
  }

  function Put(hash: Key -> nat, s: Shards, k: Key, st: Option<RateState>): (r: Shards)
    ensures Held(hash, r, k) == st
    ensures forall j :: j != k ==> Held(hash, r, j) == Held(hash, s, j)
  {
    var i := Place(hash, k);
    s[i := if st.Some? then s[i][k := st.value] else s[i] - {k}]
  }

  function Or(o: Option<RateState>): RateState {
    if o.Some? then o.value else FRESH
  }

  function KeepFresh(m: map<Key, RateState>, cutoff: int): map<Key, RateState> {
    map k | k in m && !Stale(m[k], cutoff) :: m[k]
  }

  /** One critical section. A record yields its verdict: whether it bans. */
  function Step(hash: Key -> nat, s: Shards, op: Op): (r: (Shards, seq<bool>)) {
    match op
    case Record(k, now, later) =>
      var h := Hit(Or(Held(hash, s, k)), now, later);
      (Put(hash, s, k, if h.ban then None else Some(h.state)), [h.ban])
    case Sweep(i, at) =>
      (if i < RATE_SHARDS then s[i := KeepFresh(s[i], at - RATE_GC_MAX_AGE)] else s, [])
    case Clear(k) => (Put(hash, s, k, None), [])
  }

  function Verdicts(hash: Key -> nat, s: Shards, ops: seq<Op>): seq<bool>
    decreases ops
  {
    if ops == [] then []
    else
      var r := Step(hash, s, ops[0]);
      r.1 + Verdicts(hash, r.0, ops[1..])
  }

  /** The limiter object. Each method is one critical section. */
  class Limiter {
    var shards: Shards
    const hash: Key -> nat

    constructor (hash: Key -> nat)
      ensures shards == EMPTY && this.hash == hash
    {
      this.hash := hash;
      shards := EMPTY;
    }

    /** The locked part of `Record`; `later` is the second clock reading. */
    method RecordEvent(key: Key, now: nat, later: nat) returns (shouldBan: bool)
      modifies this`shards
      ensures (shards, [shouldBan]) == Step(hash, old(shards), Record(key, now, later))
    {
      var i := Place(hash, key);
      var st := if key in shards[i] then shards[i][key] else FRESH;
      var ts := PruneLoop(st.timestamps + [now], now - SECOND);
      var rate := |ts|;
      var high := st.highSince;
      shouldBan := false;
      if rate > RATE_THRESHOLD {
        if high == 0 {
          high := now;
        }
        if later - high >= RATE_SUSTAIN_WINDOW {
          shouldBan := true;
          shards := shards[i := shards[i] - {key}];
        }
      } else {
        high := 0;
      }
      if !shouldBan {
        var vol := PruneLoop(st.volume + [now], now - VOLUME_WINDOW);
        if |vol| >= VOLUME_THRESHOLD {
          shouldBan := true;
          shards := shards[i := shards[i] - {key}];
        } else {
          shards := shards[i := shards[i][key := RateState(ts, high, vol)]];
        }
      }
    }

    /** One shard's turn in a `rateGC` sweep that read the clock at `at`. */
    method SweepShard(i: nat, at: int)
      requires i < RATE_SHARDS
      modifies this`shards
      ensures shards == Step(hash, old(shards), Sweep(i, at)).0
    {
      var m := shards[i];
      var rest := m.Keys;
      while rest != {}
        invariant rest <= shards[i].Keys
        invariant m.Keys == rest + KeepFresh(shards[i], at - RATE_GC_MAX_AGE).Keys
        invariant forall k :: k in m ==> k in shards[i] && m[k] == shards[i][k]
      {
        var k :| k in rest;
        if Stale(shards[i][k], at - RATE_GC_MAX_AGE) {
          m := m - {k};
        }
        rest := rest - {k};
      }
      assert m == KeepFresh(shards[i], at - RATE_GC_MAX_AGE);
      shards := shards[i := m];
    }

    /** The rate part of `ManualUnban`. */
    method ClearKey(key: Key)
      modifies this`shards
      ensures shards == Step(hash, old(shards), Clear(key)).0
    {
      var i := Place(hash, key);
      shards := shards[i := shards[i] - {key}];
    }
  }

  // ---- What the limiter means: unpruned histories, one flat map, no sweeps ----

  /** The events of a key since its last reset, newest outermost. */
  datatype History = Start | Then(past: History, time: nat)

  /** The times of `h` not before `c`, oldest first. */
  function Since(h: History, c: int): seq<nat> {
    match h
    case Start => []
    case Then(past, t) => if t >= c then Since(past, c) + [t] else Since(past, c)
  }

  /** Events of the last second as of the last event. */
  function Recent(h: History): nat
    requires h.Then?
  {
    |Since(h, h.time - SECOND)|
  }

  /** Events of the last ten minutes as of the last event. */
  function Volume(h: History): nat
    requires h.Then?
  {
    |Since(h, h.time - VOLUME_WINDOW)|
  }

  /** Start of the current unbroken run of events at a high rate, 0 if there is none. */
  function HighSince(h: History): nat {
    if h.Start? || Recent(h) <= RATE_THRESHOLD then 0
    else if HighSince(h.past) == 0 then h.time
    else HighSince(h.past)
  }

  predicate Flood(h: History, later: nat)
    requires h.Then?
  {
    Recent(h) > RATE_THRESHOLD && later - HighSince(h) >= RATE_SUSTAIN_WINDOW
  }

  /** The direct rule over a key's events since its last reset. */
  predicate Bans(h: History, later: nat)
    requires h.Then?
  {
    Flood(h, later) || Volume(h) >= VOLUME_THRESHOLD
  }

  function HistoryOf(hist: map<Key, History>, k: Key): History {
    if k in hist then hist[k] else Start
  }

  function SpecStep(hist: map<Key, History>, op: Op): (map<Key, History>, seq<bool>) {
    match op
    case Record(k, now, later) =>
      var h := Then(HistoryOf(hist, k), now);
      (hist[k := if Bans(h, later) then Start else h], [Bans(h, later)])
    case Sweep(_, _) => (hist, [])
    case Clear(k) => (hist[k := Start], [])
  }

  function SpecVerdicts(hist: map<Key, History>, ops: seq<Op>): seq<bool>
    decreases ops
  {
    if ops == [] then []
    else
      var r := SpecStep(hist, ops[0]);
      r.1 + SpecVerdicts(r.0, ops[1..])
  }

  /** Clock readings never go back; `Sweep` reads the clock before it takes the lock. */
  predicate TimedStep(clock: int, op: Op) {
    op.Record? ==> op.now > 0 && clock <= op.now <= op.later
  }

  function ClockAfter(clock: int, op: Op): int {
    match op
    case Record(_, now, _) => now
    case Sweep(_, at) => Max(clock, at)
    case Clear(_) => clock
  }

  predicate Timed(clock: int, ops: seq<Op>)
    decreases ops
  {
    ops != [] ==> TimedStep(clock, ops[0]) && Timed(ClockAfter(clock, ops[0]), ops[1..])
  }

  // ---- Windows of an ordered history ----

  predicate Ordered(h: History) {
    h.Then? ==> (h.past.Then? ==> h.past.time <= h.time) && Ordered(h.past)
  }

  lemma {:induction false} SinceNone(h: History, c: int)
    requires Ordered(h) && (h.Then? ==> h.time < c)
    ensures Since(h, c) == []
  {
    if h.Then? {
      SinceNone(h.past, c);
    }
  }

  lemma {:induction false} PruneSnoc(ts: seq<nat>, x: nat, c: int)
    ensures Prune(ts + [x], c) == if Prune(ts, c) == [] && x < c then [] else Prune(ts, c) + [x]
  {
    if ts == [] {
      assert ts + [x] == [x] && [x][1..] == [];
    } else {
      assert (ts + [x])[0] == ts[0] && (ts + [x])[1..] == ts[1..] + [x];
      PruneSnoc(ts[1..], x, c);
    }
  }

  /** Pruning a window of an ordered history to a later cutoff gives the window of that cutoff. */
  lemma {:induction false} PruneWindow(h: History, c: int, d: int)
    requires Ordered(h) && c <= d
    ensures Prune(Since(h, c), d) == Since(h, d)
  {
    if h.Then? {
      PruneWindow(h.past, c, d);
      PruneSnoc(Since(h.past, c), h.time, d);
      if h.time < d {
        SinceNone(h.past, d);
      }
    }
  }

  /** The state kept for a history. */
  function View(h: History): RateState
    requires h.Then?
  {
    RateState(Since(h, h.time - SECOND), HighSince(h), Since(h, h.time - VOLUME_WINDOW))
  }

  /** What the limiter holds for a key whose events since the last reset are `h`: the windows of `h`,
      or nothing when `h` is empty or so old that a sweep removed it. */
  ghost predicate Represents(o: Option<RateState>, h: History, clock: int) {
    && Ordered(h) && (h.Then? ==> 0 < h.time <= clock)
    && (o.Some? ==> h.Then? && o.value == View(h))
    && (o.None? ==> h.Start? || h.time < clock - RATE_GC_MAX_AGE)
  }

  /** A hit computes the windows of the longer history. */
  lemma {:induction false} HitWindows(o: Option<RateState>, h: History, clock: int, now: nat)
    requires Represents(o, h, clock) && clock <= now
    ensures Prune(Or(o).timestamps + [now], now - SECOND) == Since(Then(h, now), now - SECOND)
    ensures Prune(Or(o).volume + [now], now - VOLUME_WINDOW) == Since(Then(h, now), now - VOLUME_WINDOW)
  {
    if o.Some? {
      PruneWindow(Then(h, now), h.time - SECOND, now - SECOND);
      PruneWindow(Then(h, now), h.time - VOLUME_WINDOW, now - VOLUME_WINDOW);
    } else {
      SinceNone(h, now - SECOND);
      SinceNone(h, now - VOLUME_WINDOW);
    }
  }

  /** The verdict of a hit is the direct rule over the longer history, and the state is its windows. */
  lemma {:induction false} HitMatchesHistory(o: Option<RateState>, h: History, clock: int, now: nat, later: nat)
    requires Represents(o, h, clock) && clock <= now && now > 0
    ensures Hit(Or(o), now, later).ban == Bans(Then(h, now), later)
    ensures !Bans(Then(h, now), later) ==> Represents(Some(Hit(Or(o), now, later).state), Then(h, now), now)
  {
    HitWindows(o, h, clock, now);
    assert HighAfter(Or(o), Recent(Then(h, now)), now) == HighSince(Then(h, now)) by {
      if o.None? {
        SinceNone(h, now - SECOND);
      }
    }
  }

  /** The sweep removes exactly the keys whose last event lies before the cutoff. */
  lemma {:induction false} StaleIff(st: RateState, h: History, clock: int, cutoff: int)
    requires Represents(Some(st), h, clock)
    ensures Stale(st, cutoff) <==> h.time < cutoff
  {
    assert st.timestamps == Since(h.past, h.time - SECOND) + [h.time];
    assert st.volume == Since(h.past, h.time - VOLUME_WINDOW) + [h.time];
  }

  /** A state that a sweep removes can never matter again. */
  lemma {:induction false} SweepKeepsMeaning(st: RateState, h: History, clock: int, at: int)
    requires Represents(Some(st), h, clock)
    ensures Represents(if Stale(st, at - RATE_GC_MAX_AGE) then None else Some(st), h, Max(clock, at))
  {
    assert st.timestamps == Since(h.past, h.time - SECOND) + [h.time];
    assert st.volume == Since(h.past, h.time - VOLUME_WINDOW) + [h.time];
  }

  /** After a sweep of its shard a key is held exactly if it was held and has an event of the last eleven minutes. */
  lemma {:induction false} SweptHeldIff(hash: Key -> nat, s: Shards, k: Key, h: History, clock: int, at: int)
    requires Represents(Held(hash, s, k), h, clock)
    ensures var swept := Step(hash, s, Sweep(Place(hash, k), at)).0;
            Held(hash, swept, k).Some? <==> Held(hash, s, k).Some? && h.time >= at - 660 * SECOND
  {
    if Held(hash, s, k).Some? {
      StaleIff(Held(hash, s, k).value, h, clock, at - RATE_GC_MAX_AGE);
    }
  }

  // ---- Whole runs ----

  ghost predicate Refines(hash: Key -> nat, s: Shards, hist: map<Key, History>, clock: int) {
    forall k :: Represents(Held(hash, s, k), HistoryOf(hist, k), clock)
  }

  /** One critical section keeps the refinement and gives the same verdict as the flat histories. */
  lemma {:induction false} StepRefines(hash: Key -> nat, s: Shards, hist: map<Key, History>, clock: int, op: Op)
    requires Refines(hash, s, hist, clock) && TimedStep(clock, op)
    ensures Step(hash, s, op).1 == SpecStep(hist, op).1
    ensures Refines(hash, Step(hash, s, op).0, SpecStep(hist, op).0, ClockAfter(clock, op))
  {
    var s', hist', clock' := Step(hash, s, op).0, SpecStep(hist, op).0, ClockAfter(clock, op);
    if op.Record? {
      HitMatchesHistory(Held(hash, s, op.key), HistoryOf(hist, op.key), clock, op.now, op.later);
    }
    forall k
      ensures Represents(Held(hash, s', k), HistoryOf(hist', k), clock')
    {
      assert Represents(Held(hash, s, k), HistoryOf(hist, k), clock);
      if op.Sweep? && Held(hash, s, k).Some? && Place(hash, k) == op.index {
        SweepKeepsMeaning(Held(hash, s, k).value, HistoryOf(hist, k), clock, op.at);
      }
    }
  }

  /** Every run of the sharded, pruned, swept limiter gives the verdicts of the flat histories. */
  lemma {:induction false} RunRefines(hash: Key -> nat, s: Shards, hist: map<Key, History>, clock: int, ops: seq<Op>)
    requires Refines(hash, s, hist, clock) && Timed(clock, ops)
    ensures Verdicts(hash, s, ops) == SpecVerdicts(hist, ops)
    decreases ops
  {
    if ops != [] {
      StepRefines(hash, s, hist, clock, ops[0]);
      RunRefines(hash, Step(hash, s, ops[0]).0, SpecStep(hist, ops[0]).0, ClockAfter(clock, ops[0]), ops[1..]);
    }
  }

  /** From an empty limiter, every verdict is the direct count, for any hash. */
  lemma {:induction false} VerdictsAreDirectCounts(hash: Key -> nat, ops: seq<Op>)
    requires Timed(0, ops)
    ensures Verdicts(hash, EMPTY, ops) == SpecVerdicts(map[], ops)
  {
    RunRefines(hash, EMPTY, map[], 0, ops);
  }

  function WithoutSweeps(ops: seq<Op>): seq<Op> {
    if ops == [] then []
    else if ops[0].Sweep? then WithoutSweeps(ops[1..])
    else [ops[0]] + WithoutSweeps(ops[1..])
  }

  lemma {:induction false} ErasedRun(hist: map<Key, History>, clock: int, clock': int, ops: seq<Op>)
    requires Timed(clock, ops) && clock' <= clock
    ensures Timed(clock', WithoutSweeps(ops))
    ensures SpecVerdicts(hist, WithoutSweeps(ops)) == SpecVerdicts(hist, ops)
    decreases ops
  {
    if ops != [] {
      var next := if ops[0].Sweep? then clock' else ClockAfter(clock', ops[0]);
      ErasedRun(SpecStep(hist, ops[0]).0, ClockAfter(clock, ops[0]), next, ops[1..]);
      assert ops[0].Sweep? ==> SpecVerdicts(hist, ops) == [] + SpecVerdicts(hist, ops[1..]);
    }
  }

  /** Garbage collection is unobservable: dropping every sweep of a run changes no verdict. */
  lemma {:induction false} SweepsAreUnobservable(hash: Key -> nat, ops: seq<Op>)
    requires Timed(0, ops)
    ensures Verdicts(hash, EMPTY, ops) == Verdicts(hash, EMPTY, WithoutSweeps(ops))
  {
    ErasedRun(map[], 0, 0, ops);
    VerdictsAreDirectCounts(hash, ops);
    VerdictsAreDirectCounts(hash, WithoutSweeps(ops));
  }

  // ---- The flood rule is subsumed by the volume rule ----

  /** No prefix of the history reached the volume threshold: so it is for every history that was not reset. */
  predicate Quiet(h: History) {
    h.Then? ==> Volume(h) < VOLUME_THRESHOLD && Quiet(h.past)
  }

  /** No event carries the zero time. */
  predicate Positive(h: History) {
    h.Then? ==> h.time > 0 && Positive(h.past)
  }

  lemma {:induction false} SinceMonotone(h: History, c: int, d: int)
    requires c <= d
    ensures |Since(h, d)| <= |Since(h, c)|
  {
    if h.Then? {
      SinceMonotone(h.past, c, d);
    }
  }

  /** At a high rate, the last event has two predecessors within a second. */
  lemma {:induction false} HighRateIsDense(h: History)
    requires Ordered(h) && h.Then? && Recent(h) > RATE_THRESHOLD
    ensures h.past.Then? && h.past.past.Then? && h.time - h.past.past.time <= SECOND
  {
    var c := h.time - SECOND;
    assert |Since(h, c)| <= |Since(h.past, c)| + 1;
    assert h.past.Then? ==> |Since(h.past, c)| <= |Since(h.past.past, c)| + 1;
    if h.past.Start? || h.past.time < c {
      SinceNone(h.past, c);
    } else if h.past.past.Start? || h.past.past.time < c {
      SinceNone(h.past.past, c);
    }
  }

  /** Number of events in the current unbroken run at a high rate. */
  function RunLength(h: History): nat {
    if HighSince(h) == 0 then 0 else 1 + RunLength(h.past)
  }

  lemma {:induction false} RunStarts(h: History)
    requires Ordered(h) && Positive(h) && HighSince(h) != 0
    ensures 0 < HighSince(h) <= h.time
    ensures RunLength(h) == 1 ==> HighSince(h) == h.time
    ensures RunLength(h) > 1 ==> HighSince(h.past) == HighSince(h) && RunLength(h.past) == RunLength(h) - 1
  {
    if HighSince(h.past) != 0 {
      RunStarts(h.past);
    }
  }

  /** A high run of `n` events spans at most `n / 2` seconds: every other event lies within a second. */
  lemma {:induction false} RunSpan(h: History)
    requires Ordered(h) && Positive(h) && HighSince(h) != 0
    ensures h.time - HighSince(h) <= RunLength(h) / 2 * SECOND
  {
    RunStarts(h);
    HighRateIsDense(h);
    if RunLength(h) == 2 {
      RunStarts(h.past);
    } else if RunLength(h) > 2 {
      RunStarts(h.past);
      RunSpan(h.past.past);
    }
  }

  /** The run and the two events before it count from a second before the run. */
  lemma {:induction false} RunIsHeld(h: History, c: int)
    requires Ordered(h) && Positive(h) && HighSince(h) != 0 && c <= HighSince(h) - SECOND
    ensures |Since(h, c)| >= RunLength(h) + 2
  {
    RunStarts(h);
    if RunLength(h) > 1 {
      RunIsHeld(h.past, c);
    } else {
      SinceMonotone(h, c, h.time - SECOND);
    }
  }

  /** While a high run lasts, it and the two events before it lie in the volume window. */
  lemma {:induction false} HighRunIsShort(h: History)
    requires Ordered(h) && Positive(h) && Quiet(h) && HighSince(h) != 0
    ensures RunLength(h) + 2 <= Volume(h)
    ensures h.time - HighSince(h) <= RunLength(h) / 2 * SECOND
  {
    RunStarts(h);
    RunSpan(h);
    if RunLength(h) > 1 {
      HighRunIsShort(h.past);
    }
    RunIsHeld(h, h.time - VOLUME_WINDOW);
  }

  /** The longest delay between the two clock readings of a call without which the flood rule cannot
      fire below the volume threshold: ten minutes less the thirteen seconds that 29 events allow. */
  const STALL := 587_000_000_000

  /** Below the volume threshold, the flood rule fires only after such a delay. */
  lemma {:induction false} FloodNeedsAStall(h: History, later: nat)
    requires h.Then? && Ordered(h) && Positive(h) && Quiet(h) && Flood(h, later)
    ensures later - h.time >= STALL
  {
    HighRunIsShort(h);
  }

  // ---- The delay is needed: 29 events, three at once and then two per second ----

  function BusyTime(i: nat): nat {
    if i < 3 then SECOND else (i + 1) / 2 * SECOND
  }

  /** The first `i` events. */
  function Busy(i: nat): History {
    if i == 0 then Start else Then(Busy(i - 1), BusyTime(i - 1))
  }

  lemma {:induction false} BusyShape(i: nat)
    ensures Ordered(Busy(i)) && Positive(Busy(i))
  {
    if i > 0 {
      BusyShape(i - 1);
    }
  }

  lemma {:induction false} BusyHeld(i: nat, c: int)
    requires c <= SECOND
    ensures |Since(Busy(i), c)| == i
  {
    if i > 0 {
      BusyHeld(i - 1, c);
    }
  }

  lemma {:induction false} BusyRecent(i: nat)
    requires i >= 3
    ensures Recent(Busy(i)) > RATE_THRESHOLD
  {
    var c := BusyTime(i - 1) - SECOND;
    assert BusyTime(i - 2) >= c && BusyTime(i - 3) >= c;
    assert Busy(i).past == Busy(i - 1) && Busy(i - 1).past == Busy(i - 2) && Busy(i - 2).past == Busy(i - 3);
    assert |Since(Busy(i - 2), c)| == |Since(Busy(i - 3), c)| + 1;
    assert |Since(Busy(i - 1), c)| == |Since(Busy(i - 2), c)| + 1;
    assert |Since(Busy(i), c)| == |Since(Busy(i - 1), c)| + 1;
  }

  lemma {:induction false} BusyHigh(i: nat)
    ensures HighSince(Busy(i)) == if i < 3 then 0 else SECOND
  {
    if i >= 3 {
      BusyHigh(i - 1);
      BusyRecent(i);
    } else if i > 0 {
      BusyHeld(i, BusyTime(i - 1) - SECOND);
    }
  }

  lemma {:induction false} BusyVolume(i: nat)
    requires 0 < i < VOLUME_THRESHOLD
    ensures Volume(Busy(i)) == i
  {
    BusyHeld(i, BusyTime(i - 1) - VOLUME_WINDOW);
  }

  /** The calls from the `i`-th event on; only the last one is held up. */
  function BusyOps(k: Key, i: nat): seq<Op>
    decreases VOLUME_THRESHOLD - i
  {
    if i >= VOLUME_THRESHOLD - 1 then []
    else [Record(k, BusyTime(i), BusyTime(i) + if i == VOLUME_THRESHOLD - 2 then STALL else 0)] + BusyOps(k, i + 1)
  }

  lemma {:induction false} BusyOpsTimed(k: Key, i: nat, clock: int)
    requires clock <= BusyTime(i)
    ensures Timed(clock, BusyOps(k, i)) && StallsBelow(BusyOps(k, i), STALL + 1)
    decreases VOLUME_THRESHOLD - i
  {
    if i < VOLUME_THRESHOLD - 1 {
      BusyOpsTimed(k, i + 1, BusyTime(i));
      assert BusyOps(k, i)[1..] == BusyOps(k, i + 1);
    }
  }

  /** With a delay of exactly that length, the flood rule bans where the volume rule does not. */
  lemma {:induction false} BusyVerdictsDiffer(hist: map<Key, History>, k: Key, i: nat)
    requires i < VOLUME_THRESHOLD - 1 && HistoryOf(hist, k) == Busy(i)
    ensures SpecVerdicts(hist, BusyOps(k, i)) != VolumeVerdicts(hist, BusyOps(k, i))
    decreases VOLUME_THRESHOLD - i
  {
    var ops := BusyOps(k, i);
    var op, h := ops[0], Busy(i + 1);
    assert h == Then(Busy(i), BusyTime(i));
    BusyHigh(i + 1);
    BusyVolume(i + 1);
    assert ops[1..] == BusyOps(k, i + 1);
    if i < VOLUME_THRESHOLD - 2 {
      assert !Bans(h, op.later);
      BusyVerdictsDiffer(SpecStep(hist, op).0, k, i + 1);
      assert SpecVerdicts(hist, ops)[1..] == SpecVerdicts(SpecStep(hist, op).0, ops[1..]);
      assert VolumeVerdicts(hist, ops)[1..] == VolumeVerdicts(VolumeStep(hist, op).0, ops[1..]);
    } else {
      BusyRecent(i + 1);
      assert Flood(h, op.later);
      assert SpecVerdicts(hist, ops)[0] && !VolumeVerdicts(hist, ops)[0];
    }
  }

  // ---- Runs ----

  /** Every key's history is ordered, quiet and not in the future. */
  ghost predicate AllQuiet(hist: map<Key, History>, clock: int) {
    forall k :: k in hist ==>
                  Ordered(hist[k]) && Positive(hist[k]) && Quiet(hist[k]) && (hist[k].Then? ==> hist[k].time <= clock)
  }

  /** The verdicts of the volume rule alone. */
  function VolumeStep(hist: map<Key, History>, op: Op): (map<Key, History>, seq<bool>) {
    match op
    case Record(k, now, later) =>
      var h := Then(HistoryOf(hist, k), now);
      var ban := Volume(h) >= VOLUME_THRESHOLD;
      (hist[k := if ban then Start else h], [ban])
    case Sweep(_, _) => (hist, [])
    case Clear(k) => (hist[k := Start], [])
  }

  function VolumeVerdicts(hist: map<Key, History>, ops: seq<Op>): seq<bool>
    decreases ops
  {
    if ops == [] then []
    else
      var r := VolumeStep(hist, ops[0]);
      r.1 + VolumeVerdicts(r.0, ops[1..])
  }

  /** Every call is held up for less than `d` between its two clock readings. */
  predicate StallsBelow(ops: seq<Op>, d: int) {
    forall i :: 0 <= i < |ops| && ops[i].Record? ==> ops[i].later - ops[i].now < d
  }

  lemma {:induction false} QuietStep(hist: map<Key, History>, clock: int, op: Op)
    requires AllQuiet(hist, clock) && TimedStep(clock, op)
    ensures AllQuiet(SpecStep(hist, op).0, ClockAfter(clock, op))
  {
    var next := SpecStep(hist, op).0;
    forall k | k in next
      ensures Ordered(next[k]) && Positive(next[k]) && Quiet(next[k]) && (next[k].Then? ==> next[k].time <= ClockAfter(clock, op))
    {
      assert k in hist ==> Ordered(hist[k]) && Positive(hist[k]) && Quiet(hist[k]);
      if op.Record? && k == op.key {
        var h := Then(HistoryOf(hist, k), op.now);
        assert Ordered(h) && Positive(h);
        assert !Bans(h, op.later) ==> Quiet(h);
      }
    }
  }

  lemma {:induction false} FloodRuleIsRedundantFrom(hist: map<Key, History>, clock: int, ops: seq<Op>)
    requires AllQuiet(hist, clock) && Timed(clock, ops) && StallsBelow(ops, STALL)
    ensures SpecVerdicts(hist, ops) == VolumeVerdicts(hist, ops)
    decreases ops
  {
    if ops != [] {
      var op := ops[0];
      if op.Record? {
        var h := Then(HistoryOf(hist, op.key), op.now);
        if Flood(h, op.later) && Volume(h) < VOLUME_THRESHOLD {
          FloodNeedsAStall(h, op.later);
        }
      }
      QuietStep(hist, clock, op);
      FloodRuleIsRedundantFrom(SpecStep(hist, op).0, ClockAfter(clock, op), ops[1..]);
    }
  }

  /** In every run whose calls are held up for less than 587 seconds the flood rule decides nothing: the
      limiter is exactly "30 events of a key within ten minutes, counted afresh after each ban", whatever
      the hash, the shards and the sweeps. */
  lemma {:induction false} FloodRuleIsRedundant(hash: Key -> nat, ops: seq<Op>)
    requires Timed(0, ops) && StallsBelow(ops, STALL)
    ensures Verdicts(hash, EMPTY, ops) == VolumeVerdicts(map[], ops)
  {
    VerdictsAreDirectCounts(hash, ops);
    FloodRuleIsRedundantFrom(map[], 0, ops);
  }

  /** The run gives the verdicts of the volume rule. */
  predicate VolumeDecides(hash: Key -> nat, s: Shards, ops: seq<Op>) {
    Verdicts(hash, s, ops) == VolumeVerdicts(map[], ops)
  }

  /** All runs with delays below `d` give the verdicts of the volume rule. */
  ghost predicate RedundantBelow(hash: Key -> nat, s: Shards, d: int) {
    forall ops: seq<Op> :: Timed(0, ops) && StallsBelow(ops, d) ==> VolumeDecides(hash, s, ops)
  }

  /** 587 seconds is the exact bound on the delay up to which the flood rule is redundant. */
  lemma {:induction false} FloodRedundantIff(hash: Key -> nat, d: int)
    ensures RedundantBelow(hash, EMPTY, d) <==> d <= STALL
  {
    if d <= STALL {
      forall ops: seq<Op> | Timed(0, ops) && StallsBelow(ops, d)
        ensures VolumeDecides(hash, EMPTY, ops)
      {
        FloodRuleIsRedundant(hash, ops);
      }
    } else {
      var k := Key("", "");
      var ops := BusyOps(k, 0);
      BusyOpsTimed(k, 0, 0);
      BusyVerdictsDiffer(map[], k, 0);
      VerdictsAreDirectCounts(hash, ops);
      assert !VolumeDecides(hash, EMPTY, ops);
    }
  }
}
