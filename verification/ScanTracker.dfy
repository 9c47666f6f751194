/** Port-scan detection: distinct destination ports per source address in a rolling
    window, with a periodic sweep. Times are nanoseconds; 0 is Go's zero time. */
module ScanTracker {
  import opened Basics
  import opened Ordering

  const SCAN_PORT_THRESHOLD := 5
  const SCAN_WINDOW := 600_000_000_000
  const SCAN_DISPLAY_DURATION := 3_600_000_000_000

  datatype ScanState = ScanState(portHits: map<string, nat>, detectedAt: nat, expiresAt: nat, lastSeenAt: nat)

  const NEW_STATE := ScanState(map[], 0, 0, 0)

  datatype Op = Record(ip: string, port: string, now: nat) | Sweep(now: nat)

  function Lookup(entries: map<string, ScanState>, ip: string): ScanState {
    if ip in entries then entries[ip] else NEW_STATE
  }

  /** The hits that are not before the cutoff. */
  function Evict(hits: map<string, nat>, cutoff: int): map<string, nat> {
    map p | p in hits && hits[p] >= cutoff :: hits[p]
  }

  /** The state of an address after a hit on `port`. */
  function Noted(s: ScanState, port: string, now: nat): ScanState {
    var hits := Evict(s.portHits, now - SCAN_WINDOW)[port := now];
    if |hits| >= SCAN_PORT_THRESHOLD then
      ScanState(hits, if s.detectedAt == 0 then now else s.detectedAt, now + SCAN_DISPLAY_DURATION, now)
    else s.(portHits := hits, lastSeenAt := now)
  }

  predicate IsScan(s: ScanState, port: string, now: nat) {
    |Evict(s.portHits, now - SCAN_WINDOW)[port := now]| >= SCAN_PORT_THRESHOLD
  }

  function Trimmed(s: ScanState, now: nat): ScanState {
    s.(portHits := Evict(s.portHits, now - SCAN_WINDOW))
  }

  /** The sweep removes an address that has expired from display and has no hit left. */
  predicate Gone(s: ScanState, now: nat) {
    s.expiresAt != 0 && now > s.expiresAt && Trimmed(s, now).portHits == map[]
  }

  function SweptEntries(entries: map<string, ScanState>, now: nat): map<string, ScanState> {
    map ip | ip in entries && !Gone(entries[ip], now) :: Trimmed(entries[ip], now)
  }

  function Step(entries: map<string, ScanState>, op: Op): (map<string, ScanState>, seq<bool>) {
    match op
    case Record(ip, port, now) =>
      (entries[ip := Noted(Lookup(entries, ip), port, now)], [IsScan(Lookup(entries, ip), port, now)])
    case Sweep(now) => (SweptEntries(entries, now), [])
  }

  function Verdicts(entries: map<string, ScanState>, ops: seq<Op>): seq<bool>
    decreases ops
  {
    if ops == [] then []
    else
      var r := Step(entries, ops[0]);
      r.1 + Verdicts(r.0, ops[1..])
  }

  /** The tracker object; each method is one critical section. */
  class Tracker {
    var entries: map<string, ScanState>

    constructor ()
      ensures entries == map[]
    {
      entries := map[];
    }

    /** Deletes the hits before the cutoff, in any order. */
    static method EvictLoop(hits: map<string, nat>, cutoff: int) returns (kept: map<string, nat>)
      ensures kept == Evict(hits, cutoff)
    {
      kept := hits;
      var rest := hits.Keys;
      while rest != {}
        invariant rest <= hits.Keys
        invariant kept.Keys == rest + Evict(hits, cutoff).Keys
        invariant forall p :: p in kept ==> p in hits && kept[p] == hits[p]
      {
        var p :| p in rest;
        if hits[p] < cutoff {
          kept := kept - {p};
        }
        rest := rest - {p};
      }
    }

    method RecordHit(ip: string, port: string, now: nat) returns (scanning: bool)
      modifies this
      ensures (entries, [scanning]) == Step(old(entries), Record(ip, port, now))
    {
      var s := if ip in entries then entries[ip] else NEW_STATE;
      var hits := EvictLoop(s.portHits, now - SCAN_WINDOW);
      hits := hits[port := now];
      s := s.(portHits := hits, lastSeenAt := now);
      scanning := false;
      if |hits| >= SCAN_PORT_THRESHOLD {
        if s.detectedAt == 0 {
          s := s.(detectedAt := now);
        }
        s := s.(expiresAt := now + SCAN_DISPLAY_DURATION);
        scanning := true;
      }
      assert s == Noted(Lookup(entries, ip), port, now);
      entries := entries[ip := s];
    }

    method SweepAll(now: nat)
      modifies this
      ensures entries == Step(old(entries), Sweep(now)).0
    {
      var all := entries;
      var next: map<string, ScanState> := map[];
      var rest := all.Keys;
      while rest != {}
        invariant rest <= all.Keys && entries == old(entries) == all
        invariant forall ip :: ip in next <==> ip in all && ip !in rest && !Gone(all[ip], now)
        invariant forall ip :: ip in next ==> ip in all && next[ip] == Trimmed(all[ip], now)
      {
        var ip :| ip in rest;
        var s := all[ip];
        var hits := EvictLoop(s.portHits, now - SCAN_WINDOW);
        var expired := s.expiresAt != 0 && now > s.expiresAt;
        var noActivity := |hits| == 0;
        if !(expired && noActivity) {
          next := next[ip := s.(portHits := hits)];
        }
        rest := rest - {ip};
      }
      assert next == SweptEntries(all, now);
      entries := next;
    }
  }

  // ---- What the tracker remembers, for stamps in any order ----

  /** Hits and sweeps in the order in which they took the lock, newest outermost. Each carries the clock
      reading made before it waited for the lock, so the stamps need not be in order. */
  datatype History = Start | Hit(past: History, ip: string, port: string, time: nat) | Swept(past: History, time: nat)

  function After(h: History, op: Op): History {
    match op
    case Record(ip, port, now) => Hit(h, ip, port, now)
    case Sweep(now) => Swept(h, now)
  }

  /** No stamp is Go's zero time. */
  predicate Stamped(h: History) {
    match h
    case Start => true
    case Hit(past, _, _, t) => t > 0 && Stamped(past)
    case Swept(past, t) => t > 0 && Stamped(past)
  }

  /** The ports of `ip` still remembered, with their stamps. */
  function Memory(h: History, ip: string): map<string, nat> {
    match h
    case Start => map[]
    case Hit(past, i, p, t) => if i == ip then Evict(Memory(past, ip), t - SCAN_WINDOW)[p := t] else Memory(past, ip)
    case Swept(past, t) => Evict(Memory(past, ip), t - SCAN_WINDOW)
  }

  /** The stamp of the last hit of `port` by `ip`, 0 if there is none. */
  function LastHit(h: History, ip: string, port: string): nat {
    match h
    case Start => 0
    case Hit(past, i, p, t) => if i == ip && p == port then t else LastHit(past, ip, port)
    case Swept(past, _) => LastHit(past, ip, port)
  }

  /** The greatest stamp of that hit and of all hits of `ip` and sweeps behind it. */
  function LatestSince(h: History, ip: string, port: string): nat {
    match h
    case Start => 0
    case Hit(past, i, p, t) =>
      if i != ip then LatestSince(past, ip, port) else if p == port then t else Max(LatestSince(past, ip, port), t)
    case Swept(past, t) => Max(LatestSince(past, ip, port), t)
  }

  /** A port is remembered exactly when no later hit of the address and no later sweep is stamped more than
      ten minutes after its last hit. */
  lemma {:induction false} MemoryIff(h: History, ip: string, port: string)
    requires Stamped(h)
    ensures port in Memory(h, ip) <==> LastHit(h, ip, port) > 0 && LatestSince(h, ip, port) - SCAN_WINDOW <= LastHit(h, ip, port)
    ensures port in Memory(h, ip) ==> Memory(h, ip)[port] == LastHit(h, ip, port)
  {
    if !h.Start? {
      MemoryIff(h.past, ip, port);
    }
  }

  /** The tracker's verdict on the last hit. */
  predicate Judged(h: History)
    requires h.Hit?
  {
    |Memory(h, h.ip)| >= SCAN_PORT_THRESHOLD
  }

  /** Stamp of the last hit of `ip` judged to be scanning, 0 if there is none. */
  function LastScan(h: History, ip: string): nat {
    match h
    case Start => 0
    case Hit(past, i, _, t) => if i == ip && Judged(h) then t else LastScan(past, ip)
    case Swept(past, _) => LastScan(past, ip)
  }

  /** Since its last scan a sweep, stamped more than an hour after it, found no port of `ip` remembered. */
  predicate Cleared(h: History, ip: string) {
    match h
    case Start => false
    case Hit(past, i, _, _) => !(i == ip && Judged(h)) && Cleared(past, ip)
    case Swept(past, t) => Cleared(past, ip) || Clears(past, ip, t)
  }

  predicate Clears(past: History, ip: string, t: nat) {
    0 < LastScan(past, ip) && LastScan(past, ip) + SCAN_DISPLAY_DURATION < t && Memory(Swept(past, t), ip) == map[]
  }

  /** Stamp of the first scan of `ip` since it was last cleared, 0 if there is none. */
  function FirstScan(h: History, ip: string): nat {
    match h
    case Start => 0
    case Hit(past, i, _, t) =>
      if i == ip && Judged(h) && FirstScan(past, ip) == 0 then t else FirstScan(past, ip)
    case Swept(past, t) => if Clears(past, ip, t) then 0 else FirstScan(past, ip)
  }

  /** Stamp of the last hit of `ip`, on any port. */
  function LastSeen(h: History, ip: string): nat {
    match h
    case Start => 0
    case Hit(past, i, _, t) => if i == ip then t else LastSeen(past, ip)
    case Swept(past, _) => LastSeen(past, ip)
  }

  /** `ip` was hit again after it was cleared. */
  predicate Returned(h: History, ip: string) {
    match h
    case Start => false
    case Hit(past, i, _, _) => if i == ip then !Judged(h) && Cleared(past, ip) else Returned(past, ip)
    case Swept(past, _) => Returned(past, ip)
  }

  predicate HasHit(h: History, ip: string) {
    match h
    case Start => false
    case Hit(past, i, _, _) => i == ip || HasHit(past, ip)
    case Swept(past, _) => HasHit(past, ip)
  }

  function ExpiryOf(h: History, ip: string): nat {
    if LastScan(h, ip) > 0 && !Cleared(h, ip) then LastScan(h, ip) + SCAN_DISPLAY_DURATION else 0
  }

  /** `ip` has an entry. */
  predicate Present(h: History, ip: string) {
    HasHit(h, ip) && (Cleared(h, ip) ==> Returned(h, ip))
  }

  /** What the map holds for `ip`. */
  predicate Holds(entries: map<string, ScanState>, h: History, ip: string) {
    var s := Lookup(entries, ip);
    && s.portHits == Memory(h, ip) && s.expiresAt == ExpiryOf(h, ip) && (s.detectedAt == 0 <==> s.expiresAt == 0)
    && (ip in entries <==> Present(h, ip))
    && s.detectedAt == FirstScan(h, ip) && (ip in entries ==> s.lastSeenAt == LastSeen(h, ip))
  }

  ghost predicate Refines(entries: map<string, ScanState>, h: History) {
    forall ip :: Holds(entries, h, ip)
  }

  /** A cleared address was hit, and while it has not returned nothing of it is remembered. */
  lemma {:induction false} ClearedFacts(h: History, ip: string)
    ensures Cleared(h, ip) ==> LastScan(h, ip) > 0 && HasHit(h, ip) && (!Returned(h, ip) ==> Memory(h, ip) == map[])
    ensures LastScan(h, ip) > 0 ==> HasHit(h, ip)
    ensures Returned(h, ip) ==> Cleared(h, ip)
  {
    if !h.Start? {
      ClearedFacts(h.past, ip);
    }
  }

  lemma {:induction false} HitHolds(entries: map<string, ScanState>, h: History, ip: string, port: string, now: nat)
    requires Holds(entries, h, ip) && now > 0
    ensures Holds(entries[ip := Noted(Lookup(entries, ip), port, now)], Hit(h, ip, port, now), ip)
    ensures IsScan(Lookup(entries, ip), port, now) == Judged(Hit(h, ip, port, now))
  {
    ClearedFacts(h, ip);
  }

  lemma {:induction false} SweepHolds(entries: map<string, ScanState>, h: History, ip: string, now: nat)
    requires Holds(entries, h, ip) && now > 0
    ensures Holds(SweptEntries(entries, now), Swept(h, now), ip)
  {
    ClearedFacts(h, ip);
    if ip in entries {
      assert Trimmed(entries[ip], now).portHits == Memory(Swept(h, now), ip);
    } else {
      assert Memory(h, ip) == map[];
    }
  }

  /** One critical section keeps the correspondence, whatever its stamp. */
  lemma {:induction false} StepRefines(entries: map<string, ScanState>, h: History, op: Op)
    requires Refines(entries, h) && op.now > 0
    ensures op.Record? ==> Step(entries, op).1 == [Judged(After(h, op))]
    ensures Refines(Step(entries, op).0, After(h, op))
  {
    var next := Step(entries, op).0;
    if op.Record? {
      assert Holds(entries, h, op.ip);
      HitHolds(entries, h, op.ip, op.port, op.now);
    }
    forall ip
      ensures Holds(next, After(h, op), ip)
    {
      assert Holds(entries, h, ip);
      if op.Sweep? {
        SweepHolds(entries, h, ip, op.now);
      }
    }
  }

  // ---- Whole runs ----

  predicate AllStamped(ops: seq<Op>) {
    forall i :: 0 <= i < |ops| ==> ops[i].now > 0
  }

  function RunEntries(entries: map<string, ScanState>, ops: seq<Op>): map<string, ScanState>
    decreases ops
  {
    if ops == [] then entries else RunEntries(Step(entries, ops[0]).0, ops[1..])
  }

  function RunHistory(h: History, ops: seq<Op>): History
    decreases ops
  {
    if ops == [] then h else RunHistory(After(h, ops[0]), ops[1..])
  }

  lemma {:induction false} StartRefines()
    ensures Refines(map[], Start)
  {
  }

  lemma {:induction false} RunRefines(entries: map<string, ScanState>, h: History, ops: seq<Op>)
    requires Refines(entries, h) && AllStamped(ops)
    ensures Refines(RunEntries(entries, ops), RunHistory(h, ops))
    decreases ops
  {
    if ops != [] {
      StepRefines(entries, h, ops[0]);
      RunRefines(Step(entries, ops[0]).0, After(h, ops[0]), ops[1..]);
    }
  }

  function JudgedVerdicts(h: History, ops: seq<Op>): seq<bool>
    decreases ops
  {
    if ops == [] then []
    else (if ops[0].Record? then [Judged(After(h, ops[0]))] else []) + JudgedVerdicts(After(h, ops[0]), ops[1..])
  }

  /** In every run, stamps in any order, each verdict counts the ports remembered. */
  lemma {:induction false} VerdictsAreJudged(entries: map<string, ScanState>, h: History, ops: seq<Op>)
    requires Refines(entries, h) && AllStamped(ops)
    ensures Verdicts(entries, ops) == JudgedVerdicts(h, ops)
    decreases ops
  {
    if ops != [] {
      StepRefines(entries, h, ops[0]);
      VerdictsAreJudged(Step(entries, ops[0]).0, After(h, ops[0]), ops[1..]);
    }
  }

  // ---- The direct count ----

  /** The ports `ip` has hit with a stamp not before `c`. */
  function PortsSince(h: History, ip: string, c: int): set<string> {
    match h
    case Start => {}
    case Hit(past, i, p, t) => PortsSince(past, ip, c) + if i == ip && t >= c then {p} else {}
    case Swept(past, _) => PortsSince(past, ip, c)
  }

  /** The ports of the ten minutes up to the last hit. */
  function Window(h: History): set<string>
    requires h.Hit?
  {
    PortsSince(h, h.ip, h.time - SCAN_WINDOW)
  }

  /** At least five distinct ports in the ten minutes up to the last hit. */
  predicate Scans(h: History)
    requires h.Hit?
  {
    |Window(h)| >= SCAN_PORT_THRESHOLD
  }

  /** Ports of the window that were forgotten: something that took the lock later is stamped more than ten
      minutes after their last hit. */
  function Overtaken(h: History): set<string>
    requires h.Hit?
  {
    set p | p in Window(h) && LatestSince(h, h.ip, p) - SCAN_WINDOW > LastHit(h, h.ip, p)
  }

  lemma {:induction false} SinceHit(h: History, ip: string, port: string, c: int)
    requires Stamped(h)
    ensures LastHit(h, ip, port) > 0 && LastHit(h, ip, port) >= c ==> port in PortsSince(h, ip, c)
    ensures port in PortsSince(h, ip, c) ==> LastHit(h, ip, port) > 0
  {
    if !h.Start? {
      SinceHit(h.past, ip, port, c);
    }
  }

  lemma {:induction false} LatestIsLater(h: History, ip: string, port: string)
    requires h.Hit? && h.ip == ip
    ensures h.time <= LatestSince(h, ip, port)
  {
  }

  /** What is remembered at a hit is the window less the overtaken ports. */
  lemma {:induction false} MemoryIsWindow(h: History)
    requires h.Hit? && Stamped(h)
    ensures Memory(h, h.ip).Keys == Window(h) - Overtaken(h)
  {
    forall p
      ensures p in Memory(h, h.ip) <==> p in Window(h) && p !in Overtaken(h)
    {
      MemoryIff(h, h.ip, p);
      SinceHit(h, h.ip, p, h.time - SCAN_WINDOW);
      LatestIsLater(h, h.ip, p);
    }
  }

  lemma {:induction false} KeysSize(m: map<string, nat>)
    ensures |m.Keys| == |m|
  {
  }

  lemma {:induction false} FewerWithout(a: set<string>, b: set<string>)
    ensures |a - b| <= |a|
  {
    assert a == (a - b) + (a * b);
  }

  /** The verdict counts the window less the overtaken ports, so it never calls a scan what is none. */
  lemma {:induction false} VerdictExactIff(h: History)
    requires h.Hit? && Stamped(h)
    ensures Judged(h) ==> Scans(h)
    ensures Judged(h) <==> |Window(h) - Overtaken(h)| >= SCAN_PORT_THRESHOLD
  {
    MemoryIsWindow(h);
    KeysSize(Memory(h, h.ip));
    FewerWithout(Window(h), Overtaken(h));
  }

  // ---- Stamps in lock order ----

  /** The greatest stamp of the hits of `ip` and of the sweeps. */
  function Top(h: History, ip: string): nat {
    match h
    case Start => 0
    case Hit(past, i, _, t) => if i == ip then Max(Top(past, ip), t) else Top(past, ip)
    case Swept(past, t) => Max(Top(past, ip), t)
  }

  /** The hits of `ip` and the sweeps took the lock in the order of their stamps. */
  predicate InOrder(h: History, ip: string) {
    match h
    case Start => true
    case Hit(past, i, _, t) => InOrder(past, ip) && (i == ip ==> Top(past, ip) <= t)
    case Swept(past, t) => InOrder(past, ip) && Top(past, ip) <= t
  }

  lemma {:induction false} InOrderStamps(h: History, ip: string, port: string, c: int)
    requires InOrder(h, ip)
    ensures LastHit(h, ip, port) <= Top(h, ip) && LatestSince(h, ip, port) <= Top(h, ip)
    ensures port in PortsSince(h, ip, c) ==> LastHit(h, ip, port) >= c
  {
    if !h.Start? {
      InOrderStamps(h.past, ip, port, c);
    }
  }

  /** In order, nothing in the window is overtaken. */
  lemma {:induction false} NoneOvertaken(h: History)
    requires h.Hit? && Stamped(h) && InOrder(h, h.ip)
    ensures Overtaken(h) == {} && (Judged(h) <==> Scans(h))
  {
    forall p | p in Window(h)
      ensures p !in Overtaken(h)
    {
      InOrderStamps(h, h.ip, p, h.time - SCAN_WINDOW);
      assert Top(h, h.ip) == h.time;
    }
    VerdictExactIff(h);
    assert Window(h) - {} == Window(h);
  }

  function DirectVerdicts(h: History, ops: seq<Op>): seq<bool>
    decreases ops
  {
    if ops == [] then []
    else (if ops[0].Record? then [Scans(After(h, ops[0]))] else []) + DirectVerdicts(After(h, ops[0]), ops[1..])
  }

  lemma {:induction false} PastInOrder(h: History, ops: seq<Op>, ip: string)
    requires InOrder(RunHistory(h, ops), ip)
    ensures InOrder(h, ip)
    decreases ops
  {
    if ops != [] {
      PastInOrder(After(h, ops[0]), ops[1..], ip);
    }
  }

  lemma {:induction false} JudgedDirectly(h: History, ops: seq<Op>)
    requires Stamped(h) && AllStamped(ops) && forall ip :: InOrder(RunHistory(h, ops), ip)
    ensures JudgedVerdicts(h, ops) == DirectVerdicts(h, ops)
    decreases ops
  {
    if ops != [] {
      var g := After(h, ops[0]);
      assert RunHistory(h, ops) == RunHistory(g, ops[1..]);
      if ops[0].Record? {
        PastInOrder(g, ops[1..], ops[0].ip);
        NoneOvertaken(g);
      }
      JudgedDirectly(g, ops[1..]);
    }
  }

  /** In every run, sweeps anywhere, whose hits and sweeps take the lock in the order of their stamps, address
      by address, each verdict is the direct count of distinct ports in the window. */
  lemma {:induction false} VerdictsAreDirectCounts(ops: seq<Op>)
    requires AllStamped(ops) && forall ip :: InOrder(RunHistory(Start, ops), ip)
    ensures Verdicts(map[], ops) == DirectVerdicts(Start, ops)
  {
    StartRefines();
    VerdictsAreJudged(map[], Start, ops);
    JudgedDirectly(Start, ops);
  }

  /** Two hits of one port, the second stamped a nanosecond earlier, then hits of three ports. */
  function Overtaking(ip: string, a: string, b: string, c: string, d: string): History {
    var w := SCAN_WINDOW;
    Hit(Hit(Hit(Hit(Hit(Start, ip, a, 2), ip, a, 1), ip, b, w), ip, c, w), ip, d, w)
  }

  lemma {:induction false} OvertakingMemory(ip: string, a: string, b: string, c: string, d: string)
    requires Distinct([a, b, c, d])
    ensures Memory(Overtaking(ip, a, b, c, d), ip) == map[a := 1, b := SCAN_WINDOW, c := SCAN_WINDOW, d := SCAN_WINDOW]
  {
    var ports := [a, b, c, d];
    assert ports[0] == a && ports[1] == b && ports[2] == c && ports[3] == d;
    var h := Hit(Hit(Start, ip, a, 2), ip, a, 1);
    assert Memory(Start, ip) == map[] && Memory(h.past, ip) == map[a := 2];
    assert Memory(h, ip) == map[a := 1];
    assert Memory(Hit(h, ip, b, SCAN_WINDOW), ip) == map[a := 1, b := SCAN_WINDOW];
    assert Memory(Hit(Hit(h, ip, b, SCAN_WINDOW), ip, c, SCAN_WINDOW), ip) == map[a := 1, b := SCAN_WINDOW, c := SCAN_WINDOW];
  }

  lemma {:induction false} OvertakingPorts(ip: string, a: string, b: string, c: string, d: string)
    ensures PortsSince(Overtaking(ip, a, b, c, d), ip, 2) == {a, b, c, d}
  {
    var h := Hit(Hit(Start, ip, a, 2), ip, a, 1);
    assert PortsSince(Start, ip, 2) == {} && PortsSince(h.past, ip, 2) == {a};
    assert PortsSince(h, ip, 2) == {a};
    assert PortsSince(Hit(h, ip, b, SCAN_WINDOW), ip, 2) == {a, b};
    assert PortsSince(Hit(Hit(h, ip, b, SCAN_WINDOW), ip, c, SCAN_WINDOW), ip, 2) == {a, b, c};
  }

  lemma {:induction false} OvertakingStamped(ip: string, a: string, b: string, c: string, d: string)
    ensures Stamped(Overtaking(ip, a, b, c, d))
  {
    var h1 := Hit(Start, ip, a, 2);
    var h2 := Hit(h1, ip, a, 1);
    assert Stamped(Start) && Stamped(h1);
    assert Stamped(h2);
    var h3 := Hit(h2, ip, b, SCAN_WINDOW);
    assert Stamped(h3);
    assert Stamped(Hit(h3, ip, c, SCAN_WINDOW));
  }

  lemma {:induction false} FivePorts(a: string, b: string, c: string, d: string, e: string)
    requires Distinct([a, b, c, d, e])
    ensures |{a, b, c, d, e}| == 5
  {
    DistinctSize([a, b, c, d, e]);
    assert SetOf([a, b, c, d, e]) == {a, b, c, d, e};
  }

  /** Lock order matters: a hit stamped one nanosecond earlier than another hit of the same port takes the
      lock behind it, and the port is forgotten inside its window: five ports, no scan. */
  lemma {:induction false} OvertakenHit(ip: string, a: string, b: string, c: string, d: string, e: string)
    requires Distinct([a, b, c, d, e])
    ensures var h := Hit(Overtaking(ip, a, b, c, d), ip, e, SCAN_WINDOW + 2); Stamped(h) && Scans(h) && !Judged(h)
  {
    var ports := [a, b, c, d, e];
    assert ports[..4] == [a, b, c, d];
    var past := Overtaking(ip, a, b, c, d);
    var h := Hit(past, ip, e, SCAN_WINDOW + 2);
    OvertakingMemory(ip, a, b, c, d);
    OvertakingPorts(ip, a, b, c, d);
    OvertakingStamped(ip, a, b, c, d);
    assert Window(h) == {a, b, c, d, e};
    FivePorts(a, b, c, d, e);
    assert forall p :: p in Memory(h, ip) ==> p in {b, c, d, e};
    FewKeys(Memory(h, ip), b, c, d, e);
  }

  lemma {:induction false} FewKeys(m: map<string, nat>, b: string, c: string, d: string, e: string)
    requires forall p :: p in m ==> p in {b, c, d, e}
    ensures |m| <= 4
  {
    KeysSize(m);
    assert m.Keys == {b, c, d, e} - ({b, c, d, e} - m.Keys);
    FewerWithout({b, c, d, e}, {b, c, d, e} - m.Keys);
    assert |{b, c, d, e}| <= 4;
  }

  // ---- Entries and display ----

  /** In every run, stamps in any order: an address has an entry exactly when it was hit and, if a sweep
      cleared it since its last scan, hit again since. */
  lemma {:induction false} EntryIff(ops: seq<Op>, ip: string)
    requires AllStamped(ops)
    ensures var h := RunHistory(Start, ops);
            ip in RunEntries(map[], ops) <==> HasHit(h, ip) && (Cleared(h, ip) ==> Returned(h, ip))
  {
    StartRefines();
    RunRefines(map[], Start, ops);
    assert Holds(RunEntries(map[], ops), RunHistory(Start, ops), ip);
  }

  /** An entry shows when the address was first found scanning since it was last cleared, and its last hit. */
  lemma {:induction false} EntryDates(ops: seq<Op>, ip: string)
    requires AllStamped(ops) && ip in RunEntries(map[], ops)
    ensures var s, h := RunEntries(map[], ops)[ip], RunHistory(Start, ops);
            s.detectedAt == FirstScan(h, ip) && s.lastSeenAt == LastSeen(h, ip)
  {
    StartRefines();
    RunRefines(map[], Start, ops);
    assert Holds(RunEntries(map[], ops), RunHistory(Start, ops), ip);
  }

  /** In order, a sweep clears an address exactly when its last scan is more than an hour old and it has no
      hit in the last ten minutes. */
  lemma {:induction false} ClearsIff(h: History, ip: string, t: nat)
    requires Stamped(h) && t > 0 && InOrder(Swept(h, t), ip)
    ensures Clears(h, ip, t) <==>
            0 < LastScan(h, ip) && LastScan(h, ip) + SCAN_DISPLAY_DURATION < t && PortsSince(h, ip, t - SCAN_WINDOW) == {}
  {
    var g := Swept(h, t);
    forall p
      ensures p in Memory(g, ip) <==> p in PortsSince(h, ip, t - SCAN_WINDOW)
    {
      MemoryIff(g, ip, p);
      InOrderStamps(g, ip, p, t - SCAN_WINDOW);
      SinceHit(g, ip, p, t - SCAN_WINDOW);
    }
    assert Memory(g, ip).Keys == PortsSince(h, ip, t - SCAN_WINDOW);
    assert Memory(g, ip) == map[] <==> Memory(g, ip).Keys == {};
  }

  /** Contrary to the sweep's stated purpose, an address that was hit and never scanned keeps its entry
      through every run. */
  lemma {:induction false} UndetectedEntriesStay(ops: seq<Op>, ip: string)
    requires AllStamped(ops) && HasHit(RunHistory(Start, ops), ip) && LastScan(RunHistory(Start, ops), ip) == 0
    ensures ip in RunEntries(map[], ops)
  {
    EntryIff(ops, ip);
    ClearedFacts(RunHistory(Start, ops), ip);
  }

  /** One hit and any number of sweeps, however late, leave an entry. */
  lemma {:induction false} OneHitStays(ip: string, port: string, sweeps: seq<Op>)
    requires forall i :: 0 <= i < |sweeps| ==> sweeps[i].Sweep? && sweeps[i].now > 0
    ensures ip in RunEntries(map[], [Record(ip, port, 1)] + sweeps)
  {
    var ops := [Record(ip, port, 1)] + sweeps;
    var h := Hit(Start, ip, port, 1);
    assert ops[1..] == sweeps;
    assert Memory(h, ip) == map[port := 1];
    SweepsKeep(h, sweeps, ip);
    UndetectedEntriesStay(ops, ip);
  }

  lemma {:induction false} SweepsKeep(h: History, sweeps: seq<Op>, ip: string)
    requires forall i :: 0 <= i < |sweeps| ==> sweeps[i].Sweep?
    ensures LastScan(RunHistory(h, sweeps), ip) == LastScan(h, ip) && (HasHit(RunHistory(h, sweeps), ip) <==> HasHit(h, ip))
    decreases sweeps
  {
    if sweeps != [] {
      SweepsKeep(After(h, sweeps[0]), sweeps[1..], ip);
    }
  }

  /** `ActiveScanners` shows the entry at time `now`. */
  predicate Shown(s: ScanState, now: nat) {
    s.detectedAt != 0 && now <= s.expiresAt
  }

  /** No sweep is stamped after `now`. */
  predicate SweptBy(h: History, now: nat) {
    match h
    case Start => true
    case Hit(past, _, _, _) => SweptBy(past, now)
    case Swept(past, t) => t <= now && SweptBy(past, now)
  }

  lemma {:induction false} ClearedIsExpired(h: History, ip: string, now: nat)
    requires SweptBy(h, now) && Cleared(h, ip)
    ensures LastScan(h, ip) + SCAN_DISPLAY_DURATION < now
  {
    if Cleared(h.past, ip) {
      ClearedIsExpired(h.past, ip, now);
    }
  }

  /** After every run, stamps in any order, an address is shown exactly while its last scan is at most an
      hour old, at any time that no sweep has overtaken. */
  lemma {:induction false} ShownForAnHour(ops: seq<Op>, ip: string, now: nat)
    requires AllStamped(ops) && SweptBy(RunHistory(Start, ops), now)
    ensures var last := LastScan(RunHistory(Start, ops), ip);
            Shown(Lookup(RunEntries(map[], ops), ip), now) <==> last != 0 && now <= last + SCAN_DISPLAY_DURATION
  {
    var h := RunHistory(Start, ops);
    StartRefines();
    RunRefines(map[], Start, ops);
    assert Holds(RunEntries(map[], ops), h, ip);
    if Cleared(h, ip) {
      ClearedIsExpired(h, ip, now);
    }
  }

  // ---- Listing ----

  datatype ScannerEntry = ScannerEntry(ip: string, portCount: nat, detectedAt: nat, expiresAt: nat, lastSeenAt: nat)

  /** More ports first, then the earlier detection. */
  predicate ListedBefore(a: ScannerEntry, b: ScannerEntry) {
    a.portCount > b.portCount || (a.portCount == b.portCount && a.detectedAt < b.detectedAt)
  }

  /** Everything up to `i` is in order except that the element at `j` may still have to move left. */
  ghost predicate OrderedBut(s: seq<ScannerEntry>, i: nat, j: nat)
    requires i < |s|
  {
    forall p, q :: 0 <= p < q <= i && q != j ==> !ListedBefore(s[q], s[p])
  }

  function Swapped(s: seq<ScannerEntry>, j: nat): (r: seq<ScannerEntry>)
    requires 0 < j < |s|
    ensures multiset(r) == multiset(s)
  {
    assert s == s[..j - 1] + [s[j - 1], s[j]] + s[j + 1..];
    assert s[j - 1 := s[j]][j := s[j - 1]] == s[..j - 1] + [s[j], s[j - 1]] + s[j + 1..];
    s[j - 1 := s[j]][j := s[j - 1]]
  }

  lemma {:induction false} SwapMovesLeft(s: seq<ScannerEntry>, i: nat, j: nat)
    requires 0 < j <= i < |s| && OrderedBut(s, i, j) && ListedBefore(s[j], s[j - 1])
    ensures OrderedBut(Swapped(s, j), i, j - 1)
  {
  }

  lemma {:induction false} InPlace(s: seq<ScannerEntry>, i: nat, j: nat)
    requires j <= i < |s| && OrderedBut(s, i, j) && (j == 0 || !ListedBefore(s[j], s[j - 1]))
    ensures SortedBy(ListedBefore, s[..i + 1])
  {
    forall p | 0 <= p < j
      ensures !ListedBefore(s[j], s[p])
    {
      assert p == j - 1 || !ListedBefore(s[j - 1], s[p]);
    }
  }

  /** The in-place insertion sort of `ActiveScanners`. */
  method SortScanners(out: array<ScannerEntry>)
    modifies out
    ensures multiset(out[..]) == multiset(old(out[..]))
    ensures SortedBy(ListedBefore, out[..])
    ensures forall i, j :: 0 <= i < j < out.Length ==>
              out[i].portCount > out[j].portCount || (out[i].portCount == out[j].portCount && out[i].detectedAt <= out[j].detectedAt)
  {
    var i := 1;
    while i < out.Length
      invariant 1 <= i
      invariant multiset(out[..]) == multiset(old(out[..]))
      invariant SortedBy(ListedBefore, out[..if i <= out.Length then i else out.Length])
    {
      var j := i;
      while j > 0 && ListedBefore(out[j], out[j - 1])
        invariant 0 <= j <= i
        invariant multiset(out[..]) == multiset(old(out[..]))
        invariant OrderedBut(out[..], i, j)
      {
        ghost var before := out[..];
        SwapMovesLeft(before, i, j);
        out[j - 1], out[j] := out[j], out[j - 1];
        assert out[..] == Swapped(before, j);
        j := j - 1;
      }
      InPlace(out[..], i, j);
      assert out[..][..i + 1] == out[..i + 1];
      i := i + 1;
    }
    assert out[..out.Length] == out[..];
    forall i, j | 0 <= i < j < out.Length
      ensures out[i].portCount > out[j].portCount || (out[i].portCount == out[j].portCount && out[i].detectedAt <= out[j].detectedAt)
    {
      assert !ListedBefore(out[..][j], out[..][i]);
    }
  }
}
