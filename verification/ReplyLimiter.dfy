/** The UDP responders' reply limiter and anti-amplification rule. */
module ReplyLimiter {
  import opened Basics

  const BURST: nat := 5
  const WINDOW: int := 10_000_000_000
  const MAX_SOURCES: nat := 8192

  datatype Slot = Slot(start: int, n: nat)

  type Table = map<string, Slot>

  /** The table is thrown away before the call. */
  predicate Resets(m: Table) {
    |m| >= MAX_SOURCES
  }

  function Kept(m: Table): Table {
    if Resets(m) then map[] else m
  }

  /** The source has a window that the call still falls into. */
  predicate InWindow(m: Table, ip: string, now: int) {
    ip in m && now - m[ip].start <= WINDOW
  }

  function NextTable(m: Table, ip: string, now: int): Table {
    var k := Kept(m);
    if InWindow(k, ip, now) then k[ip := k[ip].(n := k[ip].n + 1)] else k[ip := Slot(now, 1)]
  }

  predicate Allows(m: Table, ip: string, now: int) {
    var k := Kept(m);
    InWindow(k, ip, now) ==> k[ip].n + 1 <= BURST
  }

  class Limiter {
    var m: Table

    constructor ()
      ensures m == map[]
    {
      m := map[];
    }

    /** `allow`. */
    method Allow(ip: string, now: int) returns (ok: bool)
      modifies this
      ensures m == NextTable(old(m), ip, now) && ok == Allows(old(m), ip, now)
    {
      if |m| >= MAX_SOURCES {
        m := map[];
      }
      if ip !in m || now - m[ip].start > WINDOW {
        m := m[ip := Slot(now, 1)];
        return true;
      }
      m := m[ip := m[ip].(n := m[ip].n + 1)];
      return m[ip].n <= BURST;
    }
  }

  // ---- Runs ----

  /** The calls on one port, oldest first. */
  datatype Calls = Start | Then(calls: Calls, ip: string, now: int)

  function TableOf(c: Calls): Table {
    match c
    case Start => map[]
    case Then(q, ip, now) => NextTable(TableOf(q), ip, now)
  }

  /** The clock never goes back. */
  predicate Ordered(c: Calls) {
    match c
    case Start => true
    case Then(q, _, now) => Ordered(q) && (q.Then? ==> q.now <= now)
  }

  /** A table reset happened between the two times. */
  predicate ResetIn(c: Calls, lo: int, hi: int) {
    match c
    case Start => false
    case Then(q, _, now) => ResetIn(q, lo, hi) || (Resets(TableOf(q)) && lo <= now <= hi)
  }

  /** One if this call is an allowed reply to `ip`. */
  function One(q: Calls, x: string, now: int, ip: string): nat {
    if x == ip && Allows(TableOf(q), x, now) then 1 else 0
  }

  /** Replies allowed to `ip` between the two times. */
  function Replies(c: Calls, ip: string, lo: int, hi: int): nat {
    match c
    case Start => 0
    case Then(q, x, now) => Replies(q, ip, lo, hi) + if lo <= now <= hi then One(q, x, now, ip) else 0
  }

  /** Replies allowed to `ip` from a time on, since the last reset. */
  function Since(c: Calls, ip: string, lo: int): nat {
    match c
    case Start => 0
    case Then(q, x, now) => (if Resets(TableOf(q)) then 0 else Since(q, ip, lo)) + if lo <= now then One(q, x, now, ip) else 0
  }

  lemma {:induction false} SinceMonotone(c: Calls, ip: string, a: int, b: int)
    requires a <= b
    ensures Since(c, ip, b) <= Since(c, ip, a)
  {
    if c.Then? {
      SinceMonotone(c.calls, ip, a, b);
    }
  }

  lemma {:induction false} NothingYet(c: Calls, ip: string, lo: int, hi: int)
    requires Ordered(c) && (c.Then? ==> c.now < lo)
    ensures Replies(c, ip, lo, hi) == 0 && Since(c, ip, lo) == 0
  {
    if c.Then? {
      NothingYet(c.calls, ip, lo, hi);
    }
  }

  /** Up to `hi` and without a reset in between, counting since the last reset counts everything. */
  lemma {:induction false} SinceIsAll(c: Calls, ip: string, lo: int, hi: int)
    requires Ordered(c) && (c.Then? ==> c.now <= hi) && !ResetIn(c, lo, hi)
    ensures Replies(c, ip, lo, hi) == Since(c, ip, lo)
  {
    if c.Then? {
      SinceIsAll(c.calls, ip, lo, hi);
      if Resets(TableOf(c.calls)) {
        NothingYet(c.calls, ip, lo, hi);
      }
    }
  }

  function AtMostBurst(n: nat): nat {
    if n < BURST then n else BURST
  }

  /** The slot of `ip` accounts for its replies since the last reset: those of the current window, of
      which the first stands at its start, and at most four of the window before in the ten seconds
      up to it. */
  ghost predicate Accounted(c: Calls, ip: string, t: int) {
    var m := TableOf(c);
    if ip !in m then forall lo :: Since(c, ip, lo) == 0
    else
      var s := m[ip];
      && s.n >= 1 && c.Then? && s.start <= c.now
      && (forall lo :: lo > s.start + WINDOW ==> Since(c, ip, lo) == 0)
      && Since(c, ip, s.start) <= AtMostBurst(s.n) && Since(c, ip, s.start + 1) <= AtMostBurst(s.n) - 1
      && (s.start - WINDOW <= t <= s.start ==> Since(c, ip, t) <= Since(c, ip, s.start) + 4)
  }

  lemma {:induction false} AccountedOther(q: Calls, x: string, now: int, ip: string, t: int)
    requires x != ip && Accounted(q, ip, t) && Ordered(Then(q, x, now))
    ensures Accounted(Then(q, x, now), ip, t)
  {
    var c := Then(q, x, now);
    forall lo
      ensures Since(c, ip, lo) == if Resets(TableOf(q)) then 0 else Since(q, ip, lo)
    {
    }
  }

  lemma {:induction false} AccountedFresh(q: Calls, now: int, ip: string, t: int)
    requires Accounted(q, ip, t) && Ordered(Then(q, ip, now)) && !InWindow(Kept(TableOf(q)), ip, now)
    ensures Accounted(Then(q, ip, now), ip, t)
  {
    var c := Then(q, ip, now);
    var m := TableOf(q);
    assert TableOf(c)[ip] == Slot(now, 1);
    forall lo
      ensures Since(c, ip, lo) == (if Resets(m) then 0 else Since(q, ip, lo)) + (if lo <= now then 1 else 0)
    {
    }
    if !Resets(m) && ip in m {
      var s := m[ip];
      assert Since(q, ip, now) == 0 && Since(q, ip, now + 1) == 0;
      forall lo | lo > now + WINDOW
        ensures Since(q, ip, lo) == 0
      {
      }
      if now - WINDOW <= t <= now {
        SinceMonotone(q, ip, s.start + 1, t);
      }
    }
  }

  lemma {:induction false} AccountedAgain(q: Calls, now: int, ip: string, t: int)
    requires Accounted(q, ip, t) && Ordered(Then(q, ip, now)) && InWindow(Kept(TableOf(q)), ip, now)
    ensures Accounted(Then(q, ip, now), ip, t)
  {
    var c := Then(q, ip, now);
    var s := TableOf(q)[ip];
    assert TableOf(c)[ip] == s.(n := s.n + 1);
    forall lo
      ensures Since(c, ip, lo) == Since(q, ip, lo) + (if lo <= now && s.n + 1 <= BURST then 1 else 0)
    {
    }
  }

  lemma {:induction false} AllAccounted(c: Calls, ip: string, t: int)
    requires Ordered(c)
    ensures Accounted(c, ip, t)
  {
    if c.Then? {
      AllAccounted(c.calls, ip, t);
      if c.ip != ip {
        AccountedOther(c.calls, c.ip, c.now, ip, t);
      } else if InWindow(Kept(TableOf(c.calls)), ip, c.now) {
        AccountedAgain(c.calls, c.now, ip, t);
      } else {
        AccountedFresh(c.calls, c.now, ip, t);
      }
    }
  }

  lemma {:induction false} NineSoFar(c: Calls, ip: string, t: int)
    requires Ordered(c) && c.Then? && t <= c.now <= t + WINDOW
    ensures Since(c, ip, t) <= 9
  {
    AllAccounted(c, ip, t);
    var m := TableOf(c);
    if ip in m {
      if t > m[ip].start {
        SinceMonotone(c, ip, m[ip].start + 1, t);
      }
    } else {
      assert Since(c, ip, t) == 0;
    }
  }

  /** Any closed ten seconds without a table reset carry at most nine replies to one source: five of one
      window and four of the window before, whose first reply is too old. */
  lemma {:induction false} AtMostNine(c: Calls, ip: string, t: int)
    requires Ordered(c) && !ResetIn(c, t, t + WINDOW)
    ensures Replies(c, ip, t, t + WINDOW) <= 9
  {
    if c.Then? {
      if c.now > t + WINDOW {
        AtMostNine(c.calls, ip, t);
      } else if c.now < t {
        NothingYet(c, ip, t, t + WINDOW);
      } else {
        SinceIsAll(c, ip, t, t + WINDOW);
        NineSoFar(c, ip, t);
      }
    }
  }

  function Repeat(c: Calls, ip: string, now: int, k: nat): Calls {
    if k == 0 then c else Then(Repeat(c, ip, now, k - 1), ip, now)
  }

  /** `k` more calls fit into the window. */
  predicate Room(c: Calls, ip: string, now: int, k: nat) {
    |TableOf(c)| < MAX_SOURCES && InWindow(TableOf(c), ip, now) && TableOf(c)[ip].n + k <= BURST
  }

  lemma {:induction false} RepeatTable(c: Calls, ip: string, now: int, k: nat)
    requires Room(c, ip, now, k)
    ensures TableOf(Repeat(c, ip, now, k)) == TableOf(c)[ip := Slot(TableOf(c)[ip].start, TableOf(c)[ip].n + k)]
    ensures |TableOf(Repeat(c, ip, now, k))| == |TableOf(c)|
  {
    var r := Repeat(c, ip, now, k);
    if k > 0 {
      RepeatTable(c, ip, now, k - 1);
    }
    assert TableOf(r).Keys == TableOf(c).Keys;
    assert |TableOf(r).Keys| == |TableOf(r)| && |TableOf(c).Keys| == |TableOf(c)|;
  }

  lemma {:induction false} RepeatReplies(c: Calls, ip: string, now: int, lo: int, hi: int, k: nat)
    requires Ordered(c) && (c.Then? ==> c.now <= now) && Room(c, ip, now, k) && lo <= now <= hi
    ensures var r := Repeat(c, ip, now, k);
            && Ordered(r) && (r.Then? ==> r.now <= now)
            && Replies(r, ip, lo, hi) == Replies(c, ip, lo, hi) + k && (ResetIn(r, lo, hi) <==> ResetIn(c, lo, hi))
  {
    if k > 0 {
      RepeatReplies(c, ip, now, lo, hi, k - 1);
      RepeatTable(c, ip, now, k - 1);
    }
  }

  /** Nine are possible: one reply opens a window, four follow at its end, five open the next. */
  lemma {:induction false} NineHappen(ip: string) returns (c: Calls, t: int)
    ensures Ordered(c) && !ResetIn(c, t, t + WINDOW) && Replies(c, ip, t, t + WINDOW) == 9
  {
    t := WINDOW;
    var c1 := Then(Start, ip, 0);
    RepeatReplies(c1, ip, WINDOW, t, t + WINDOW, 4);
    RepeatTable(c1, ip, WINDOW, 4);
    var c2 := Repeat(c1, ip, WINDOW, 4);
    var c3 := Then(c2, ip, WINDOW + 1);
    assert TableOf(c3) == map[ip := Slot(WINDOW + 1, 1)];
    RepeatReplies(c3, ip, WINDOW + 1, t, t + WINDOW, 4);
    c := Repeat(c3, ip, WINDOW + 1, 4);
  }

  /** The table never holds more than its limit. */
  lemma {:induction false} TableBounded(c: Calls)
    ensures |TableOf(c)| <= MAX_SOURCES
  {
    if c.Then? {
      TableBounded(c.calls);
      GrowByOne(Kept(TableOf(c.calls)), c.ip, TableOf(c)[c.ip]);
    }
  }

  lemma {:induction false} GrowByOne(m: Table, ip: string, s: Slot)
    ensures |m[ip := s]| <= |m| + 1
  {
    assert m[ip := s].Keys == m.Keys + {ip};
    assert |m[ip := s].Keys| == |m[ip := s]| && |m.Keys| == |m|;
  }

  // ---- Amplification ----

  /** `replyAllowed`. */
  predicate ReplyAllowed(reply: seq<byte>, req: seq<byte>) {
    |reply| > 0 && |reply| <= |req|
  }

  /** `fit`: the first candidate that may be sent; the empty reply if there is none. */
  method Fit(req: seq<byte>, candidates: seq<seq<byte>>) returns (r: seq<byte>)
    ensures r == [] ==> forall i :: 0 <= i < |candidates| ==> !ReplyAllowed(candidates[i], req)
    ensures r != [] ==> exists i :: 0 <= i < |candidates| && r == candidates[i] && ReplyAllowed(r, req)
                                    && forall j :: 0 <= j < i ==> !ReplyAllowed(candidates[j], req)
  {
    for i := 0 to |candidates|
      invariant forall j :: 0 <= j < i ==> !ReplyAllowed(candidates[j], req)
    {
      var c := candidates[i];
      if |c| > 0 && |c| <= |req| {
        return c;
      }
    }
    return [];
  }

  /** A datagram as the loop meets it: its source, the time, and the reply its handler wants. */
  datatype Datagram = Datagram(src: string, pkt: seq<byte>, reply: seq<byte>, now: int)

  /** The limiter calls a script of datagrams makes. */
  function CallsOf(script: seq<Datagram>, n: nat): Calls
    requires n <= |script|
  {
    if n == 0 then Start
    else
      var d, q := script[n - 1], CallsOf(script, n - 1);
      if ReplyAllowed(d.reply, d.pkt) then Then(q, d.src, d.now) else q
  }

  predicate Answered(script: seq<Datagram>, i: nat)
    requires i < |script|
  {
    ReplyAllowed(script[i].reply, script[i].pkt) && Allows(TableOf(CallsOf(script, i)), script[i].src, script[i].now)
  }

  function BytesIn(script: seq<Datagram>, n: nat): nat
    requires n <= |script|
  {
    if n == 0 then 0 else BytesIn(script, n - 1) + |script[n - 1].pkt|
  }

  function BytesOut(script: seq<Datagram>, n: nat): nat
    requires n <= |script|
  {
    if n == 0 then 0 else BytesOut(script, n - 1) + if Answered(script, n - 1) then |script[n - 1].reply| else 0
  }

  /** However the handlers misbehave, the sensor never sends more bytes than it received. */
  lemma {:induction false} NeverAmplifies(script: seq<Datagram>, n: nat)
    requires n <= |script|
    ensures BytesOut(script, n) <= BytesIn(script, n)
  {
    if n > 0 {
      NeverAmplifies(script, n - 1);
    }
  }

  /** The loop of `serveUDP` over the datagrams that arrive: which replies it writes. */
  method ServeUDP(script: seq<Datagram>) returns (sent: seq<nat>, bytes: nat)
    ensures forall i :: 0 <= i < |script| ==> (i in sent <==> Answered(script, i))
    ensures bytes == BytesOut(script, |script|) && bytes <= BytesIn(script, |script|)
  {
    var lim := new Limiter();
    sent, bytes := [], 0;
    for n := 0 to |script|
      invariant lim.m == TableOf(CallsOf(script, n)) && bytes == BytesOut(script, n)
      invariant forall i :: i in sent ==> i < n
      invariant forall i :: 0 <= i < n ==> (i in sent <==> Answered(script, i))
    {
      var d := script[n];
      if ReplyAllowed(d.reply, d.pkt) {
        var ok := lim.Allow(d.src, d.now);
        if ok {
          sent := sent + [n];
          bytes := bytes + |d.reply|;
        }
      }
    }
    NeverAmplifies(script, |script|);
  }
}
