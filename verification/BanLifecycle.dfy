/** The ban set and its independent unban goroutines, as a state machine whose steps are
    the critical sections of `ban`, `scheduleUnban`, `ManualUnban` and `LoadBans`. */
module BanLifecycle {
  import opened Basics

  const BAN_COOLDOWN := 3_600_000_000_000

  /** An unban goroutine: spawned for an entry whose clock reading was `read`, or asleep until `due`. A wait that
      is not positive is over at once. */
  datatype Lift = Spawned(key: Key, read: nat, wait: int) | Asleep(key: Key, due: int)

  /** `bans` maps a banned key to its `ExpiresAt`. `lag` is the longest delay so far between an entry's
      clock reading and the start of its goroutine's sleep. */
  datatype State = State(now: nat, bans: map<Key, nat>, lifts: multiset<Lift>, lag: nat)

  datatype Op =
    | Tick(to: nat)
    | Ban(key: Key, read: nat)
    | Begin(lift: Lift)
    | Fire(lift: Lift)
    | Unban(key: Key)

  predicate Enabled(s: State, op: Op) {
    match op
    case Tick(to) => s.now <= to
    case Ban(_, read) => read <= s.now
    case Begin(l) => l in s.lifts && l.Spawned? && l.read <= s.now
    case Fire(l) => l in s.lifts && l.Asleep? && l.due <= s.now
    case Unban(_) => true
  }

  function Step(s: State, op: Op): State
    requires Enabled(s, op)
  {
    match op
    case Tick(to) => s.(now := to)
    case Ban(k, read) =>
      if k in s.bans then s
      else s.(bans := s.bans[k := read + BAN_COOLDOWN], lifts := s.lifts + multiset{Spawned(k, read, BAN_COOLDOWN)})
    case Begin(l) =>
      s.(lifts := s.lifts - multiset{l} + multiset{Asleep(l.key, s.now + l.wait)}, lag := Max(s.lag, s.now - l.read))
    case Fire(l) => s.(bans := s.bans - {l.key}, lifts := s.lifts - multiset{l})
    case Unban(k) => s.(bans := s.bans - {k})
  }

  ghost predicate Legal(s: State, ops: seq<Op>)
    decreases ops
  {
    ops == [] || (Enabled(s, ops[0]) && Legal(Step(s, ops[0]), ops[1..]))
  }

  ghost function Run(s: State, ops: seq<Op>): State
    requires Legal(s, ops)
    decreases ops
  {
    if ops == [] then s else Run(Step(s, ops[0]), ops[1..])
  }

  // ---- Loading ----

  datatype BanRecord = BanRecord(key: Key, expiresAt: nat)

  /** The table's primary key. */
  ghost predicate KeysDistinct(entries: seq<BanRecord>) {
    forall i, j :: 0 <= i < j < |entries| ==> entries[i].key != entries[j].key
  }

  /** Clock readings of a loop that starts at `at`. */
  ghost predicate Readings(clocks: seq<nat>, at: nat) {
    (forall i :: 0 <= i < |clocks| ==> at <= clocks[i]) && forall i, j :: 0 <= i < j < |clocks| ==> clocks[i] <= clocks[j]
  }

  /** The state after loading: entries unexpired at `at`, each with its goroutine, whose wait is computed from
      a clock reading of its own. */
  function Loaded(entries: seq<BanRecord>, at: nat, clocks: seq<nat>): (s: State)
    requires |clocks| == |entries|
    ensures s.now == if entries == [] then at else clocks[|clocks| - 1]
  {
    if entries == [] then State(at, map[], multiset{}, 0)
    else
      var n := |entries| - 1;
      var s := Loaded(entries[..n], at, clocks[..n]);
      if entries[n].expiresAt >= at then Admit(s, entries[n], clocks[n]) else s.(now := clocks[n])
  }

  /** An entry is banned after loading exactly if it has not expired, with its own expiry. */
  predicate LoadedAs(bans: map<Key, nat>, e: BanRecord, at: nat) {
    (e.key in bans <==> e.expiresAt >= at) && (e.key in bans ==> bans[e.key] == e.expiresAt)
  }

  /** The limiter's ban state together with its unban goroutines; each method is one step. */
  class BanSet {
    var now: nat
    var bans: map<Key, nat>
    var lifts: multiset<Lift>
    var lag: nat

    function Snapshot(): State
      reads this
    {
      State(now, bans, lifts, lag)
    }

    /** `LoadBans` at start-up: entries already expired are skipped. `clocks` are the clock readings of
        `time.Until`. */
    constructor Load(entries: seq<BanRecord>, at: nat, clocks: seq<nat>)
      requires |clocks| == |entries|
      ensures Snapshot() == Loaded(entries, at, clocks)
    {
      now, lag := at, 0;
      bans, lifts := map[], multiset{};
      new;
      for n := 0 to |entries|
        invariant Snapshot() == Loaded(entries[..n], at, clocks[..n])
      {
        assert entries[..n + 1][..n] == entries[..n] && clocks[..n + 1][..n] == clocks[..n];
        if entries[n].expiresAt >= at {
          AdmitEntry(entries[n], clocks[n]);
        } else {
          now := clocks[n];
        }
      }
      assert entries[..|entries|] == entries && clocks[..|clocks|] == clocks;
    }

    /** Stores a loaded entry and starts its goroutine. */
    method AdmitEntry(e: BanRecord, read: nat)
      modifies this
      ensures Snapshot() == Admit(old(Snapshot()), e, read)
    {
      now := read;
      bans := bans[e.key := e.expiresAt];
      lifts := lifts + multiset{Spawned(e.key, read, e.expiresAt - read)};
    }

    /** The critical section of `ban`, for an entry stamped `read`; also starts its goroutine. */
    method BanKey(key: Key, read: nat) returns (added: bool)
      requires Enabled(Snapshot(), Ban(key, read))
      modifies this
      ensures Snapshot() == Step(old(Snapshot()), Ban(key, read))
      ensures added <==> key !in old(bans)
    {
      added := key !in bans;
      if !added {
        return;
      }
      bans := bans[key := read + BAN_COOLDOWN];
      lifts := lifts + multiset{Spawned(key, read, BAN_COOLDOWN)};
    }

    /** `scheduleUnban` after its sleep. */
    method Lifted(l: Lift) returns (existed: bool)
      requires Enabled(Snapshot(), Fire(l))
      modifies this
      ensures Snapshot() == Step(old(Snapshot()), Fire(l))
      ensures existed <==> l.key in old(bans)
    {
      lifts := lifts - multiset{l};
      existed := l.key in bans;
      if existed {
        bans := bans - {l.key};
      } else {
        assert bans - {l.key} == bans;
      }
    }

    /** `ManualUnban`: false when there was no ban. The goroutine stays. */
    method ManualUnban(key: Key) returns (existed: bool)
      modifies this
      ensures Snapshot() == Step(old(Snapshot()), Unban(key))
      ensures existed <==> key in old(bans)
    {
      existed := key in bans;
      if existed {
        bans := bans - {key};
      } else {
        assert bans - {key} == bans;
      }
    }
  }

  // ---- Every banned key will be lifted ----

  /** A goroutine that will lift an entry expiring at `expires` in time, up to the scheduling lag. */
  predicate InTime(l: Lift, expires: nat, lag: nat) {
    match l
    case Spawned(_, read, wait) => read + wait <= expires
    case Asleep(_, due) => due <= expires + lag
  }

  ghost predicate Covered(s: State, k: Key)
    requires k in s.bans
  {
    exists l :: l in s.lifts && l.key == k && InTime(l, s.bans[k], s.lag)
  }

  ghost predicate Sound(s: State) {
    && (forall l :: l in s.lifts && l.Spawned? ==> l.read <= s.now)
    && forall k :: k in s.bans ==> Covered(s, k)
  }

  lemma {:induction false} KeepsCover(s: State, t: State, k: Key)
    requires k in s.bans && Covered(s, k) && k in t.bans && t.bans[k] == s.bans[k] && t.lag >= s.lag
    requires forall l :: l in s.lifts && l.key == k ==> l in t.lifts
    ensures Covered(t, k)
  {
    var l :| l in s.lifts && l.key == k && InTime(l, s.bans[k], s.lag);
    assert l in t.lifts;
  }

  lemma {:induction false} BeginKeepsCover(s: State, l: Lift, k: Key)
    requires Enabled(s, Begin(l)) && k in s.bans && Covered(s, k)
    ensures Covered(Step(s, Begin(l)), k)
  {
    var t := Step(s, Begin(l));
    var m :| m in s.lifts && m.key == k && InTime(m, s.bans[k], s.lag);
    if m == l {
      assert Asleep(k, s.now + l.wait) in t.lifts;
    } else {
      assert m in t.lifts;
    }
  }

  /** Every step, manual unbans included, keeps a timely unban pending for every banned key. */
  lemma {:induction false} StepSound(s: State, op: Op)
    requires Sound(s) && Enabled(s, op)
    ensures Sound(Step(s, op))
  {
    var t := Step(s, op);
    forall k | k in t.bans
      ensures Covered(t, k)
    {
      if k !in s.bans {
        assert Spawned(k, op.read, BAN_COOLDOWN) in t.lifts;
      } else if op.Begin? {
        BeginKeepsCover(s, op.lift, k);
      } else {
        KeepsCover(s, t, k);
      }
    }
  }

  lemma {:induction false} RunSound(s: State, ops: seq<Op>)
    requires Sound(s) && Legal(s, ops)
    ensures Sound(Run(s, ops))
    decreases ops
  {
    if ops != [] {
      StepSound(s, ops[0]);
      RunSound(Step(s, ops[0]), ops[1..]);
    }
  }

  // ---- Without a manual unban of the key: exactly one goroutine, never early ----

  /** The goroutine belongs to the entry expiring at `expires`, neither early nor later than the lag. */
  predicate Matches(l: Lift, expires: nat, lag: nat) {
    match l
    case Spawned(_, read, wait) => read + wait == expires
    case Asleep(_, due) => expires <= due <= expires + lag
  }

  /** One goroutine, matching the entry, if the key is banned; none otherwise. */
  ghost predicate Unmeddled(s: State, k: Key) {
    if k in s.bans then exists l :: OnlyLift(s, k, l) else forall l :: l in s.lifts ==> l.key != k
  }

  /** `l` is the only goroutine of `k`, there once, and belongs to its entry. */
  ghost predicate OnlyLift(s: State, k: Key, l: Lift)
    requires k in s.bans
  {
    && l.key == k && s.lifts[l] == 1 && Matches(l, s.bans[k], s.lag) && (l.Spawned? ==> l.read <= s.now)
    && forall m :: m in s.lifts && m.key == k ==> m == l
  }

  lemma {:induction false} LoadOne(s: State, e: BanRecord, read: nat, k: Key)
    requires Unmeddled(s, e.key) && Unmeddled(s, k) && e.key !in s.bans && read >= s.now
    ensures Unmeddled(Admit(s, e, read), k)
    ensures k in Admit(s, e, read).bans && k != e.key && Covered(s, k) ==> Covered(Admit(s, e, read), k)
    ensures Covered(Admit(s, e, read), e.key)
  {
    var l, t := Spawned(e.key, read, e.expiresAt - read), Admit(s, e, read);
    assert l in t.lifts;
    if k == e.key {
      assert OnlyLift(t, k, l);
    } else if k in t.bans {
      var m :| OnlyLift(s, k, m);
      assert OnlyLift(t, k, m);
      if Covered(s, k) {
        KeepsCover(s, t, k);
      }
    }
  }

  /** Sound, and no key has a leftover goroutine. */
  ghost predicate Tidy(s: State) {
    Sound(s) && forall k :: Unmeddled(s, k)
  }

  /** One loaded entry with its goroutine. */
  function Admit(s: State, e: BanRecord, read: nat): State {
    s.(now := read, bans := s.bans[e.key := e.expiresAt], lifts := s.lifts + multiset{Spawned(e.key, read, e.expiresAt - read)})
  }

  lemma {:induction false} LoadOneMore(s: State, e: BanRecord, read: nat)
    requires Tidy(s) && e.key !in s.bans && read >= s.now
    ensures Tidy(Admit(s, e, read))
  {
    forall k
      ensures Unmeddled(Admit(s, e, read), k)
      ensures k in Admit(s, e, read).bans ==> Covered(Admit(s, e, read), k)
    {
      LoadOne(s, e, read, k);
    }
  }

  lemma {:induction false} LaterIsTidy(s: State, read: nat)
    requires Tidy(s) && read >= s.now
    ensures Tidy(s.(now := read))
  {
    var t := s.(now := read);
    forall k
      ensures Unmeddled(t, k)
      ensures k in t.bans ==> Covered(t, k)
    {
      assert Unmeddled(s, k);
      if k in s.bans {
        KeepsCover(s, t, k);
        var m :| OnlyLift(s, k, m);
        assert OnlyLift(t, k, m);
      }
    }
  }

  /** Loading bans exactly the entries that have not expired. */
  lemma {:induction false} LoadedBans(entries: seq<BanRecord>, at: nat, clocks: seq<nat>)
    requires KeysDistinct(entries) && |clocks| == |entries|
    ensures forall i :: 0 <= i < |entries| ==> LoadedAs(Loaded(entries, at, clocks).bans, entries[i], at)
    ensures forall k :: k in Loaded(entries, at, clocks).bans ==> exists i :: 0 <= i < |entries| && entries[i].key == k
  {
    if entries != [] {
      var n := |entries| - 1;
      LoadedBans(entries[..n], at, clocks[..n]);
      assert forall i :: 0 <= i < n ==> entries[..n][i] == entries[i];
    }
  }

  /** Loading leaves every banned key with exactly one goroutine, in time. */
  lemma {:induction false} LoadedIsTidy(entries: seq<BanRecord>, at: nat, clocks: seq<nat>)
    requires KeysDistinct(entries) && |clocks| == |entries| && Readings(clocks, at)
    ensures Tidy(Loaded(entries, at, clocks))
  {
    if entries != [] {
      var n := |entries| - 1;
      LoadedIsTidy(entries[..n], at, clocks[..n]);
      var s := Loaded(entries[..n], at, clocks[..n]);
      assert s.now <= clocks[n];
      if entries[n].expiresAt >= at {
        LoadedBans(entries[..n], at, clocks[..n]);
        assert entries[n].key !in s.bans;
        LoadOneMore(s, entries[n], clocks[n]);
      } else {
        LaterIsTidy(s, clocks[n]);
      }
    }
  }

  lemma {:induction false} BeginUnmeddled(s: State, l: Lift, k: Key)
    requires Unmeddled(s, k) && Enabled(s, Begin(l))
    ensures Unmeddled(Step(s, Begin(l)), k)
  {
    var t, m := Step(s, Begin(l)), Asleep(l.key, s.now + l.wait);
    assert forall x :: t.lifts[x] == s.lifts[x] - (if x == l then 1 else 0) + (if x == m then 1 else 0);
    if k in s.bans {
      var only :| OnlyLift(s, k, only);
      if l.key == k {
        assert OnlyLift(t, k, m);
      } else {
        assert OnlyLift(t, k, only);
      }
    }
  }

  lemma {:induction false} FireUnmeddled(s: State, l: Lift, k: Key)
    requires Unmeddled(s, k) && Enabled(s, Fire(l))
    ensures Unmeddled(Step(s, Fire(l)), k)
    ensures k in s.bans && l.key == k ==> s.now >= s.bans[k]
  {
    var t := Step(s, Fire(l));
    assert forall x :: t.lifts[x] == s.lifts[x] - (if x == l then 1 else 0);
    if k in s.bans {
      var only :| OnlyLift(s, k, only);
      if l.key != k {
        assert OnlyLift(t, k, only);
      }
    }
  }

  lemma {:induction false} BanUnmeddled(s: State, key: Key, read: nat, k: Key)
    requires Unmeddled(s, k) && Enabled(s, Ban(key, read))
    ensures Unmeddled(Step(s, Ban(key, read)), k)
  {
    var t, l := Step(s, Ban(key, read)), Spawned(key, read, BAN_COOLDOWN);
    if key !in s.bans {
      assert forall x :: t.lifts[x] == s.lifts[x] + (if x == l then 1 else 0);
      if k == key {
        assert OnlyLift(t, k, l);
      } else if k in s.bans {
        var only :| OnlyLift(s, k, only);
        assert OnlyLift(t, k, only);
      }
    }
  }

  lemma {:induction false} StepUnmeddled(s: State, op: Op, k: Key)
    requires Unmeddled(s, k) && Enabled(s, op) && op != Unban(k)
    ensures Unmeddled(Step(s, op), k)
    ensures k in s.bans && k !in Step(s, op).bans ==> s.now >= s.bans[k]
  {
    match op
    case Ban(key, read) => BanUnmeddled(s, key, read, k);
    case Begin(l) => BeginUnmeddled(s, l, k);
    case Fire(l) => FireUnmeddled(s, l, k);
    case Tick(_) =>
      if k in s.bans {
        var only :| OnlyLift(s, k, only);
        assert OnlyLift(Step(s, op), k, only);
      }
    case Unban(_) =>
      if k in s.bans {
        var only :| OnlyLift(s, k, only);
        assert OnlyLift(Step(s, op), k, only);
      }
  }

  /** The run lifts a ban of `k` before it expires. */
  ghost predicate LiftsEarly(s: State, ops: seq<Op>, k: Key)
    requires Legal(s, ops)
    decreases ops
  {
    ops != [] &&
    var t := Step(s, ops[0]);
    (k in s.bans && k !in t.bans && s.now < s.bans[k]) || LiftsEarly(t, ops[1..], k)
  }

  /** In a run without a manual unban of `k`, a ban of `k` is never lifted early and exactly one
      goroutine stands behind it. */
  lemma {:induction false} NeverEarly(s: State, ops: seq<Op>, k: Key)
    requires Unmeddled(s, k) && Legal(s, ops) && Unban(k) !in ops
    ensures Unmeddled(Run(s, ops), k) && !LiftsEarly(s, ops, k)
    decreases ops
  {
    if ops != [] {
      assert ops[0] in ops && forall op :: op in ops[1..] ==> op in ops;
      StepUnmeddled(s, ops[0], k);
      NeverEarly(Step(s, ops[0]), ops[1..], k);
    }
  }

  // ---- With one: a goroutine left over from an unbanned entry ----

  /** A goroutine of `k` can wake before `expires`. */
  predicate Stale(s: State, k: Key, expires: nat, l: Lift) {
    l.key == k && match l
                  case Spawned(_, _, wait) => s.now + wait < expires
                  case Asleep(_, due) => due < expires
  }

  ghost predicate NoneStale(s: State, k: Key, expires: nat) {
    forall l :: l in s.lifts ==> !Stale(s, k, expires, l)
  }

  lemma {:induction false} StepNoneStale(s: State, op: Op, k: Key, expires: nat)
    requires k in s.bans && s.bans[k] == expires && NoneStale(s, k, expires) && Enabled(s, op)
    ensures NoneStale(Step(s, op), k, expires)
  {
    var t := Step(s, op);
    forall l | l in t.lifts
      ensures !Stale(t, k, expires, l)
    {
      if l in s.lifts {
        assert !Stale(s, k, expires, l);
      } else if op.Begin? {
        assert l == Asleep(op.lift.key, s.now + op.lift.wait);
        assert !Stale(s, k, expires, op.lift);
      }
    }
  }

  lemma {:induction false} StepStaysBanned(s: State, op: Op, k: Key, expires: nat)
    requires k in s.bans && s.bans[k] == expires && NoneStale(s, k, expires) && Enabled(s, op)
    requires op != Unban(k) && s.now < expires
    ensures k in Step(s, op).bans && Step(s, op).bans[k] == expires
  {
    if op.Fire? {
      assert !Stale(s, k, expires, op.lift);
    }
  }

  /** As long as no stale goroutine exists, a ban stays until it expires. */
  lemma {:induction false} StaysBanned(s: State, ops: seq<Op>, k: Key, expires: nat)
    requires k in s.bans && s.bans[k] == expires && NoneStale(s, k, expires)
    requires Legal(s, ops) && Unban(k) !in ops && Run(s, ops).now < expires
    ensures k in Run(s, ops).bans && Run(s, ops).bans[k] == expires
    decreases ops
  {
    if ops != [] {
      assert ops[0] in ops && forall op :: op in ops[1..] ==> op in ops;
      ClockGrows(s, ops);
      StepNoneStale(s, ops[0], k, expires);
      StepStaysBanned(s, ops[0], k, expires);
      StaysBanned(Step(s, ops[0]), ops[1..], k, expires);
    }
  }

  lemma {:induction false} ClockGrows(s: State, ops: seq<Op>)
    requires Legal(s, ops)
    ensures s.now <= Run(s, ops).now
    decreases ops
  {
    if ops != [] {
      ClockGrows(Step(s, ops[0]), ops[1..]);
    }
  }

  /** Some continuation without a manual unban of `k` ends with the ban lifted before it expires. */
  ghost predicate CanLoseEarly(s: State, k: Key, expires: nat) {
    exists ops :: Legal(s, ops) && Unban(k) !in ops && k !in Run(s, ops).bans && Run(s, ops).now < expires
  }

  lemma {:induction false} Cons(s: State, op: Op, ops: seq<Op>)
    requires Enabled(s, op) && Legal(Step(s, op), ops)
    ensures Legal(s, [op] + ops) && Run(s, [op] + ops) == Run(Step(s, op), ops)
    ensures forall k :: LiftsEarly(Step(s, op), ops, k) ==> LiftsEarly(s, [op] + ops, k)
  {
    assert ([op] + ops)[1..] == ops;
  }

  lemma {:induction false} StaleFires(s: State, k: Key, l: Lift)
    requires l in s.lifts && l.Asleep? && l.key == k
    ensures var ops := [Tick(Max(s.now, l.due))] + ([Fire(l)] + []);
            Legal(s, ops) && Unban(k) !in ops && k !in Run(s, ops).bans && Run(s, ops).now == Max(s.now, l.due)
  {
    var t := Step(s, Tick(Max(s.now, l.due)));
    Cons(t, Fire(l), []);
    Cons(s, Tick(Max(s.now, l.due)), [Fire(l)] + []);
  }

  /** A new ban of `k` holds until it expires, in every run without a manual unban of `k`, exactly when
      no goroutine left over from an earlier entry of `k` can wake before then. */
  lemma {:induction false} LostEarlyIffStale(s: State, k: Key)
    requires k in s.bans && s.now < s.bans[k] && forall l :: l in s.lifts && l.Spawned? ==> l.read <= s.now
    ensures CanLoseEarly(s, k, s.bans[k]) <==> exists l :: l in s.lifts && Stale(s, k, s.bans[k], l)
  {
    var expires := s.bans[k];
    if l :| l in s.lifts && Stale(s, k, expires, l) {
      if l.Asleep? {
        StaleFires(s, k, l);
      } else {
        var t := Step(s, Begin(l));
        var m := Asleep(k, s.now + l.wait);
        assert m in t.lifts;
        StaleFires(t, k, m);
        Cons(s, Begin(l), [Tick(Max(t.now, m.due))] + ([Fire(m)] + []));
      }
    } else {
      forall ops | Legal(s, ops) && Unban(k) !in ops && Run(s, ops).now < expires
        ensures k in Run(s, ops).bans
      {
        StaysBanned(s, ops, k, expires);
      }
    }
  }

  /** The state after a ban of `k` that starts sleeping at once, a manual unban and a second ban. */
  function Rebanned(s: State, k: Key, banAt: nat): State {
    var l := Asleep(k, s.now + BAN_COOLDOWN);
    State(banAt, s.bans[k := banAt + BAN_COOLDOWN], s.lifts + multiset{l} + multiset{Spawned(k, banAt, BAN_COOLDOWN)}, s.lag)
  }

  lemma {:induction false} RebannedReached(s: State, k: Key, unbanAt: nat, banAt: nat)
    requires k !in s.bans && (forall l :: l in s.lifts ==> l.key != k) && s.now <= unbanAt <= banAt
    ensures var l := Spawned(k, s.now, BAN_COOLDOWN);
            var ops := [Ban(k, s.now)] + ([Begin(l)] + ([Tick(unbanAt)] + ([Unban(k)] + ([Tick(banAt)] + ([Ban(k, banAt)] + [])))));
            Legal(s, ops) && Run(s, ops) == Rebanned(s, k, banAt)
  {
    var l, m := Spawned(k, s.now, BAN_COOLDOWN), Asleep(k, s.now + BAN_COOLDOWN);
    var s1 := Step(s, Ban(k, s.now));
    var s2 := Step(s1, Begin(l));
    assert s2.lifts == s.lifts + multiset{m};
    var s3 := Step(s2, Tick(unbanAt));
    var s4 := Step(s3, Unban(k));
    assert s4.bans == s.bans;
    var s5 := Step(s4, Tick(banAt));
    assert Step(s5, Ban(k, banAt)) == Rebanned(s, k, banAt);
    Cons(s5, Ban(k, banAt), []);
    Cons(s4, Tick(banAt), [Ban(k, banAt)] + []);
    Cons(s3, Unban(k), [Tick(banAt)] + ([Ban(k, banAt)] + []));
    Cons(s2, Tick(unbanAt), [Unban(k)] + ([Tick(banAt)] + ([Ban(k, banAt)] + [])));
    Cons(s1, Begin(l), [Tick(unbanAt)] + ([Unban(k)] + ([Tick(banAt)] + ([Ban(k, banAt)] + []))));
    Cons(s, Ban(k, s.now), [Begin(l)] + ([Tick(unbanAt)] + ([Unban(k)] + ([Tick(banAt)] + ([Ban(k, banAt)] + [])))));
  }

  /** Over the calls: a key banned, unbanned by hand and banned again can lose the second ban early exactly
      when it was banned again at any later time than the first. */
  lemma {:induction false} RebanLostIff(s: State, k: Key, banAt: nat)
    requires k !in s.bans && (forall l :: l in s.lifts ==> l.key != k) && s.now <= banAt
    requires forall l :: l in s.lifts && l.Spawned? ==> l.read <= s.now
    ensures CanLoseEarly(Rebanned(s, k, banAt), k, banAt + BAN_COOLDOWN) <==> s.now < banAt
  {
    var t, l := Rebanned(s, k, banAt), Asleep(k, s.now + BAN_COOLDOWN);
    assert l in t.lifts;
    assert forall m :: m in t.lifts && m.key == k ==> m == l || m == Spawned(k, banAt, BAN_COOLDOWN);
    LostEarlyIffStale(t, k);
    if s.now < banAt {
      assert Stale(t, k, banAt + BAN_COOLDOWN, l);
    }
  }

  // ---- When every goroutine runs at once ----

  /** The clock does not pass a goroutine that has yet to run, and a ban is stamped under the lock, behind
      the goroutines that are due. */
  predicate AtOnce(s: State, op: Op) {
    match op
    case Tick(to) => forall l :: l in s.lifts ==> l.Asleep? && to <= l.due
    case Ban(_, read) => read == s.now && forall l :: l in s.lifts && l.Asleep? ==> s.now < l.due
    case _ => true
  }

  ghost predicate Prompt(s: State, ops: seq<Op>)
    requires Legal(s, ops)
    decreases ops
  {
    ops == [] || (AtOnce(s, ops[0]) && Prompt(Step(s, ops[0]), ops[1..]))
  }

  /** The run takes `k` out of the ban set while the clock is before `time`. */
  ghost predicate LiftsBefore(s: State, ops: seq<Op>, k: Key, time: nat)
    requires Legal(s, ops)
    decreases ops
  {
    ops != [] &&
    var t := Step(s, ops[0]);
    (k in s.bans && k !in t.bans && s.now < time) || LiftsBefore(t, ops[1..], k, time)
  }

  lemma {:induction false} NoneAfter(s: State, ops: seq<Op>, k: Key, time: nat)
    requires Legal(s, ops) && time <= s.now
    ensures !LiftsBefore(s, ops, k, time)
    decreases ops
  {
    if ops != [] {
      NoneAfter(Step(s, ops[0]), ops[1..], k, time);
    }
  }

  lemma {:induction false} NotBefore(s: State, ops: seq<Op>, k: Key, expires: nat)
    requires k in s.bans && s.bans[k] == expires && NoneStale(s, k, expires) && Legal(s, ops) && Unban(k) !in ops
    ensures !LiftsBefore(s, ops, k, expires)
    decreases ops
  {
    if s.now >= expires {
      NoneAfter(s, ops, k, expires);
    } else if ops != [] {
      assert ops[0] in ops && forall op :: op in ops[1..] ==> op in ops;
      StepNoneStale(s, ops[0], k, expires);
      StepStaysBanned(s, ops[0], k, expires);
      NotBefore(Step(s, ops[0]), ops[1..], k, expires);
    }
  }

  /** Run at once, a step either lets the stale goroutine fire or leaves it stale. */
  lemma {:induction false} StaleStep(s: State, op: Op, k: Key, expires: nat, l: Lift) returns (m: Lift)
    requires k in s.bans && s.now < expires && l in s.lifts && Stale(s, k, expires, l)
    requires Enabled(s, op) && AtOnce(s, op) && op != Unban(k)
    ensures var t := Step(s, op); k in t.bans ==> t.now < expires && m in t.lifts && Stale(t, k, expires, m)
  {
    m := if op == Begin(l) then Asleep(k, s.now + l.wait) else l;
    var t := Step(s, op);
    if k in t.bans {
      assert op != Fire(l);
      assert m in t.lifts;
    }
  }

  lemma {:induction false} StaleWins(s: State, ops: seq<Op>, k: Key, expires: nat, l: Lift)
    requires k in s.bans && s.now < expires && l in s.lifts && Stale(s, k, expires, l)
    requires Legal(s, ops) && Prompt(s, ops) && Unban(k) !in ops && expires <= Run(s, ops).now
    ensures LiftsBefore(s, ops, k, expires)
    decreases ops
  {
    assert ops != [];
    assert ops[0] in ops && forall op :: op in ops[1..] ==> op in ops;
    var m := StaleStep(s, ops[0], k, expires, l);
    var t := Step(s, ops[0]);
    if k in t.bans {
      StaleWins(t, ops[1..], k, expires, m);
    }
  }

  /** The goroutine left over at `due` is the only one of `k`; it runs at its time, not before. */
  ghost predicate Leftover(s: State, k: Key, due: nat) {
    && (forall m :: m in s.lifts && m.key == k ==> m == Asleep(k, due))
    && if Asleep(k, due) in s.lifts then s.lifts[Asleep(k, due)] == 1 && s.now <= due else due <= s.now
  }

  predicate Bans(op: Op, k: Key) {
    op.Ban? && op.key == k
  }

  lemma {:induction false} LeftoverStep(s: State, op: Op, k: Key, due: nat)
    requires Leftover(s, k, due) && Enabled(s, op) && AtOnce(s, op) && !Bans(op, k)
    ensures Leftover(Step(s, op), k, due)
  {
    var t, l := Step(s, op), Asleep(k, due);
    match op {
      case Begin(x) => assert forall m :: m in t.lifts && m !in s.lifts ==> m.key == x.key;
      case _ => assert forall m :: m in t.lifts && m.key == k ==> m in s.lifts;
    }
  }

  lemma {:induction false} LeftoverRun(s: State, ops: seq<Op>, k: Key, due: nat)
    requires Leftover(s, k, due) && Legal(s, ops) && Prompt(s, ops) && forall i :: 0 <= i < |ops| ==> !Bans(ops[i], k)
    ensures Leftover(Run(s, ops), k, due)
    decreases ops
  {
    if ops != [] {
      LeftoverStep(s, ops[0], k, due);
      LeftoverRun(Step(s, ops[0]), ops[1..], k, due);
    }
  }

  /** The state after a ban of `k` whose goroutine falls asleep at once. */
  function FirstBan(s: State, k: Key): State
    requires k !in s.bans
  {
    Step(Step(s, Ban(k, s.now)), Begin(Spawned(k, s.now, BAN_COOLDOWN)))
  }

  lemma {:induction false} FirstBanLeaves(s: State, k: Key)
    requires k !in s.bans && forall l :: l in s.lifts ==> l.key != k
    ensures Leftover(FirstBan(s, k), k, s.now + BAN_COOLDOWN)
  {
    assert FirstBan(s, k).lifts == s.lifts + multiset{Asleep(k, s.now + BAN_COOLDOWN)};
  }

  ghost predicate SomeStale(s: State, k: Key, expires: nat) {
    exists l :: l in s.lifts && Stale(s, k, expires, l)
  }

  /** `u` is the state after banning `k`, which was not banned in `t`. */
  ghost predicate BannedNow(t: State, u: State, k: Key) {
    k !in t.bans && AtOnce(t, Ban(k, t.now)) && u == Step(t, Ban(k, t.now))
  }

  /** At the second ban the leftover goroutine is stale exactly within the hour. */
  lemma {:induction false} LeftoverStale(t: State, u: State, k: Key, first: nat)
    requires first <= t.now && BannedNow(t, u, k) && Leftover(t, k, first + BAN_COOLDOWN)
    ensures SomeStale(u, k, t.now + BAN_COOLDOWN) <==> first < t.now < first + BAN_COOLDOWN
  {
    var l := Asleep(k, first + BAN_COOLDOWN);
    assert l in u.lifts <==> l in t.lifts;
    assert forall m :: m in u.lifts && m.key == k ==> m == l || m == Spawned(k, t.now, BAN_COOLDOWN);
  }

  /** A prompt run without a manual unban of `k` that lasts until `time`. */
  ghost predicate PromptUntil(s: State, ops: seq<Op>, k: Key, time: nat) {
    Legal(s, ops) && Prompt(s, ops) && Unban(k) !in ops && time <= Run(s, ops).now
  }

  /** A prompt run that does not ban `k`. */
  ghost predicate PromptWithoutBan(s: State, ops: seq<Op>, k: Key) {
    Legal(s, ops) && Prompt(s, ops) && forall i :: 0 <= i < |ops| ==> !Bans(ops[i], k)
  }

  /** In a prompt run a ban is lost early exactly when a goroutine is stale. */
  lemma {:induction false} PromptLostIff(s: State, ops: seq<Op>, k: Key, expires: nat)
    requires k in s.bans && s.bans[k] == expires && s.now < expires && PromptUntil(s, ops, k, expires)
    ensures LiftsBefore(s, ops, k, expires) <==> SomeStale(s, k, expires)
  {
    if l :| l in s.lifts && Stale(s, k, expires, l) {
      StaleWins(s, ops, k, expires, l);
    } else {
      NotBefore(s, ops, k, expires);
    }
  }

  lemma {:induction false} BannedLostIff(t: State, u: State, ops: seq<Op>, k: Key)
    requires BannedNow(t, u, k) && PromptUntil(u, ops, k, t.now + BAN_COOLDOWN)
    ensures LiftsBefore(u, ops, k, t.now + BAN_COOLDOWN) <==> SomeStale(u, k, t.now + BAN_COOLDOWN)
  {
    PromptLostIff(u, ops, k, t.now + BAN_COOLDOWN);
  }

  lemma {:induction false} LeftoverAtReban(s: State, k: Key, between: seq<Op>)
    requires k !in s.bans && (forall l :: l in s.lifts ==> l.key != k) && PromptWithoutBan(FirstBan(s, k), between, k)
    ensures var t := Run(FirstBan(s, k), between); s.now <= t.now && Leftover(t, k, s.now + BAN_COOLDOWN)
  {
    FirstBanLeaves(s, k);
    LeftoverRun(FirstBan(s, k), between, k, s.now + BAN_COOLDOWN);
    ClockGrows(FirstBan(s, k), between);
  }

  /** When goroutines run at once, a key that is banned, loses that ban and is banned again loses the second
      ban before its hour is over exactly when the second ban came later than the first, but within an hour of
      it: in every such run that lasts that hour. */
  lemma {:induction false} RebanMustBeLostIff(s: State, k: Key, between: seq<Op>, ops: seq<Op>, t: State, u: State)
    requires k !in s.bans && (forall l :: l in s.lifts ==> l.key != k) && PromptWithoutBan(FirstBan(s, k), between, k)
    requires t == Run(FirstBan(s, k), between) && BannedNow(t, u, k) && PromptUntil(u, ops, k, t.now + BAN_COOLDOWN)
    ensures LiftsBefore(u, ops, k, t.now + BAN_COOLDOWN) <==> s.now < t.now < s.now + BAN_COOLDOWN
  {
    LeftoverAtReban(s, k, between);
    LeftoverStale(t, u, k, s.now);
    BannedLostIff(t, u, ops, k);
  }

  const HALF_HOUR := 1_800_000_000_000

  /** A key banned at 0 and unbanned by hand after half an hour: its goroutine still sleeps. */
  function AfterUnban(k: Key): State {
    State(HALF_HOUR, map[], multiset{Asleep(k, BAN_COOLDOWN)}, 0)
  }

  lemma {:induction false} AfterUnbanReached(k: Key, ops: seq<Op>)
    requires Legal(AfterUnban(k), ops) && LiftsEarly(AfterUnban(k), ops, k)
    ensures var s := State(0, map[], multiset{}, 0);
            var all := [Ban(k, 0)] + ([Begin(Spawned(k, 0, BAN_COOLDOWN))] + ([Tick(HALF_HOUR)] + ([Unban(k)] + ops)));
            Legal(s, all) && LiftsEarly(s, all, k)
  {
    var l := Spawned(k, 0, BAN_COOLDOWN);
    var s := State(0, map[], multiset{}, 0);
    var s1 := State(0, map[k := BAN_COOLDOWN], multiset{l}, 0);
    var s2 := State(0, map[k := BAN_COOLDOWN], multiset{Asleep(k, BAN_COOLDOWN)}, 0);
    var s3 := s2.(now := HALF_HOUR);
    assert Step(s, Ban(k, 0)) == s1 && Step(s1, Begin(l)) == s2 && Step(s2, Tick(HALF_HOUR)) == s3;
    assert Step(s3, Unban(k)) == AfterUnban(k);
    Cons(s3, Unban(k), ops);
    Cons(s2, Tick(HALF_HOUR), [Unban(k)] + ops);
    Cons(s1, Begin(l), [Tick(HALF_HOUR)] + ([Unban(k)] + ops));
    Cons(s, Ban(k, 0), [Begin(l)] + ([Tick(HALF_HOUR)] + ([Unban(k)] + ops)));
  }

  /** The hypothesis is needed: ban, unban and ban again, and the first goroutine lifts the second ban
      after half of its hour. */
  lemma {:induction false} LeftoverGoroutineExample(k: Key)
    ensures exists ops :: var s := State(0, map[], multiset{}, 0); Legal(s, ops) && LiftsEarly(s, ops, k)
  {
    var s4, l := AfterUnban(k), Asleep(k, BAN_COOLDOWN);
    var s5 := Step(s4, Ban(k, HALF_HOUR));
    var s6 := Step(s5, Tick(BAN_COOLDOWN));
    Cons(s6, Fire(l), []);
    assert LiftsEarly(s6, [Fire(l)] + [], k);
    Cons(s5, Tick(BAN_COOLDOWN), [Fire(l)] + []);
    Cons(s4, Ban(k, HALF_HOUR), [Tick(BAN_COOLDOWN)] + ([Fire(l)] + []));
    AfterUnbanReached(k, [Ban(k, HALF_HOUR)] + ([Tick(BAN_COOLDOWN)] + ([Fire(l)] + [])));
  }
}
