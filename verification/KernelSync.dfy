/** The ban set and the kernel's ban map. Every change of the set starts a goroutine of its own that
    makes the matching kernel call, so calls of one key may overtake each other. */
module KernelSync {
  import opened Basics

  /** A kernel call not yet made: `number` counts the changes of its key. */
  datatype Call = Call(key: Key, ban: bool, number: nat)

  /** `issued` and `applied` are history: how often a key changed, and which of its calls was made last. */
  datatype State = State(bans: set<Key>, kernel: set<Key>, pending: set<Call>, issued: map<Key, nat>, applied: map<Key, nat>)

  const INITIAL := State({}, {}, {}, map[], map[])

  function Get(m: map<Key, nat>, k: Key): nat {
    if k in m then m[k] else 0
  }

  /** `Lift` is a waking `scheduleUnban` or a `ManualUnban`; `Apply` is a goroutine making its call. */
  datatype Step = Ban(key: Key) | Lift(key: Key) | Apply(call: Call)

  function Issue(s: State, k: Key, ban: bool): State {
    var n := Get(s.issued, k) + 1;
    s.(bans := if ban then s.bans + {k} else s.bans - {k}, pending := s.pending + {Call(k, ban, n)}, issued := s.issued[k := n])
  }

  function Made(s: State, c: Call): State {
    s.(kernel := if c.ban then s.kernel + {c.key} else s.kernel - {c.key}, pending := s.pending - {c},
       applied := s.applied[c.key := c.number])
  }

  function Next(s: State, step: Step): State {
    match step
    case Ban(k) => if k in s.bans then s else Issue(s, k, true)
    case Lift(k) => if k in s.bans then Issue(s, k, false) else s
    case Apply(c) => if c in s.pending then Made(s, c) else s
  }

  datatype Run = Start | Then(run: Run, step: Step)

  function After(r: Run): State {
    match r
    case Start => INITIAL
    case Then(q, step) => Next(After(q), step)
  }

  /** Changes of a key alternate, beginning with a ban, and each call matches its change. */
  ghost predicate Counted(s: State, k: Key) {
    && (k in s.bans <==> Get(s.issued, k) % 2 == 1)
    && (k in s.kernel <==> Get(s.applied, k) % 2 == 1)
    && Get(s.applied, k) <= Get(s.issued, k)
    && (forall c :: c in s.pending && c.key == k ==> 1 <= c.number <= Get(s.issued, k) && (c.ban <==> c.number % 2 == 1))
  }

  lemma {:induction false} CountedStep(s: State, step: Step, k: Key)
    requires Counted(s, k)
    ensures Counted(Next(s, step), k)
  {
  }

  lemma {:induction false} RunCounted(r: Run, k: Key)
    ensures Counted(After(r), k)
  {
    match r
    case Start =>
    case Then(q, step) =>
      RunCounted(q, k);
      CountedStep(After(q), step, k);
  }

  /** In every reachable state the kernel agrees with the ban set on a key exactly when an even number of
      changes lies between the call made last and the last change. */
  lemma {:induction false} AgreeIff(r: Run, k: Key)
    ensures var s := After(r);
            (k in s.kernel <==> k in s.bans) <==> (Get(s.issued, k) - Get(s.applied, k)) % 2 == 0
  {
    RunCounted(r, k);
  }

  // ---- Calls made in order ----

  /** No call of `k` is made before an earlier one. */
  predicate InOrder(r: Run, k: Key) {
    match r
    case Start => true
    case Then(q, step) =>
      && InOrder(q, k)
      && (step.Apply? && step.call.key == k ==> forall c :: c in After(q).pending && c.key == k ==> step.call.number <= c.number)
  }

  ghost predicate IsPending(s: State, k: Key, n: nat) {
    exists c :: c in s.pending && c.key == k && c.number == n
  }

  /** The calls behind the last one made are exactly those pending. */
  ghost predicate Queued(s: State, k: Key) {
    && (forall c :: c in s.pending && c.key == k ==> Get(s.applied, k) < c.number)
    && (forall c, d :: c in s.pending && d in s.pending && c.key == k && d.key == k && c.number == d.number ==> c == d)
    && (forall n: nat :: Get(s.applied, k) < n <= Get(s.issued, k) ==> IsPending(s, k, n))
  }

  lemma {:induction false} QueuedIssue(s: State, j: Key, ban: bool, k: Key)
    requires Counted(s, k) && Queued(s, k)
    ensures Queued(Issue(s, j, ban), k)
  {
    var t := Issue(s, j, ban);
    assert Call(j, ban, Get(s.issued, j) + 1) in t.pending;
    forall n: nat | Get(t.applied, k) < n <= Get(t.issued, k)
      ensures IsPending(t, k, n)
    {
      if n <= Get(s.issued, k) {
        assert IsPending(s, k, n);
        var c :| c in s.pending && c.key == k && c.number == n;
        assert c in t.pending;
      }
    }
  }

  lemma {:induction false} QueuedMade(s: State, call: Call, k: Key)
    requires Queued(s, k) && call in s.pending
    requires call.key == k ==> forall c :: c in s.pending && c.key == k ==> call.number <= c.number
    ensures Queued(Made(s, call), k)
  {
    var t := Made(s, call);
    forall n: nat | Get(t.applied, k) < n <= Get(t.issued, k)
      ensures IsPending(t, k, n)
    {
      assert IsPending(s, k, n);
      var c :| c in s.pending && c.key == k && c.number == n;
      assert c in t.pending;
    }
  }

  lemma {:induction false} RunQueued(r: Run, k: Key)
    requires InOrder(r, k)
    ensures Queued(After(r), k)
  {
    match r
    case Start =>
    case Then(q, step) =>
      RunQueued(q, k);
      RunCounted(q, k);
      var s := After(q);
      match step
      case Ban(j) =>
        if j !in s.bans {
          QueuedIssue(s, j, true, k);
        }
      case Lift(j) =>
        if j in s.bans {
          QueuedIssue(s, j, false, k);
        }
      case Apply(c) =>
        if c in s.pending {
          QueuedMade(s, c, k);
        }
  }

  /** Calls made in order leave the kernel in agreement once all of them are made. */
  lemma {:induction false} OrderAgrees(r: Run, k: Key)
    requires InOrder(r, k) && forall c :: c in After(r).pending ==> c.key != k
    ensures k in After(r).kernel <==> k in After(r).bans
  {
    var s := After(r);
    RunCounted(r, k);
    RunQueued(r, k);
    if Get(s.applied, k) < Get(s.issued, k) {
      assert IsPending(s, k, Get(s.issued, k));
    }
  }

  /** Overtaking does not: the unban is made before the ban, and the kernel keeps an unbanned key. */
  lemma {:induction false} OvertakenBan(k: Key)
    ensures var s := After(Then(Then(Then(Then(Start, Ban(k)), Lift(k)), Apply(Call(k, false, 2))), Apply(Call(k, true, 1))));
            s.pending == {} && k !in s.bans && k in s.kernel
  {
    var s1 := After(Then(Start, Ban(k)));
    assert After(Start) == INITIAL && s1 == State({k}, {}, {Call(k, true, 1)}, map[k := 1], map[]);
    var s2 := After(Then(Then(Start, Ban(k)), Lift(k)));
    assert s2 == Next(s1, Lift(k));
    assert s2.bans == {} && s2.pending == {Call(k, true, 1), Call(k, false, 2)};
    var s3 := Next(s2, Apply(Call(k, false, 2)));
    assert s3.pending == {Call(k, true, 1)};
  }
}
