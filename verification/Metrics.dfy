/** The metrics cache: recordings, snapshot-and-clear flushes and database upserts, over every
    interleaving. A recording reads the clock before it takes the lock, so it may carry the bucket of
    an hour that a flush has already closed. */
module Metrics {
  import Basics

  /** The four metric names. */
  datatype Name = Connections | Bans | TagHits | UniqueIps

  datatype Key = Key(name: Name, labels: string, bucket: string)

  function Unique(bucket: string): Key {
    Key(UniqueIps, "", bucket)
  }

  function Get<K>(m: map<K, nat>, k: K): nat {
    if k in m then m[k] else 0
  }

  function Seen(m: map<string, set<string>>, bucket: string): set<string> {
    if bucket in m then m[bucket] else {}
  }

  /** What one flush takes along: counter deltas and unique-address counts per bucket. */
  datatype Snap = Snap(deltas: map<Key, nat>, uniques: map<string, nat>)

  /** `seen` (all addresses of a bucket) and `dropped` (the sets of a bucket that flushes have dropped) are
      history; no step looks at them. */
  datatype State = State(
    counters: map<Key, nat>, ipSets: map<string, set<string>>, dirty: bool, flying: seq<Snap>, stored: map<Key, nat>,
    seen: map<string, set<string>>, dropped: map<string, set<set<string>>>)

  const INITIAL := State(map[], map[], false, [], map[], map[], map[])

  datatype Step = Record(labels: string, tags: seq<string>, bucket: string, ip: string) | RecordBan(labels: string, bucket: string)
    | Snapshot(cur: string) | Commit(i: nat)

  // ---- Steps ----

  function TagKeys(tags: seq<string>, bucket: string): (ks: seq<Key>)
    ensures forall i :: 0 <= i < |ks| ==> ks[i].name == TagHits
  {
    if tags == [] then [] else [Key(TagHits, tags[0], bucket)] + TagKeys(tags[1..], bucket)
  }

  /** The counters a recording adds one to. */
  function KeysOf(step: Step): seq<Key> {
    match step
    case Record(labels, tags, bucket, _) => [Key(Connections, labels, bucket)] + TagKeys(tags, bucket)
    case RecordBan(labels, bucket) => [Key(Bans, labels, bucket)]
    case _ => []
  }

  function Bump(m: map<Key, nat>, k: Key): map<Key, nat> {
    m[k := Get(m, k) + 1]
  }

  function BumpAll(m: map<Key, nat>, ks: seq<Key>): map<Key, nat>
    decreases |ks|
  {
    if ks == [] then m else BumpAll(Bump(m, ks[0]), ks[1..])
  }

  function WithIp(m: map<string, set<string>>, bucket: string, ip: string): map<string, set<string>> {
    m[bucket := Seen(m, bucket) + {ip}]
  }

  function DoRecord(s: State, step: Step): State
    requires step.Record?
  {
    s.(counters := BumpAll(s.counters, KeysOf(step)), ipSets := WithIp(s.ipSets, step.bucket, step.ip), dirty := true,
       seen := WithIp(s.seen, step.bucket, step.ip))
  }

  function DoRecordBan(s: State, step: Step): State
    requires step.RecordBan?
  {
    s.(counters := BumpAll(s.counters, KeysOf(step)), dirty := true)
  }

  function Counts(m: map<string, set<string>>): map<string, nat> {
    map b | b in m :: |m[b]|
  }

  function OnlyCurrent(m: map<string, set<string>>, cur: string): map<string, set<string>> {
    map b | b in m && b == cur :: m[b]
  }

  /** The critical section of `flush`. */
  function DoSnapshot(s: State, cur: string): State {
    if !s.dirty then s
    else s.(counters := map[], ipSets := OnlyCurrent(s.ipSets, cur), dirty := false,
            flying := s.flying + [Snap(s.counters, Counts(s.ipSets))], dropped := WithDropped(s.dropped, s.ipSets, cur))
  }

  function Dropped(m: map<string, set<set<string>>>, bucket: string): set<set<string>> {
    if bucket in m then m[bucket] else {}
  }

  /** Every set but the current hour's is dropped. */
  function WithDropped(
    m: map<string, set<set<string>>>, sets: map<string, set<string>>,
    cur: string): map<string, set<set<string>>> {
    map b | b in m.Keys + sets.Keys :: Dropped(m, b) + if b in sets && b != cur then {sets[b]} else {}
  }

  function TouchedKeys(snap: Snap): set<Key> {
    snap.deltas.Keys + set b | b in snap.uniques :: Unique(b)
  }

  /** The stored table behind a successful upsert of the batch: counters add, unique counts take the maximum. */
  function Upserted(stored: map<Key, nat>, snap: Snap): map<Key, nat> {
    map k | k in stored.Keys + TouchedKeys(snap) ::
      if k in snap.deltas then Get(stored, k) + snap.deltas[k]
      else if k == Unique(k.bucket) && k.bucket in snap.uniques then Basics.Max(Get(stored, k), snap.uniques[k.bucket])
      else Get(stored, k)
  }

  function DoCommit(s: State, i: nat): State
    requires i < |s.flying|
  {
    s.(stored := Upserted(s.stored, s.flying[i]), flying := s.flying[..i] + s.flying[i + 1..])
  }

  function Next(s: State, step: Step): State {
    match step
    case Record(_, _, _, _) => DoRecord(s, step)
    case RecordBan(_, _) => DoRecordBan(s, step)
    case Snapshot(cur) => DoSnapshot(s, cur)
    case Commit(i) => if i < |s.flying| then DoCommit(s, i) else s
  }

  /** Any recordings, flushes by the loop and by `Close`, and commits, in any order. */
  datatype Run = Start | Then(run: Run, step: Step)

  function After(r: Run): State {
    match r
    case Start => INITIAL
    case Then(q, step) => Next(After(q), step)
  }

  // ---- Counters ----

  lemma {:induction false} BumpAllCount(m: map<Key, nat>, ks: seq<Key>, k: Key)
    ensures Get(BumpAll(m, ks), k) == Get(m, k) + multiset(ks)[k]
    decreases |ks|
  {
    if ks != [] {
      BumpAllCount(Bump(m, ks[0]), ks[1..], k);
      assert ks == [ks[0]] + ks[1..];
    }
  }

  function Flying(f: seq<Snap>, k: Key): nat {
    if f == [] then 0 else Get(f[0].deltas, k) + Flying(f[1..], k)
  }

  lemma {:induction false} FlyingConcat(f: seq<Snap>, g: seq<Snap>, k: Key)
    ensures Flying(f + g, k) == Flying(f, k) + Flying(g, k)
  {
    if f == [] {
      assert f + g == g;
    } else {
      assert (f + g)[1..] == f[1..] + g;
      FlyingConcat(f[1..], g, k);
    }
  }

  lemma {:induction false} FlyingSplit(f: seq<Snap>, i: nat, k: Key)
    requires i < |f|
    ensures Flying(f, k) == Flying(f[..i] + f[i + 1..], k) + Get(f[i].deltas, k)
  {
    assert f == f[..i] + ([f[i]] + f[i + 1..]);
    FlyingConcat(f[..i], [f[i]] + f[i + 1..], k);
    FlyingConcat([f[i]], f[i + 1..], k);
    FlyingConcat(f[..i], f[i + 1..], k);
    assert [f[i]][1..] == [];
  }

  /** No counter is named like the unique-address metric. */
  ghost predicate CountersOnly(m: map<Key, nat>) {
    forall k :: k in m ==> k.name != UniqueIps
  }

  ghost predicate NamesApart(s: State) {
    CountersOnly(s.counters) && forall i :: 0 <= i < |s.flying| ==> CountersOnly(s.flying[i].deltas)
  }

  lemma {:induction false} BumpAllNames(m: map<Key, nat>, ks: seq<Key>)
    requires CountersOnly(m) && forall i :: 0 <= i < |ks| ==> ks[i].name != UniqueIps
    ensures CountersOnly(BumpAll(m, ks))
    decreases |ks|
  {
    if ks != [] {
      BumpAllNames(Bump(m, ks[0]), ks[1..]);
    }
  }

  lemma {:induction false} NamesStep(s: State, step: Step)
    requires NamesApart(s)
    ensures NamesApart(Next(s, step))
  {
    if step.Record? || step.RecordBan? {
      BumpAllNames(s.counters, KeysOf(step));
    }
  }

  /** Stored, pending and in flight. */
  function Held(s: State, k: Key): nat {
    Get(s.stored, k) + Get(s.counters, k) + Flying(s.flying, k)
  }

  lemma {:induction false} HeldSnapshot(s: State, cur: string, k: Key)
    ensures Held(DoSnapshot(s, cur), k) == Held(s, k)
  {
    var snap := Snap(s.counters, Counts(s.ipSets));
    FlyingConcat(s.flying, [snap], k);
    assert [snap][1..] == [];
  }

  lemma {:induction false} HeldCommit(s: State, i: nat, k: Key)
    requires i < |s.flying| && k.name != UniqueIps
    ensures Held(DoCommit(s, i), k) == Held(s, k)
  {
    FlyingSplit(s.flying, i, k);
    assert Get(Upserted(s.stored, s.flying[i]), k) == Get(s.stored, k) + Get(s.flying[i].deltas, k);
  }

  /** Flushes and commits move counts along and keep their sum; recordings add to it. */
  lemma {:induction false} HeldStep(s: State, step: Step, k: Key)
    requires k.name != UniqueIps
    ensures Held(Next(s, step), k) == Held(s, k) + multiset(KeysOf(step))[k]
  {
    match step
    case Record(_, _, _, _) => BumpAllCount(s.counters, KeysOf(step), k);
    case RecordBan(_, _) => BumpAllCount(s.counters, KeysOf(step), k);
    case Snapshot(cur) => HeldSnapshot(s, cur, k);
    case Commit(i) =>
      if i < |s.flying| {
        HeldCommit(s, i, k);
      }
  }

  // ---- Unique addresses ----

  function Best(f: seq<Snap>, b: string): nat {
    if f == [] then 0 else Basics.Max(Get(f[0].uniques, b), Best(f[1..], b))
  }

  lemma {:induction false} BestConcat(f: seq<Snap>, g: seq<Snap>, b: string)
    ensures Best(f + g, b) == Basics.Max(Best(f, b), Best(g, b))
  {
    if f == [] {
      assert f + g == g;
    } else {
      assert (f + g)[1..] == f[1..] + g;
      BestConcat(f[1..], g, b);
    }
  }

  lemma {:induction false} BestSplit(f: seq<Snap>, i: nat, b: string)
    requires i < |f|
    ensures Best(f, b) == Basics.Max(Best(f[..i] + f[i + 1..], b), Get(f[i].uniques, b))
  {
    assert f == f[..i] + ([f[i]] + f[i + 1..]);
    BestConcat(f[..i], [f[i]] + f[i + 1..], b);
    BestConcat([f[i]], f[i + 1..], b);
    BestConcat(f[..i], f[i + 1..], b);
    assert [f[i]][1..] == [];
  }

  /** The count a bucket has or will have once everything in flight is stored. */
  function Reported(s: State, b: string): nat {
    Basics.Max(Get(s.stored, Unique(b)), Best(s.flying, b))
  }

  /** The successive address sets of a bucket: those dropped and the current one. */
  function SetsOf(s: State, b: string): set<set<string>> {
    Dropped(s.dropped, b) + {Seen(s.ipSets, b)}
  }

  /** The sets hold addresses of the bucket, and all of them together. */
  ghost predicate Covered(s: State, b: string) {
    && (forall x :: x in SetsOf(s, b) ==> x <= Seen(s.seen, b))
    && (forall ip :: ip in Seen(s.seen, b) ==> exists x :: x in SetsOf(s, b) && ip in x)
  }

  /** Dropped sets were reported, the current one too when nothing is dirty, and nothing larger was. */
  ghost predicate Truthful(s: State, b: string) {
    && (forall x :: x in Dropped(s.dropped, b) ==> |x| <= Reported(s, b))
    && (!s.dirty ==> |Seen(s.ipSets, b)| <= Reported(s, b))
    && (exists x :: x in SetsOf(s, b) && |x| >= Reported(s, b))
  }

  lemma {:induction false} SubsetSize(a: set<string>, b: set<string>)
    requires a <= b
    ensures |a| <= |b| && (|a| == |b| ==> a == b)
  {
    assert b == a + (b - a);
  }

  lemma {:induction false} RecordSets(s: State, step: Step, b: string)
    requires step.Record?
    ensures var t := DoRecord(s, step);
            && Reported(t, b) == Reported(s, b) && t.dirty && t.dropped == s.dropped
            && Seen(t.seen, b) == (if b == step.bucket then Seen(s.seen, b) + {step.ip} else Seen(s.seen, b))
            && Seen(t.ipSets, b) == (if b == step.bucket then Seen(s.ipSets, b) + {step.ip} else Seen(s.ipSets, b))
  {
  }

  lemma {:induction false} CoveredRecord(s: State, step: Step, b: string)
    requires Covered(s, b) && step.Record?
    ensures Covered(DoRecord(s, step), b)
  {
    var t := DoRecord(s, step);
    RecordSets(s, step, b);
    var was, now := Seen(s.ipSets, b), Seen(t.ipSets, b);
    assert was in SetsOf(s, b) && now in SetsOf(t, b) && was <= now;
    forall x | x in SetsOf(t, b)
      ensures x <= Seen(t.seen, b)
    {
      assert x == now || x in SetsOf(s, b);
    }
    forall ip | ip in Seen(t.seen, b)
      ensures exists x :: x in SetsOf(t, b) && ip in x
    {
      if ip in Seen(s.seen, b) {
        var x :| x in SetsOf(s, b) && ip in x;
        assert x == was || x in SetsOf(t, b);
      } else {
        assert ip in now;
      }
    }
  }

  lemma {:induction false} TruthfulRecord(s: State, step: Step, b: string)
    requires Truthful(s, b) && step.Record?
    ensures Truthful(DoRecord(s, step), b)
  {
    var t := DoRecord(s, step);
    RecordSets(s, step, b);
    var x :| x in SetsOf(s, b) && |x| >= Reported(s, b);
    if x in Dropped(s.dropped, b) {
      assert x in SetsOf(t, b);
    } else {
      SubsetSize(x, Seen(t.ipSets, b));
      assert Seen(t.ipSets, b) in SetsOf(t, b);
    }
  }

  lemma {:induction false} SnapshotReported(s: State, cur: string, b: string)
    requires s.dirty
    ensures Reported(DoSnapshot(s, cur), b) == Basics.Max(Reported(s, b), |Seen(s.ipSets, b)|)
  {
    var snap := Snap(s.counters, Counts(s.ipSets));
    BestConcat(s.flying, [snap], b);
    assert [snap][1..] == [];
    assert Get(snap.uniques, b) == |Seen(s.ipSets, b)|;
  }

  /** A flush keeps all sets of the bucket. */
  lemma {:induction false} SnapshotSets(s: State, cur: string, b: string)
    requires s.dirty
    ensures var t := DoSnapshot(s, cur);
            && t.seen == s.seen && !t.dirty
            && (|| (Seen(t.ipSets, b) == Seen(s.ipSets, b) && Dropped(t.dropped, b) == Dropped(s.dropped, b))
                || (Seen(t.ipSets, b) == {} && Dropped(t.dropped, b) == Dropped(s.dropped, b) + {Seen(s.ipSets, b)}))
  {
    var t := DoSnapshot(s, cur);
    if b in s.ipSets && b != cur {
      assert b in t.dropped && t.dropped[b] == Dropped(s.dropped, b) + {s.ipSets[b]};
      assert b !in t.ipSets;
    } else {
      assert Dropped(t.dropped, b) == Dropped(s.dropped, b) + {};
      assert b in t.ipSets <==> b in s.ipSets;
    }
  }

  lemma {:induction false} CoveredSnapshot(s: State, cur: string, b: string)
    requires Covered(s, b) && s.dirty
    ensures Covered(DoSnapshot(s, cur), b)
  {
    var t := DoSnapshot(s, cur);
    SnapshotSets(s, cur, b);
    assert forall x :: x in SetsOf(s, b) ==> x in SetsOf(t, b);
  }

  lemma {:induction false} TruthfulSnapshot(s: State, cur: string, b: string)
    requires Truthful(s, b) && s.dirty
    ensures Truthful(DoSnapshot(s, cur), b)
  {
    var t := DoSnapshot(s, cur);
    SnapshotSets(s, cur, b);
    SnapshotReported(s, cur, b);
    var x :| x in SetsOf(s, b) && |x| >= Reported(s, b);
    var y := if |Seen(s.ipSets, b)| >= Reported(s, b) then Seen(s.ipSets, b) else x;
    assert y in SetsOf(t, b) && |y| >= Reported(t, b);
  }

  lemma {:induction false} CommitReported(s: State, i: nat, b: string)
    requires NamesApart(s) && i < |s.flying|
    ensures Reported(DoCommit(s, i), b) == Reported(s, b)
  {
    BestSplit(s.flying, i, b);
    assert Unique(b) !in s.flying[i].deltas;
    assert Get(Upserted(s.stored, s.flying[i]), Unique(b)) == Basics.Max(Get(s.stored, Unique(b)), Get(s.flying[i].uniques, b));
  }

  lemma {:induction false} TruthfulStep(s: State, step: Step, b: string)
    requires NamesApart(s) && Truthful(s, b) && Covered(s, b)
    ensures Truthful(Next(s, step), b) && Covered(Next(s, step), b)
  {
    match step
    case Record(_, _, _, _) =>
      TruthfulRecord(s, step, b);
      CoveredRecord(s, step, b);
    case RecordBan(_, _) =>
      assert SetsOf(Next(s, step), b) == SetsOf(s, b) && Reported(Next(s, step), b) == Reported(s, b);
    case Snapshot(cur) =>
      if s.dirty {
        TruthfulSnapshot(s, cur, b);
        CoveredSnapshot(s, cur, b);
      }
    case Commit(i) =>
      if i < |s.flying| {
        CommitReported(s, i, b);
        assert SetsOf(Next(s, step), b) == SetsOf(s, b);
      }
  }

  // ---- Every run ----

  lemma {:induction false} RunNames(r: Run)
    ensures NamesApart(After(r))
  {
    match r
    case Start =>
    case Then(q, step) =>
      RunNames(q);
      NamesStep(After(q), step);
  }

  // ---- What was recorded, read off the run ----

  function ConnectionsIn(r: Run, labels: string, bucket: string): nat {
    match r
    case Start => 0
    case Then(q, step) =>
      ConnectionsIn(q, labels, bucket) + if step.Record? && step.labels == labels && step.bucket == bucket then 1 else 0
  }

  function BansIn(r: Run, labels: string, bucket: string): nat {
    match r
    case Start => 0
    case Then(q, step) =>
      BansIn(q, labels, bucket) + if step.RecordBan? && step.labels == labels && step.bucket == bucket then 1 else 0
  }

  /** Occurrences of a tag on the connections of a bucket. */
  function TagsIn(r: Run, tag: string, bucket: string): nat {
    match r
    case Start => 0
    case Then(q, step) =>
      TagsIn(q, tag, bucket) + if step.Record? && step.bucket == bucket then multiset(step.tags)[tag] else 0
  }

  /** The addresses of the connections of a bucket. */
  function AddressesIn(r: Run, bucket: string): set<string> {
    match r
    case Start => {}
    case Then(q, step) =>
      AddressesIn(q, bucket) + if step.Record? && step.bucket == bucket then {step.ip} else {}
  }

  /** Something was recorded since the last flush. */
  predicate Unflushed(r: Run) {
    match r
    case Start => false
    case Then(q, step) => step.Record? || step.RecordBan? || (step.Commit? && Unflushed(q))
  }

  /** The step is a flush that finds something to do in another hour than `bucket`. */
  predicate Closes(q: Run, step: Step, bucket: string) {
    step.Snapshot? && Unflushed(q) && step.cur != bucket
  }

  /** The addresses recorded into a bucket since it was last closed. */
  function CurrentIn(r: Run, bucket: string): set<string> {
    match r
    case Start => {}
    case Then(q, step) =>
      if Closes(q, step, bucket) then {}
      else CurrentIn(q, bucket) + if step.Record? && step.bucket == bucket then {step.ip} else {}
  }

  /** The successive groups of addresses of a bucket, one between two closings, and the current one. */
  function GroupsIn(r: Run, bucket: string): set<set<string>> {
    ClosedIn(r, bucket) + {CurrentIn(r, bucket)}
  }

  function ClosedIn(r: Run, bucket: string): set<set<string>> {
    match r
    case Start => {}
    case Then(q, step) =>
      ClosedIn(q, bucket) + if Closes(q, step, bucket) && CurrentIn(q, bucket) != {} then {CurrentIn(q, bucket)} else {}
  }

  lemma {:induction false} TagKeysCount(tags: seq<string>, bucket: string, k: Key)
    ensures multiset(TagKeys(tags, bucket))[k] == if k.name == TagHits && k.bucket == bucket then multiset(tags)[k.labels] else 0
  {
    if tags != [] {
      TagKeysCount(tags[1..], bucket, k);
      assert tags == [tags[0]] + tags[1..];
      assert TagKeys(tags, bucket) == [Key(TagHits, tags[0], bucket)] + TagKeys(tags[1..], bucket);
    }
  }

  /** What one step records under a key. */
  function Adds(step: Step, k: Key): nat {
    match k.name
    case Connections => if step.Record? && step.labels == k.labels && step.bucket == k.bucket then 1 else 0
    case Bans => if step.RecordBan? && step.labels == k.labels && step.bucket == k.bucket then 1 else 0
    case TagHits => if step.Record? && step.bucket == k.bucket then multiset(step.tags)[k.labels] else 0
    case UniqueIps => 0
  }

  lemma {:induction false} StepAdds(step: Step, k: Key)
    ensures multiset(KeysOf(step))[k] == Adds(step, k)
  {
    if step.Record? {
      TagKeysCount(step.tags, step.bucket, k);
    }
  }

  function AddedIn(r: Run, k: Key): nat {
    match r
    case Start => 0
    case Then(q, step) => AddedIn(q, k) + Adds(step, k)
  }

  lemma {:induction false} RunHeld(r: Run, k: Key)
    requires k.name != UniqueIps
    ensures Held(After(r), k) == AddedIn(r, k)
  {
    match r
    case Start =>
    case Then(q, step) =>
      RunHeld(q, k);
      HeldStep(After(q), step, k);
      StepAdds(step, k);
  }

  lemma {:induction false} AddedByName(r: Run, labels: string, bucket: string)
    ensures AddedIn(r, Key(Connections, labels, bucket)) == ConnectionsIn(r, labels, bucket)
    ensures AddedIn(r, Key(Bans, labels, bucket)) == BansIn(r, labels, bucket)
    ensures AddedIn(r, Key(TagHits, labels, bucket)) == TagsIn(r, labels, bucket)
  {
    match r
    case Start =>
    case Then(q, step) => AddedByName(q, labels, bucket);
  }

  /** Conservation: in every reachable state, what is stored, pending and in flight of a counter is the number of
      connections recorded with these labels in this hour, of bans, or of occurrences of the tag. */
  lemma {:induction false} NothingMiscounted(r: Run, labels: string, bucket: string)
    ensures Held(After(r), Key(Connections, labels, bucket)) == ConnectionsIn(r, labels, bucket)
    ensures Held(After(r), Key(Bans, labels, bucket)) == BansIn(r, labels, bucket)
    ensures Held(After(r), Key(TagHits, labels, bucket)) == TagsIn(r, labels, bucket)
  {
    RunHeld(r, Key(Connections, labels, bucket));
    RunHeld(r, Key(Bans, labels, bucket));
    RunHeld(r, Key(TagHits, labels, bucket));
    AddedByName(r, labels, bucket);
  }

  /** What a run says of a bucket. */
  datatype Story = Story(unflushed: bool, all: set<string>, current: set<string>, closed: set<set<string>>)

  function StoryOf(r: Run, b: string): Story {
    Story(Unflushed(r), AddressesIn(r, b), CurrentIn(r, b), ClosedIn(r, b))
  }

  /** The history fields hold it. */
  predicate Told(s: State, b: string, x: Story) {
    && s.dirty == x.unflushed && Seen(s.seen, b) == x.all
    && (b in s.ipSets ==> s.ipSets[b] != {}) && Seen(s.ipSets, b) == x.current
    && Dropped(s.dropped, b) == x.closed
  }

  function StoryRecord(x: Story, mine: bool, ip: string): Story {
    x.(unflushed := true, all := x.all + if mine then {ip} else {}, current := x.current + if mine then {ip} else {})
  }

  function StorySnapshot(x: Story, closes: bool): Story {
    if closes then x.(unflushed := false, current := {}, closed := x.closed + if x.current != {} then {x.current} else {})
    else x.(unflushed := false)
  }

  lemma {:induction false} StoryStep(q: Run, step: Step, b: string)
    ensures StoryOf(Then(q, step), b) ==
            match step
            case Record(_, _, bucket, ip) => StoryRecord(StoryOf(q, b), bucket == b, ip)
            case RecordBan(_, _) => StoryOf(q, b).(unflushed := true)
            case Snapshot(cur) => StorySnapshot(StoryOf(q, b), Unflushed(q) && cur != b)
            case Commit(_) => StoryOf(q, b)
  {
  }

  lemma {:induction false} ToldRecord(s: State, step: Step, b: string, x: Story)
    requires Told(s, b, x) && step.Record?
    ensures Told(DoRecord(s, step), b, StoryRecord(x, step.bucket == b, step.ip))
  {
    RecordSets(s, step, b);
  }

  /** What a flush leaves of a bucket. */
  lemma {:induction false} SnapshotLeaves(s: State, cur: string, b: string)
    requires s.dirty && (b in s.ipSets ==> s.ipSets[b] != {})
    ensures var t, was := DoSnapshot(s, cur), Seen(s.ipSets, b);
            && (b in t.ipSets ==> b in s.ipSets && t.ipSets[b] == s.ipSets[b])
            && Seen(t.ipSets, b) == (if b == cur then was else {})
            && Dropped(t.dropped, b) == Dropped(s.dropped, b) + if b != cur && was != {} then {was} else {}
  {
    var t := DoSnapshot(s, cur);
    if b in s.ipSets && b != cur {
      assert t.dropped[b] == Dropped(s.dropped, b) + {s.ipSets[b]};
    } else {
      assert Dropped(t.dropped, b) == Dropped(s.dropped, b) + {};
    }
  }

  lemma {:induction false} ToldSnapshot(s: State, cur: string, b: string, x: Story)
    requires Told(s, b, x)
    ensures Told(DoSnapshot(s, cur), b, StorySnapshot(x, x.unflushed && cur != b))
  {
    if s.dirty {
      SnapshotLeaves(s, cur, b);
    }
  }

  lemma {:induction false} HistoryIsTold(r: Run, b: string)
    ensures Told(After(r), b, StoryOf(r, b))
  {
    match r
    case Start =>
    case Then(q, step) =>
      HistoryIsTold(q, b);
      StoryStep(q, step, b);
      if step.Record? {
        ToldRecord(After(q), step, b, StoryOf(q, b));
      } else if step.Snapshot? {
        ToldSnapshot(After(q), step.cur, b, StoryOf(q, b));
      }
  }

  lemma {:induction false} RunTruthful(r: Run, b: string)
    ensures Truthful(After(r), b) && Covered(After(r), b)
  {
    match r
    case Start =>
      assert {} in SetsOf(INITIAL, b) && Reported(INITIAL, b) == 0;
    case Then(q, step) =>
      RunNames(q);
      RunTruthful(q, b);
      TruthfulStep(After(q), step, b);
  }

  /** Nothing waits to be flushed or stored. */
  predicate Settled(s: State) {
    !s.dirty && s.flying == []
  }

  /** A family of subsets whose largest size is `n`: it reaches the whole set exactly when it contains it. */
  lemma {:induction false} LargestIsAll(sets: set<set<string>>, all: set<string>, n: nat)
    requires forall x :: x in sets ==> x <= all && |x| <= n
    requires exists x :: x in sets && |x| >= n
    ensures n <= |all| && (n == |all| <==> exists x :: x in sets && all <= x)
  {
    var x :| x in sets && |x| >= n;
    SubsetSize(x, all);
    if y :| y in sets && all <= y {
      assert y == all;
    }
  }

  lemma {:induction false} ReportedAtMostSeen(r: Run, b: string)
    ensures Reported(After(r), b) <= |Seen(After(r).seen, b)|
  {
    RunTruthful(r, b);
    var x :| x in SetsOf(After(r), b) && |x| >= Reported(After(r), b);
    SubsetSize(x, Seen(After(r).seen, b));
  }

  lemma {:induction false} SettledReports(s: State, b: string)
    requires Settled(s) && Truthful(s, b) && Covered(s, b)
    ensures Get(s.stored, Unique(b)) == Reported(s, b)
    ensures forall x :: x in SetsOf(s, b) ==> x <= Seen(s.seen, b) && |x| <= Reported(s, b)
  {
  }

  lemma {:induction false} StateCounts(r: Run, b: string)
    ensures var s := After(r);
            && Get(s.stored, Unique(b)) <= |Seen(s.seen, b)|
            && (Settled(s) ==>
                  (Get(s.stored, Unique(b)) == |Seen(s.seen, b)| <==> exists x :: x in SetsOf(s, b) && Seen(s.seen, b) <= x))
  {
    var s := After(r);
    ReportedAtMostSeen(r, b);
    if Settled(s) {
      RunTruthful(r, b);
      SettledReports(s, b);
      LargestIsAll(SetsOf(s, b), Seen(s.seen, b), Reported(s, b));
    }
  }

  /** Stored unique counts never exceed the number of distinct addresses recorded into the bucket. Once everything
      is stored they are equal exactly when all of them were recorded between two closings of the bucket. */
  lemma {:induction false} UniqueCounts(r: Run, b: string)
    ensures Get(After(r).stored, Unique(b)) <= |AddressesIn(r, b)|
    ensures Settled(After(r)) ==>
              (Get(After(r).stored, Unique(b)) == |AddressesIn(r, b)| <==> exists x :: x in GroupsIn(r, b) && AddressesIn(r, b) <= x)
  {
    StateCounts(r, b);
    HistoryIsTold(r, b);
  }

  lemma {:induction false} OneSetHoldsAll(sets: set<set<string>>, all: set<string>)
    requires sets != {} && forall ip :: ip in all ==> exists x :: x in sets && ip in x
    requires forall x, y :: x in sets && y in sets && x != {} && y != {} ==> x == y
    ensures exists x :: x in sets && all <= x
  {
    if ip :| ip in all {
      var x :| x in sets && ip in x;
      forall other | other in all
        ensures other in x
      {
        var y :| y in sets && other in y;
      }
    } else {
      var x :| x in sets;
    }
  }

  /** In particular when the bucket never had two different groups: nothing was recorded into it after it was
      closed. */
  lemma {:induction false} OneSetIsExact(r: Run, b: string)
    requires Settled(After(r)) && forall x, y :: x in GroupsIn(r, b) && y in GroupsIn(r, b) && x != {} && y != {} ==> x == y
    ensures Get(After(r).stored, Unique(b)) == |AddressesIn(r, b)|
  {
    RunTruthful(r, b);
    HistoryIsTold(r, b);
    assert CurrentIn(r, b) in GroupsIn(r, b);
    OneSetHoldsAll(GroupsIn(r, b), AddressesIn(r, b));
    UniqueCounts(r, b);
  }

  /** An address, a flush that drops the hour, and a recording that read the clock before the hour ended and
      took the lock only now. */
  function LateRun(b: string, cur: string, first: string, second: string): Run {
    var r := Then(Then(Then(Start, Record("", [], b, first)), Snapshot(cur)), Commit(0));
    Then(Then(Then(r, Record("", [], b, second)), Snapshot(cur)), Commit(0))
  }

  lemma {:induction false} RoundFlush(s: State, b: string, cur: string, n: nat) returns (snap: Snap)
    requires s.dirty && s.flying == [] && b in s.ipSets && |s.ipSets[b]| == n && b != cur && NamesApart(s)
    ensures var t := DoSnapshot(s, cur);
            && !t.dirty && t.flying == [snap] && b !in t.ipSets && t.seen == s.seen && t.stored == s.stored
            && Get(snap.uniques, b) == n && Unique(b) !in snap.deltas
  {
    snap := Snap(s.counters, Counts(s.ipSets));
  }

  lemma {:induction false} RoundCommit(s: State, b: string, snap: Snap)
    requires s.flying == [snap] && Unique(b) !in snap.deltas
    ensures var t := Next(s, Commit(0));
            && t.flying == [] && t.dirty == s.dirty && t.ipSets == s.ipSets && t.seen == s.seen
            && Get(t.stored, Unique(b)) == Basics.Max(Get(s.stored, Unique(b)), Get(snap.uniques, b))
  {
    assert [snap][..0] + [snap][1..] == [];
  }

  /** One recording into a bucket without a set, flushed and stored. */
  lemma {:induction false} OneRound(r: Run, b: string, cur: string, ip: string)
    requires After(r).flying == [] && b !in After(r).ipSets && b != cur
    ensures var s, t := After(r), After(Then(Then(Then(r, Record("", [], b, ip)), Snapshot(cur)), Commit(0)));
            && Settled(t) && b !in t.ipSets && Seen(t.seen, b) == Seen(s.seen, b) + {ip}
            && Get(t.stored, Unique(b)) == Basics.Max(Get(s.stored, Unique(b)), 1)
  {
    var q := Then(r, Record("", [], b, ip));
    var s1 := After(q);
    RunNames(q);
    RecordSets(After(r), Record("", [], b, ip), b);
    assert Seen(s1.ipSets, b) == {ip};
    var snap := RoundFlush(s1, b, cur, 1);
    RoundCommit(After(Then(q, Snapshot(cur))), b, snap);
  }

  /** The condition is needed: the late address starts a second set, and the hour is stored with one
      address although it may have seen two. */
  lemma {:induction false} LateRecording(b: string, cur: string, first: string, second: string)
    requires b != cur
    ensures var s := After(LateRun(b, cur, first, second));
            Settled(s) && AddressesIn(LateRun(b, cur, first, second), b) == {first, second} && Get(s.stored, Unique(b)) == 1
  {
    HistoryIsTold(LateRun(b, cur, first, second), b);
    OneRound(Start, b, cur, first);
    var r := Then(Then(Then(Start, Record("", [], b, first)), Snapshot(cur)), Commit(0));
    OneRound(r, b, cur, second);
  }

  lemma {:induction false} BumpCons(m: map<Key, nat>, k: Key, ks: seq<Key>)
    ensures BumpAll(m, [k] + ks) == BumpAll(Bump(m, k), ks)
  {
    assert ([k] + ks)[1..] == ks;
  }

  // ---- The program ----

  /** `Cache`. */
  class Cache {
    var counters: map<Key, nat>
    var ipSets: map<string, set<string>>
    var dirty: bool

    constructor ()
      ensures In(INITIAL)
    {
      counters, ipSets, dirty := map[], map[], false;
    }

    /** The fields hold what they hold in `s`. */
    ghost predicate In(s: State)
      reads this
    {
      counters == s.counters && ipSets == s.ipSets && dirty == s.dirty
    }

    /** The critical section of `Record`. */
    method Record(labels: string, tags: seq<string>, bucket: string, ip: string, ghost s: State)
      requires In(s)
      modifies this
      ensures In(Next(s, Step.Record(labels, tags, bucket, ip)))
    {
      counters := Bump(counters, Key(Connections, labels, bucket));
      CountTags(tags, bucket);
      BumpCons(s.counters, Key(Connections, labels, bucket), TagKeys(tags, bucket));
      assert counters == DoRecord(s, Step.Record(labels, tags, bucket, ip)).counters;
      AddIp(bucket, ip);
      dirty := true;
    }

    /** The bucket's set, made on first use. */
    method AddIp(bucket: string, ip: string)
      modifies this`ipSets
      ensures ipSets == WithIp(old(ipSets), bucket, ip)
    {
      if bucket !in ipSets {
        ipSets := ipSets[bucket := {}];
      }
      ipSets := ipSets[bucket := ipSets[bucket] + {ip}];
    }

    /** The loop over the tags. */
    method CountTags(tags: seq<string>, bucket: string)
      modifies this`counters
      ensures counters == BumpAll(old(counters), TagKeys(tags, bucket))
    {
      assert tags[0..] == tags;
      for i := 0 to |tags|
        invariant BumpAll(counters, TagKeys(tags[i..], bucket)) == BumpAll(old(counters), TagKeys(tags, bucket))
      {
        assert tags[i..][1..] == tags[i + 1..];
        assert TagKeys(tags[i..], bucket)[1..] == TagKeys(tags[i + 1..], bucket);
        counters := Bump(counters, Key(TagHits, tags[i], bucket));
      }
    }

    /** The critical section of `RecordBan`. */
    method RecordBan(labels: string, bucket: string, ghost s: State)
      requires In(s)
      modifies this
      ensures In(Next(s, Step.RecordBan(labels, bucket)))
    {
      counters := Bump(counters, Key(Bans, labels, bucket));
      assert [Key(Bans, labels, bucket)][1..] == [];
      assert BumpAll(counters, []) == counters;
      dirty := true;
    }

    /** The critical section of `flush`. */
    method TakeSnapshot(cur: string, ghost s: State) returns (taken: bool, snap: Snap)
      requires In(s)
      modifies this
      ensures In(Next(s, Snapshot(cur)))
      ensures taken == s.dirty && (taken ==> Next(s, Snapshot(cur)).flying == s.flying + [snap])
    {
      if !dirty {
        return false, Snap(map[], map[]);
      }
      var deltas := counters;
      counters := map[];
      var counts := CountAndDrop(cur);
      dirty := false;
      return true, Snap(deltas, counts);
    }

    /** Counts every bucket's addresses and drops the sets of past hours; the map is walked in any order. */
    method CountAndDrop(cur: string) returns (counts: map<string, nat>)
      modifies this`ipSets
      ensures counts == Counts(old(ipSets)) && ipSets == OnlyCurrent(old(ipSets), cur)
    {
      ghost var was := ipSets;
      counts := map[];
      var rest := ipSets.Keys;
      while rest != {}
        invariant rest <= was.Keys
        invariant forall b :: b in counts <==> b in was && b !in rest
        invariant forall b :: b in counts ==> counts[b] == |was[b]|
        invariant forall b :: b in ipSets <==> b in was && (b in rest || b == cur)
        invariant forall b :: b in ipSets ==> ipSets[b] == was[b]
      {
        var b :| b in rest;
        counts := counts[b := |ipSets[b]|];
        if b != cur {
          ipSets := ipSets - {b};
        }
        rest := rest - {b};
      }
    }
  }

  /** A row of the batch. */
  datatype Row = Row(key: Key, delta: nat, absMax: bool)

  function RowFor(snap: Snap, k: Key): Row
    requires k in TouchedKeys(snap)
  {
    if k in snap.deltas then Row(k, snap.deltas[k], false) else Row(k, snap.uniques[k.bucket], true)
  }

  function RowKeys(rows: seq<Row>): set<Key> {
    set r | r in rows :: r.key
  }

  /** The rows of a set of keys, each once, in any order. */
  ghost predicate Lists(rows: seq<Row>, snap: Snap, keys: set<Key>) {
    && keys <= TouchedKeys(snap) && RowKeys(rows) == keys
    && (forall i :: 0 <= i < |rows| ==> rows[i].key in keys && rows[i] == RowFor(snap, rows[i].key))
    && (forall i, j :: 0 <= i < j < |rows| ==> rows[i].key != rows[j].key)
  }

  lemma {:induction false} ListsMore(rows: seq<Row>, snap: Snap, keys: set<Key>, k: Key)
    requires Lists(rows, snap, keys) && k in TouchedKeys(snap) && k !in keys
    ensures Lists(rows + [RowFor(snap, k)], snap, keys + {k})
  {
    var more := rows + [RowFor(snap, k)];
    assert forall r :: r in more <==> r in rows || r == RowFor(snap, k);
    assert RowKeys(more) == keys + {k};
  }

  /** The first loop of the batch. */
  method CounterRows(snap: Snap) returns (batch: seq<Row>)
    ensures Lists(batch, snap, snap.deltas.Keys)
  {
    batch := [];
    ghost var done: set<Key> := {};
    var rest := snap.deltas.Keys;
    while rest != {}
      invariant rest <= snap.deltas.Keys && done == snap.deltas.Keys - rest && Lists(batch, snap, done)
    {
      var k :| k in rest;
      ListsMore(batch, snap, done, k);
      batch := batch + [Row(k, snap.deltas[k], false)];
      done, rest := done + {k}, rest - {k};
    }
    assert done == snap.deltas.Keys;
  }

  /** The batch `flush` builds, both maps walked in any order. */
  method BuildBatch(snap: Snap) returns (batch: seq<Row>)
    requires CountersOnly(snap.deltas)
    ensures Lists(batch, snap, TouchedKeys(snap))
  {
    batch := CounterRows(snap);
    ghost var done := snap.deltas.Keys;
    var buckets := snap.uniques.Keys;
    while buckets != {}
      invariant buckets <= snap.uniques.Keys && Lists(batch, snap, done)
      invariant done == snap.deltas.Keys + set b | b in snap.uniques.Keys - buckets :: Unique(b)
    {
      var b :| b in buckets;
      assert Unique(b).bucket == b;
      ListsMore(batch, snap, done, Unique(b));
      batch := batch + [Row(Unique(b), snap.uniques[b], true)];
      done, buckets := done + {Unique(b)}, buckets - {b};
    }
    assert done == TouchedKeys(snap);
  }

  function UpsertRow(stored: map<Key, nat>, row: Row): map<Key, nat> {
    stored[row.key := if row.absMax then Basics.Max(Get(stored, row.key), row.delta) else Get(stored, row.key) + row.delta]
  }

  function UpsertRows(stored: map<Key, nat>, rows: seq<Row>, n: nat): map<Key, nat>
    requires n <= |rows|
  {
    if n == 0 then stored else UpsertRow(UpsertRows(stored, rows, n - 1), rows[n - 1])
  }

  /** The database's metrics table. */
  class Store {
    var stored: map<Key, nat>

    /** `UpsertMetrics`, its statements succeeding. */
    method UpsertMetrics(batch: seq<Row>)
      modifies this
      ensures stored == UpsertRows(old(stored), batch, |batch|)
    {
      for i := 0 to |batch|
        invariant stored == UpsertRows(old(stored), batch, i)
      {
        var row := batch[i];
        if row.absMax {
          stored := stored[row.key := Basics.Max(Get(stored, row.key), row.delta)];
        } else {
          stored := stored[row.key := Get(stored, row.key) + row.delta];
        }
      }
    }
  }

  function FirstKeys(rows: seq<Row>, n: nat): set<Key>
    requires n <= |rows|
  {
    if n == 0 then {} else FirstKeys(rows, n - 1) + {rows[n - 1].key}
  }

  lemma {:induction false} FirstKeysAre(rows: seq<Row>, n: nat, k: Key)
    requires n <= |rows|
    ensures k in FirstKeys(rows, n) <==> exists i :: 0 <= i < n && rows[i].key == k
  {
    if n > 0 {
      FirstKeysAre(rows, n - 1, k);
    }
  }

  lemma {:induction false} UpsertRowsKeys(stored: map<Key, nat>, rows: seq<Row>, n: nat)
    requires n <= |rows|
    ensures UpsertRows(stored, rows, n).Keys == stored.Keys + FirstKeys(rows, n)
  {
    if n > 0 {
      UpsertRowsKeys(stored, rows, n - 1);
    }
  }

  lemma {:induction false} UpsertRowsValue(
    stored: map<Key, nat>, rows: seq<Row>, n: nat, snap: Snap, keys: set<Key>, k: Key)
    requires n <= |rows| && Lists(rows, snap, keys)
    ensures Get(UpsertRows(stored, rows, n), k) ==
            if k in FirstKeys(rows, n) then Get(Upserted(stored, snap), k) else Get(stored, k)
  {
    if n > 0 {
      UpsertRowsValue(stored, rows, n - 1, snap, keys, k);
      FirstKeysAre(rows, n - 1, rows[n - 1].key);
    }
  }

  /** In whatever order the batch lists the snapshot, the upsert is the step of the state machine. */
  lemma {:induction false} BatchIsSnapshot(stored: map<Key, nat>, rows: seq<Row>, snap: Snap)
    requires Lists(rows, snap, TouchedKeys(snap))
    ensures UpsertRows(stored, rows, |rows|) == Upserted(stored, snap)
  {
    UpsertRowsKeys(stored, rows, |rows|);
    AllKeys(rows, snap);
    var m, u := UpsertRows(stored, rows, |rows|), Upserted(stored, snap);
    assert m.Keys == u.Keys;
    forall k | k in m
      ensures m[k] == u[k]
    {
      UpsertRowsValue(stored, rows, |rows|, snap, TouchedKeys(snap), k);
    }
  }

  lemma {:induction false} AllKeys(rows: seq<Row>, snap: Snap)
    requires Lists(rows, snap, TouchedKeys(snap))
    ensures FirstKeys(rows, |rows|) == TouchedKeys(snap)
  {
    forall k
      ensures k in FirstKeys(rows, |rows|) <==> k in TouchedKeys(snap)
    {
      FirstKeysAre(rows, |rows|, k);
      assert k in RowKeys(rows) <==> exists i :: 0 <= i < |rows| && rows[i].key == k;
    }
  }
}
