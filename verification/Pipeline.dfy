/** The capture pipeline as a state machine over every interleaving of its goroutines:
    submitters, workers, the shutdown sequence and the database writer. */
module Pipeline {
  import opened WriteLoop

  const QUEUE_SIZE: nat := 8192
  const INSERT_SIZE: nat := 4096

  /** A capture; the event stored for it is identified with it. */
  datatype Capture = Capture(source: string, port: string, tcp: bool, payload: seq<int>)

  /** A goroutine in `Submit`: outside, holding the read lock, or past the test of `qclosed`. */
  datatype Sub = Outside | Locked(c: Capture) | Open(c: Capture)

  /** A goroutine in `worker`; `Stored` is behind `DB.Insert`. */
  datatype Worker = Waiting | Holding(c: Capture) | Stored(c: Capture) | Finished

  /** The goroutine in `Run`, from serving to the closed database. */
  datatype Main = Serving | Locking | Exclusive | Flagged | HungUp | Released | Drained | Sealed | Shut

  datatype State = State(
    subs: seq<Sub>, workers: seq<Worker>, main: Main, writer: Writer<Capture>,
    queue: seq<Capture>, queueClosed: bool, qclosed: bool, insertQ: seq<Capture>, insertClosed: bool, panicked: bool,
    books: Books)

  /** What happened so far; no step looks at it. */
  datatype Books = Books(
    begun: multiset<Capture>, late: multiset<Capture>, dropped: multiset<Capture>, accepted: seq<Capture>, taken: seq<Capture>,
    limited: multiset<Capture>, handled: multiset<Capture>, inserted: seq<Capture>, lost: multiset<Capture>)

  datatype Step = Begin(i: nat, c: Capture) | Check(i: nat) | Send(i: nat)
    | Take(j: nat) | Limit(j: nat) | Insert(j: nat) | Finish(j: nat) | Exit(j: nat) | WriterPoll | MainStep

  function Initial(subs: nat, workers: nat): State {
    State(seq(subs, _ => Outside), seq(workers, _ => Waiting), Serving, Fresh(), [], false, false, [], false, false,
          Books(multiset{}, multiset{}, multiset{}, [], [], multiset{}, multiset{}, [], multiset{}))
  }

  // ---- Steps ----

  /** The write lock is held or awaited, so new readers wait. */
  predicate BlocksReaders(m: Main) {
    m == Locking || m == Exclusive || m == Flagged || m == HungUp
  }

  predicate AllOutside(subs: seq<Sub>) {
    forall i :: 0 <= i < |subs| ==> subs[i] == Outside
  }

  predicate AllFinished(workers: seq<Worker>) {
    forall j :: 0 <= j < |workers| ==> workers[j] == Finished
  }

  predicate MainEnabled(s: State) {
    match s.main
    case Locking => AllOutside(s.subs)
    case Released => AllFinished(s.workers)
    case Sealed => s.writer.done
    case Shut => false
    case _ => true
  }

  predicate Enabled(s: State, step: Step) {
    match step
    case Begin(i, c) => i < |s.subs| && s.subs[i] == Outside && !BlocksReaders(s.main)
    case Check(i) => i < |s.subs| && s.subs[i].Locked?
    case Send(i) => i < |s.subs| && s.subs[i].Open?
    case Take(j) => j < |s.workers| && s.workers[j] == Waiting && s.queue != []
    case Limit(j) => j < |s.workers| && s.workers[j].Holding? && s.workers[j].c.tcp
    case Insert(j) => j < |s.workers| && s.workers[j].Holding?
    case Finish(j) => j < |s.workers| && s.workers[j].Stored?
    case Exit(j) => j < |s.workers| && s.workers[j] == Waiting && s.queue == [] && s.queueClosed
    case WriterPoll => !s.writer.done && (s.writer.draining || s.insertQ != [] || s.insertClosed)
    case MainStep => MainEnabled(s)
  }

  /** `a.qmu.RLock()`. */
  function DoBegin(s: State, i: nat, c: Capture): State
    requires Enabled(s, Begin(i, c))
  {
    s.(subs := s.subs[i := Locked(c)], books := s.books.(begun := s.books.begun + multiset{c}))
  }

  /** The test of `qclosed`; a late capture is let go. */
  function DoCheck(s: State, i: nat): State
    requires Enabled(s, Check(i))
  {
    var c := s.subs[i].c;
    if s.qclosed then s.(subs := s.subs[i := Outside], books := s.books.(late := s.books.late + multiset{c}))
    else s.(subs := s.subs[i := Open(c)])
  }

  /** The non-blocking send and the release of the lock. A send on a closed channel panics. */
  function DoSend(s: State, i: nat): State
    requires Enabled(s, Send(i))
  {
    var c := s.subs[i].c;
    var t := s.(subs := s.subs[i := Outside]);
    if s.queueClosed then t.(panicked := true)
    else if |s.queue| < QUEUE_SIZE then t.(queue := s.queue + [c], books := s.books.(accepted := s.books.accepted + [c]))
    else t.(books := s.books.(dropped := s.books.dropped + multiset{c}))
  }

  /** `for q := range a.queue`. */
  function DoTake(s: State, j: nat): State
    requires Enabled(s, Take(j))
  {
    s.(workers := s.workers[j := Holding(s.queue[0])], queue := s.queue[1..], books := s.books.(taken := s.books.taken + [s.queue[0]]))
  }

  /** The limiter refuses a TCP capture. */
  function DoLimit(s: State, j: nat): State
    requires Enabled(s, Limit(j))
  {
    s.(workers := s.workers[j := Waiting], books := s.books.(limited := s.books.limited + multiset{s.workers[j].c}))
  }

  /** `DB.Insert`, a non-blocking send too. */
  function DoInsert(s: State, j: nat): State
    requires Enabled(s, Insert(j))
  {
    var c := s.workers[j].c;
    var t := s.(workers := s.workers[j := Stored(c)]);
    if s.insertClosed then t.(panicked := true)
    else if |s.insertQ| < INSERT_SIZE then t.(insertQ := s.insertQ + [c], books := s.books.(inserted := s.books.inserted + [c]))
    else t.(books := s.books.(lost := s.books.lost + multiset{c}))
  }

  /** `handled.Add(1)`. */
  function DoFinish(s: State, j: nat): State
    requires Enabled(s, Finish(j))
  {
    s.(workers := s.workers[j := Waiting], books := s.books.(handled := s.books.handled + multiset{s.workers[j].c}))
  }

  function DoExit(s: State, j: nat): State
    requires Enabled(s, Exit(j))
  {
    s.(workers := s.workers[j := Finished])
  }

  function PollOf(s: State): Poll<Capture> {
    if s.insertQ != [] then Got(s.insertQ[0]) else if s.insertClosed then Closed else Empty
  }

  /** One receive of the database writer. */
  function DoPoll(s: State): State {
    s.(writer := OnPoll(s.writer, PollOf(s)), insertQ := if s.insertQ != [] then s.insertQ[1..] else [])
  }

  /** The shutdown sequence: lock, set the flag, close the queue, unlock, wait for the workers,
      close the insert queue, wait for the writer. */
  function DoMain(s: State): State
    requires MainEnabled(s)
  {
    match s.main
    case Serving => s.(main := Locking)
    case Locking => s.(main := Exclusive)
    case Exclusive => s.(main := Flagged, qclosed := true)
    case Flagged => s.(main := HungUp, queueClosed := true)
    case HungUp => s.(main := Released)
    case Released => s.(main := Drained)
    case Drained => s.(main := Sealed, insertClosed := true)
    case Sealed => s.(main := Shut)
  }

  /** A step; one that is not enabled does nothing. */
  function Next(s: State, step: Step): State {
    if !Enabled(s, step) then s
    else match step
      case Begin(i, c) => DoBegin(s, i, c)
      case Check(i) => DoCheck(s, i)
      case Send(i) => DoSend(s, i)
      case Take(j) => DoTake(s, j)
      case Limit(j) => DoLimit(s, j)
      case Insert(j) => DoInsert(s, j)
      case Finish(j) => DoFinish(s, j)
      case Exit(j) => DoExit(s, j)
      case WriterPoll => DoPoll(s)
      case MainStep => DoMain(s)
  }

  /** A run: any number of submitters and workers, any interleaving. */
  datatype Run = Start(subs: nat, workers: nat) | Then(run: Run, step: Step)

  function After(r: Run): State {
    match r
    case Start(m, n) => Initial(m, n)
    case Then(q, step) => Next(After(q), step)
  }

  // ---- Counting over goroutines ----

  function InsideOne(x: Sub, c: Capture): nat {
    if x != Outside && x.c == c then 1 else 0
  }

  function HeldOne(x: Worker, c: Capture): nat {
    if (x.Holding? || x.Stored?) && x.c == c then 1 else 0
  }

  function StoredOne(x: Worker, c: Capture): nat {
    if x.Stored? && x.c == c then 1 else 0
  }

  function Total<T>(w: (T, Capture) -> nat, s: seq<T>, c: Capture): nat {
    if s == [] then 0 else w(s[0], c) + Total(w, s[1..], c)
  }

  lemma {:induction false} TotalUpdate<T>(w: (T, Capture) -> nat, s: seq<T>, i: nat, x: T, c: Capture)
    requires i < |s|
    ensures Total(w, s[i := x], c) == Total(w, s, c) - w(s[i], c) + w(x, c)
  {
    if i == 0 {
      assert s[0 := x][1..] == s[1..];
    } else {
      TotalUpdate(w, s[1..], i - 1, x, c);
      assert s[i := x][1..] == s[1..][i - 1 := x];
    }
  }

  lemma {:induction false} TotalZero<T>(w: (T, Capture) -> nat, s: seq<T>, c: Capture)
    requires forall i :: 0 <= i < |s| ==> w(s[i], c) == 0
    ensures Total(w, s, c) == 0
  {
    if s != [] {
      TotalZero(w, s[1..], c);
    }
  }

  // ---- Invariant ----

  function Phase(m: Main): nat {
    match m
    case Serving => 0 case Locking => 1 case Exclusive => 2 case Flagged => 3 case HungUp => 4
    case Released => 5 case Drained => 6 case Sealed => 7 case Shut => 8
  }

  /** Which flags the shutdown sequence has set. */
  predicate Flags(s: State) {
    && (s.qclosed <==> Phase(s.main) >= 3) && (s.queueClosed <==> Phase(s.main) >= 4)
    && (s.insertClosed <==> Phase(s.main) >= 7)
  }

  /** The read-write lock: nobody is inside while it is held for writing, and whoever has seen the
      queue open keeps it open. */
  predicate Locks(s: State) {
    && (2 <= Phase(s.main) <= 4 ==> AllOutside(s.subs))
    && (Phase(s.main) >= 2 ==> NoneOpen(s.subs))
  }

  predicate NoneOpen(subs: seq<Sub>) {
    forall i :: 0 <= i < |subs| ==> !subs[i].Open?
  }

  predicate SomeFinished(workers: seq<Worker>) {
    exists j :: 0 <= j < |workers| && workers[j] == Finished
  }

  /** A worker stops only when the closed queue is drained; the writer likewise. */
  predicate Ends(s: State) {
    && (SomeFinished(s.workers) ==> s.queueClosed && s.queue == [])
    && (Phase(s.main) >= 6 ==> AllFinished(s.workers))
    && (s.writer.done ==> s.insertClosed && s.insertQ == [])
    && (Phase(s.main) == 8 ==> s.writer.done)
  }

  /** Queues are first in, first out: what was accepted is what was taken, then what waits. */
  predicate Orders(s: State) {
    s.books.accepted == s.books.taken + s.queue && s.books.inserted == Received(s.writer) + s.insertQ
  }

  predicate Bounds(s: State) {
    && |s.queue| <= QUEUE_SIZE && |s.insertQ| <= INSERT_SIZE
    && (s.books.late != multiset{} ==> s.qclosed)
    && (s.books.dropped != multiset{} ==> |s.books.accepted| >= QUEUE_SIZE)
    && (s.books.lost != multiset{} ==> |s.books.inserted| >= INSERT_SIZE)
    && (forall c :: c in s.books.limited ==> c.tcp)
  }

  ghost predicate Control(s: State) {
    !s.panicked && Sound(s.writer) && Flags(s) && Locks(s) && Ends(s) && Orders(s) && Bounds(s)
  }

  /** Every capture that entered `Submit` is inside it, late, dropped or accepted. */
  predicate Submissions(s: State, c: Capture) {
    s.books.begun[c] == Total(InsideOne, s.subs, c) + s.books.late[c] + s.books.dropped[c] + multiset(s.books.accepted)[c]
  }

  /** Every capture taken from the queue is with a worker, limited or handled. */
  predicate Processing(s: State, c: Capture) {
    multiset(s.books.taken)[c] == Total(HeldOne, s.workers, c) + s.books.limited[c] + s.books.handled[c]
  }

  /** Every capture past `DB.Insert` was inserted or lost to a full queue. */
  predicate Storage(s: State, c: Capture) {
    multiset(s.books.inserted)[c] + s.books.lost[c] == Total(StoredOne, s.workers, c) + s.books.handled[c]
  }

  predicate Balance(s: State, c: Capture) {
    Submissions(s, c) && Processing(s, c) && Storage(s, c)
  }

  ghost predicate Inv(s: State) {
    Control(s) && forall c :: Balance(s, c)
  }

  // ---- Every step keeps the control part ----

  lemma {:induction false} ControlSubmit(s: State, i: nat, c: Capture)
    requires Control(s)
    ensures Enabled(s, Begin(i, c)) ==> Control(DoBegin(s, i, c))
    ensures Enabled(s, Check(i)) ==> Control(DoCheck(s, i))
  {
  }

  lemma {:induction false} ControlSend(s: State, i: nat)
    requires Control(s) && Enabled(s, Send(i))
    ensures Control(DoSend(s, i))
  {
    assert Phase(s.main) < 2;
    assert s.books.taken + s.queue + [s.subs[i].c] == s.books.taken + (s.queue + [s.subs[i].c]);
  }

  lemma {:induction false} ControlTake(s: State, j: nat)
    requires Control(s) && Enabled(s, Take(j))
    ensures Control(DoTake(s, j))
  {
    assert s.queue == [s.queue[0]] + s.queue[1..];
    assert s.books.taken + [s.queue[0]] + s.queue[1..] == s.books.taken + s.queue;
  }

  lemma {:induction false} ControlWorker(s: State, j: nat)
    requires Control(s)
    ensures Enabled(s, Limit(j)) ==> Control(DoLimit(s, j))
    ensures Enabled(s, Finish(j)) ==> Control(DoFinish(s, j))
    ensures Enabled(s, Exit(j)) ==> Control(DoExit(s, j))
  {
  }

  lemma {:induction false} ControlInsert(s: State, j: nat)
    requires Control(s) && Enabled(s, Insert(j))
    ensures Control(DoInsert(s, j))
  {
    assert Phase(s.main) < 6;
    assert Received(s.writer) + s.insertQ + [s.workers[j].c] == Received(s.writer) + (s.insertQ + [s.workers[j].c]);
  }

  lemma {:induction false} ControlPoll(s: State)
    requires Control(s) && Enabled(s, WriterPoll)
    ensures Control(DoPoll(s))
  {
    PollKeeps(s.writer, PollOf(s));
    var q := if s.insertQ != [] then s.insertQ[1..] else [];
    assert s.insertQ == Events(PollOf(s)) + q;
    assert Received(s.writer) + Events(PollOf(s)) + q == Received(s.writer) + s.insertQ;
  }

  lemma {:induction false} ControlMain(s: State)
    requires Control(s) && MainEnabled(s)
    ensures Control(DoMain(s))
  {
  }

  // ---- Every step keeps the books balanced ----

  lemma {:induction false} SnocCount(q: seq<Capture>, d: Capture, c: Capture)
    ensures multiset(q + [d])[c] == multiset(q)[c] + (if d == c then 1 else 0)
  {
  }

  lemma {:induction false} AddCount(m: multiset<Capture>, d: Capture, c: Capture)
    ensures (m + multiset{d})[c] == m[c] + (if d == c then 1 else 0)
  {
  }

  lemma {:induction false} BalanceBegin(s: State, i: nat, d: Capture, c: Capture)
    requires Balance(s, c) && Enabled(s, Begin(i, d))
    ensures Balance(DoBegin(s, i, d), c)
  {
    TotalUpdate(InsideOne, s.subs, i, Locked(d), c);
    AddCount(s.books.begun, d, c);
  }

  lemma {:induction false} BalanceCheck(s: State, i: nat, c: Capture)
    requires Balance(s, c) && Enabled(s, Check(i))
    ensures Balance(DoCheck(s, i), c)
  {
    var d := s.subs[i].c;
    TotalUpdate(InsideOne, s.subs, i, if s.qclosed then Outside else Open(d), c);
    AddCount(s.books.late, d, c);
  }

  lemma {:induction false} BalanceSend(s: State, i: nat, c: Capture)
    requires Balance(s, c) && Enabled(s, Send(i)) && !s.queueClosed
    ensures Balance(DoSend(s, i), c)
  {
    var d, t := s.subs[i].c, DoSend(s, i);
    TotalUpdate(InsideOne, s.subs, i, Outside, c);
    if |s.queue| < QUEUE_SIZE {
      SnocCount(s.books.accepted, d, c);
      assert t.books.accepted == s.books.accepted + [d] && t.books.dropped == s.books.dropped;
    } else {
      AddCount(s.books.dropped, d, c);
      assert t.books.accepted == s.books.accepted && t.books.dropped == s.books.dropped + multiset{d};
    }
    assert Submissions(t, c);
  }

  lemma {:induction false} BalanceTake(s: State, j: nat, c: Capture)
    requires Balance(s, c) && Enabled(s, Take(j))
    ensures Balance(DoTake(s, j), c)
  {
    TotalUpdate(HeldOne, s.workers, j, Holding(s.queue[0]), c);
    TotalUpdate(StoredOne, s.workers, j, Holding(s.queue[0]), c);
  }

  lemma {:induction false} BalanceReturn(s: State, j: nat, c: Capture)
    requires Balance(s, c)
    ensures Enabled(s, Limit(j)) ==> Balance(DoLimit(s, j), c)
    ensures Enabled(s, Finish(j)) ==> Balance(DoFinish(s, j), c)
  {
    if Enabled(s, Limit(j)) || Enabled(s, Finish(j)) {
      TotalUpdate(HeldOne, s.workers, j, Waiting, c);
      TotalUpdate(StoredOne, s.workers, j, Waiting, c);
      AddCount(s.books.limited, s.workers[j].c, c);
      AddCount(s.books.handled, s.workers[j].c, c);
    }
  }

  lemma {:induction false} BalanceExit(s: State, j: nat, c: Capture)
    requires Balance(s, c) && Enabled(s, Exit(j))
    ensures Balance(DoExit(s, j), c)
  {
    TotalUpdate(HeldOne, s.workers, j, Finished, c);
    TotalUpdate(StoredOne, s.workers, j, Finished, c);
  }

  lemma {:induction false} BalanceInsert(s: State, j: nat, c: Capture)
    requires Balance(s, c) && Enabled(s, Insert(j)) && !s.insertClosed
    ensures Balance(DoInsert(s, j), c)
  {
    var d, t := s.workers[j].c, DoInsert(s, j);
    TotalUpdate(HeldOne, s.workers, j, Stored(d), c);
    TotalUpdate(StoredOne, s.workers, j, Stored(d), c);
    if |s.insertQ| < INSERT_SIZE {
      SnocCount(s.books.inserted, d, c);
      assert t.books.inserted == s.books.inserted + [d] && t.books.lost == s.books.lost;
    } else {
      AddCount(s.books.lost, d, c);
      assert t.books.inserted == s.books.inserted && t.books.lost == s.books.lost + multiset{d};
    }
    assert Storage(t, c);
  }

  lemma {:induction false} ControlStep(s: State, step: Step)
    requires Control(s) && Enabled(s, step)
    ensures Control(Next(s, step))
  {
    match step
    case Begin(i, c) => ControlSubmit(s, i, c);
    case Check(i) => ControlSubmit(s, i, s.subs[i].c);
    case Send(i) => ControlSend(s, i);
    case Take(j) => ControlTake(s, j);
    case Insert(j) => ControlInsert(s, j);
    case Limit(j) => ControlWorker(s, j);
    case Finish(j) => ControlWorker(s, j);
    case Exit(j) => ControlWorker(s, j);
    case WriterPoll => ControlPoll(s);
    case MainStep => ControlMain(s);
  }

  lemma {:induction false} BalanceStep(s: State, step: Step, c: Capture)
    requires Control(s) && Balance(s, c) && Enabled(s, step)
    ensures Balance(Next(s, step), c)
  {
    match step
    case Begin(i, d) => BalanceBegin(s, i, d, c);
    case Check(i) => BalanceCheck(s, i, c);
    case Send(i) =>
      assert !s.queueClosed;
      BalanceSend(s, i, c);
    case Take(j) => BalanceTake(s, j, c);
    case Insert(j) =>
      assert !s.insertClosed;
      BalanceInsert(s, j, c);
    case Limit(j) => BalanceReturn(s, j, c);
    case Finish(j) => BalanceReturn(s, j, c);
    case Exit(j) => BalanceExit(s, j, c);
    case WriterPoll =>
    case MainStep =>
  }

  lemma {:induction false} StepKeepsInv(s: State, step: Step)
    requires Inv(s)
    ensures Inv(Next(s, step))
  {
    if Enabled(s, step) {
      ControlStep(s, step);
      forall c
        ensures Balance(Next(s, step), c)
      {
        BalanceStep(s, step, c);
      }
    }
  }

  lemma {:induction false} InitialInv(m: nat, n: nat)
    requires n > 0
    ensures Inv(Initial(m, n))
  {
    forall c
      ensures Balance(Initial(m, n), c)
    {
      TotalZero(InsideOne, Initial(m, n).subs, c);
      TotalZero(HeldOne, Initial(m, n).workers, c);
      TotalZero(StoredOne, Initial(m, n).workers, c);
    }
  }

  function Workers(r: Run): nat {
    match r
    case Start(_, n) => n
    case Then(q, _) => Workers(q)
  }

  lemma {:induction false} RunInv(r: Run)
    requires Workers(r) > 0
    ensures Inv(After(r))
  {
    match r
    case Start(m, n) => InitialInv(m, n);
    case Then(q, step) =>
      RunInv(q);
      StepKeepsInv(After(q), step);
  }

  lemma {:induction false} CrewFixed(r: Run)
    ensures |After(r).workers| == Workers(r)
  {
    match r
    case Start(_, _) =>
    case Then(q, step) =>
      CrewFixed(q);
      CrewKept(After(q), step);
  }

  lemma {:induction false} CrewKept(s: State, step: Step)
    ensures |Next(s, step).workers| == |s.workers|
  {
    if Enabled(s, step) {
      match step
      case Take(j) => assert |DoTake(s, j).workers| == |s.workers|;
      case Limit(j) => assert |DoLimit(s, j).workers| == |s.workers|;
      case Insert(j) => assert |DoInsert(s, j).workers| == |s.workers|;
      case Finish(j) => assert |DoFinish(s, j).workers| == |s.workers|;
      case Exit(j) => assert |DoExit(s, j).workers| == |s.workers|;
      case _ =>
    }
  }

  // ---- What every run guarantees ----

  /** No send ever reaches a closed queue, and both queues stay within their capacity. */
  lemma {:induction false} NoSendOnClosed(r: Run)
    requires Workers(r) > 0
    ensures !After(r).panicked && |After(r).queue| <= QUEUE_SIZE && |After(r).insertQ| <= INSERT_SIZE
  {
    RunInv(r);
  }

  /** Conservation, in every reachable state and for every capture. */
  lemma {:induction false} Conservation(r: Run, c: Capture)
    requires Workers(r) > 0
    ensures var s, b := After(r), After(r).books;
            && b.begun[c] == Total(InsideOne, s.subs, c) + b.late[c] + b.dropped[c] + multiset(b.accepted)[c]
            && b.accepted == b.taken + s.queue
            && multiset(b.accepted)[c] == multiset(s.queue)[c] + Total(HeldOne, s.workers, c) + b.limited[c] + b.handled[c]
  {
    RunInv(r);
    var s, b := After(r), After(r).books;
    assert Balance(s, c);
    assert multiset(b.taken + s.queue)[c] == multiset(b.taken)[c] + multiset(s.queue)[c];
  }

  /** Once the database is being closed, no capture is left in the queue or with a worker. */
  lemma {:induction false} ProcessedBeforeClose(r: Run)
    requires Workers(r) > 0 && After(r).insertClosed
    ensures After(r).queue == [] && AllFinished(After(r).workers)
    ensures multiset(After(r).books.accepted) == After(r).books.limited + After(r).books.handled
    ensures multiset(After(r).books.inserted) + After(r).books.lost == After(r).books.handled
  {
    var s := After(r);
    RunInv(r);
    CrewFixed(r);
    assert s.workers[0] == Finished;
    assert SomeFinished(s.workers);
    forall c
      ensures multiset(s.books.accepted)[c] == s.books.limited[c] + s.books.handled[c]
      ensures multiset(s.books.inserted)[c] + s.books.lost[c] == s.books.handled[c]
    {
      assert Balance(s, c);
      TotalZero(HeldOne, s.workers, c);
      TotalZero(StoredOne, s.workers, c);
      assert s.books.taken + [] == s.books.taken;
    }
  }

  /** The flushed batches and the open one are exactly the accepted inserts still not waiting, in
      order; every batch holds 1 to 64 events. */
  lemma {:induction false} BatchesInOrder(r: Run)
    requires Workers(r) > 0
    ensures var s := After(r);
            && s.books.inserted == Flatten(s.writer.flushed) + s.writer.batch + s.insertQ && Sized(s.writer.flushed)
            && (s.main == Shut ==> s.books.inserted == Flatten(s.writer.flushed))
  {
    RunInv(r);
    var s := After(r);
    assert s.main == Shut ==> s.writer.batch == [] && s.insertQ == [];
    assert Flatten(s.writer.flushed) + [] + [] == Flatten(s.writer.flushed);
  }

  /** When `Run` returns, every accepted capture was limited (TCP only), is in a flushed batch, or was
      lost to a full insert queue; nothing was lost if the inserts never filled that queue. */
  lemma {:induction false} NothingLostAtShutdown(r: Run)
    requires Workers(r) > 0 && After(r).main == Shut
    ensures var s, b := After(r), After(r).books;
            && multiset(b.accepted) == b.limited + multiset(Flatten(s.writer.flushed)) + b.lost
            && (forall c :: c in b.limited ==> c.tcp)
            && (|b.accepted| <= INSERT_SIZE ==> b.lost == multiset{})
  {
    RunInv(r);
    ProcessedBeforeClose(r);
    BatchesInOrder(r);
    var s, b := After(r), After(r).books;
    assert |multiset(b.accepted)| == |b.accepted| && |multiset(b.inserted)| == |b.inserted|;
    assert |multiset(b.accepted)| == |b.limited| + |b.handled|;
    assert |b.handled| == |multiset(b.inserted)| + |b.lost|;
  }

  // ---- Shutdown cannot stall ----

  function SubWork(x: Sub, c: Capture): nat {
    match x case Outside => 0 case Locked(_) => 8 case Open(_) => 7
  }

  function WorkerWork(x: Worker, c: Capture): nat {
    match x case Finished => 0 case Waiting => 1 case Holding(_) => 6 case Stored(_) => 2
  }

  /** Work still to do; `c` is irrelevant. */
  function Work(s: State, c: Capture): nat {
    Total(SubWork, s.subs, c) + Total(WorkerWork, s.workers, c) + 6 * |s.queue| + 3 * |s.insertQ| + |s.writer.batch|
    + (if s.writer.done then 0 else 1) + (8 - Phase(s.main))
  }

  predicate Effective(s: State, step: Step) {
    Enabled(s, step) && !step.Begin?
  }

  lemma {:induction false} SubmitWork(s: State, i: nat, c: Capture)
    requires Control(s)
    ensures Enabled(s, Check(i)) ==> Work(DoCheck(s, i), c) < Work(s, c)
    ensures Enabled(s, Send(i)) ==> Work(DoSend(s, i), c) < Work(s, c)
  {
    if i < |s.subs| {
      TotalUpdate(SubWork, s.subs, i, Outside, c);
      if s.subs[i] != Outside {
        TotalUpdate(SubWork, s.subs, i, Open(s.subs[i].c), c);
      }
    }
  }

  lemma {:induction false} TakeWork(s: State, j: nat, c: Capture)
    requires Enabled(s, Take(j))
    ensures Work(DoTake(s, j), c) < Work(s, c)
  {
    TotalUpdate(WorkerWork, s.workers, j, Holding(s.queue[0]), c);
  }

  lemma {:induction false} InsertWork(s: State, j: nat, c: Capture)
    requires Enabled(s, Insert(j))
    ensures Work(DoInsert(s, j), c) < Work(s, c)
  {
    TotalUpdate(WorkerWork, s.workers, j, Stored(s.workers[j].c), c);
  }

  lemma {:induction false} LeaveWork(s: State, step: Step, c: Capture)
    requires Enabled(s, step) && (step.Limit? || step.Finish? || step.Exit?)
    ensures Work(Next(s, step), c) < Work(s, c)
  {
    TotalUpdate(WorkerWork, s.workers, step.j, if step.Exit? then Finished else Waiting, c);
  }

  lemma {:induction false} WorkersWork(s: State, step: Step, c: Capture)
    requires Enabled(s, step) && (step.Take? || step.Limit? || step.Insert? || step.Finish? || step.Exit?)
    ensures Work(Next(s, step), c) < Work(s, c)
  {
    match step
    case Take(j) => TakeWork(s, j, c);
    case Insert(j) => InsertWork(s, j, c);
    case _ => LeaveWork(s, step, c);
  }

  lemma {:induction false} PollWork(s: State, c: Capture)
    requires Control(s) && Enabled(s, WriterPoll)
    ensures Work(DoPoll(s), c) < Work(s, c)
  {
  }

  lemma {:induction false} MainWork(s: State, c: Capture)
    requires MainEnabled(s)
    ensures Work(DoMain(s), c) < Work(s, c)
  {
  }

  /** Every step but a new submission reduces the work left. */
  lemma {:induction false} EveryStepHelps(s: State, step: Step, c: Capture)
    requires Control(s) && Effective(s, step)
    ensures Work(Next(s, step), c) < Work(s, c)
  {
    match step
    case Begin(_, _) =>
    case Check(i) => SubmitWork(s, i, c);
    case Send(i) => SubmitWork(s, i, c);
    case WriterPoll => PollWork(s, c);
    case MainStep => MainWork(s, c);
    case _ => WorkersWork(s, step, c);
  }

  /** Until the database is closed, some step other than a new submission is possible in every
      reachable state, so shutdown can neither deadlock nor run forever. */
  lemma {:induction false} NeverStuck(r: Run) returns (step: Step)
    requires Workers(r) > 0 && After(r).main != Shut
    ensures Effective(After(r), step)
  {
    RunInv(r);
    var s := After(r);
    if s.main == Locking && !AllOutside(s.subs) {
      var i :| 0 <= i < |s.subs| && s.subs[i] != Outside;
      step := if s.subs[i].Locked? then Check(i) else Send(i);
    } else if s.main == Released && !AllFinished(s.workers) {
      var j :| 0 <= j < |s.workers| && s.workers[j] != Finished;
      step := match s.workers[j]
        case Waiting => if s.queue != [] then Take(j) else Exit(j)
        case Holding(_) => Insert(j)
        case Stored(_) => Finish(j);
    } else if s.main == Sealed && !s.writer.done {
      step := WriterPoll;
    } else {
      step := MainStep;
    }
  }

  function Submitted(r: Run): nat {
    match r
    case Start(_, _) => 0
    case Then(q, step) => Submitted(q) + if step.Begin? && Enabled(After(q), step) then 1 else 0
  }

  function Moves(r: Run): nat {
    match r
    case Start(_, _) => 0
    case Then(q, step) => Moves(q) + if Effective(After(q), step) then 1 else 0
  }

  lemma {:induction false} TotalOnes(n: nat, c: Capture)
    ensures Total(WorkerWork, seq(n, _ => Waiting), c) == n
  {
    var s: seq<Worker> := seq(n, _ => Waiting);
    if n > 0 {
      TotalOnes(n - 1, c);
      assert s[1..] == seq(n - 1, _ => Waiting);
    }
  }

  /** A run makes at most nine moves, one per worker and eight per submitted capture. */
  lemma {:induction false} RunsAreShort(r: Run, c: Capture)
    requires Workers(r) > 0
    ensures Work(After(r), c) + Moves(r) <= 9 + Workers(r) + 8 * Submitted(r)
  {
    match r
    case Start(m, n) =>
      TotalZero(SubWork, Initial(m, n).subs, c);
      TotalOnes(n, c);
      assert Initial(m, n).workers == seq(n, _ => Waiting);
    case Then(q, step) =>
      RunsAreShort(q, c);
      RunInv(q);
      if Effective(After(q), step) {
        EveryStepHelps(After(q), step, c);
      } else if Enabled(After(q), step) {
        BeginWork(After(q), step.i, step.c, c);
      }
  }

  lemma {:induction false} BeginWork(s: State, i: nat, d: Capture, c: Capture)
    requires Enabled(s, Begin(i, d))
    ensures Work(DoBegin(s, i, d), c) == Work(s, c) + 8
  {
    TotalUpdate(SubWork, s.subs, i, Locked(d), c);
  }

  // ---- The program's shared fields ----

  lemma {:induction false} FinishFollows(s: State, c: Capture, j: nat)
    requires j < |s.workers| && s.workers[j] == Holding(c)
    ensures var t := Next(s, Insert(j));
            && Next(t, Finish(j)) == t.(workers := t.workers[j := Waiting], books := t.books.(handled := t.books.handled + multiset{c}))
            && |t.books.handled + multiset{c}| == |t.books.handled| + 1
  {
  }

  /** The channels, the flag and the counters, changed in place by the goroutines' critical sections.
      Each method is one goroutine's uninterrupted steps from state `s`. */
  class Shared {
    var queue: seq<Capture>
    var queueClosed: bool
    var qclosed: bool
    var dropped: nat
    var handled: nat
    var insertQ: seq<Capture>
    var insertClosed: bool

    /** The fields hold what they hold in `s`. */
    predicate In(s: State)
      reads this
    {
      && queue == s.queue && queueClosed == s.queueClosed && qclosed == s.qclosed && dropped == |s.books.dropped|
      && handled == |s.books.handled| && insertQ == s.insertQ && insertClosed == s.insertClosed
    }

    constructor (m: nat, n: nat)
      ensures In(Initial(m, n))
    {
      queue, queueClosed, qclosed, dropped, handled, insertQ, insertClosed := [], false, false, 0, 0, [], false;
    }

    /** `Submit`. */
    method Submit(c: Capture, ghost s: State, ghost i: nat)
      requires Control(s) && In(s) && Enabled(s, Begin(i, c))
      modifies this
      ensures In(Next(Next(Next(s, Begin(i, c)), Check(i)), Send(i)))
    {
      if qclosed {
        return;
      }
      assert !queueClosed;
      if |queue| < QUEUE_SIZE {
        queue := queue + [c];
      } else {
        dropped := dropped + 1;
      }
    }

    /** The worker's receive; false once the queue is closed and drained. */
    method Receive(ghost s: State, ghost j: nat) returns (ok: bool, c: Capture)
      requires In(s) && (Enabled(s, Take(j)) || Enabled(s, Exit(j)))
      modifies this
      ensures ok <==> Enabled(s, Take(j))
      ensures ok ==> In(Next(s, Take(j))) && Next(s, Take(j)).workers[j] == Holding(c)
      ensures !ok ==> In(Next(s, Exit(j)))
    {
      if queue == [] {
        return false, Capture("", "", false, []);
      }
      ok, c := true, queue[0];
      queue := queue[1..];
    }

    /** `EventDB.Insert`. */
    method InsertEvent(c: Capture, ghost s: State, ghost j: nat)
      requires Control(s) && In(s) && j < |s.workers| && s.workers[j] == Holding(c)
      modifies this
      ensures In(Next(s, Insert(j)))
    {
      assert s.workers[j] != Finished && Phase(s.main) < 6;
      assert !insertClosed;
      if |insertQ| < INSERT_SIZE {
        insertQ := insertQ + [c];
      }
    }

    /** `process`, the limiter's verdict given. */
    method Process(c: Capture, allowed: bool, ghost s: State, ghost j: nat)
      requires Control(s) && In(s) && j < |s.workers| && s.workers[j] == Holding(c)
      modifies this
      ensures In(if c.tcp && !allowed then Next(s, Limit(j)) else Next(Next(s, Insert(j)), Finish(j)))
    {
      if c.tcp && !allowed {
        return;
      }
      InsertEvent(c, s, j);
      FinishFollows(s, c, j);
      handled := handled + 1;
    }

    /** The critical section of `Run`'s shutdown. */
    method HangUp(ghost s: State)
      requires In(s) && s.main == Exclusive
      modifies this
      ensures In(Next(Next(s, MainStep), MainStep))
    {
      qclosed := true;
      queueClosed := true;
    }

    /** `EventDB.Close` up to waiting for the writer. */
    method Seal(ghost s: State)
      requires In(s) && s.main == Drained
      modifies this
      ensures In(Next(s, MainStep))
    {
      insertClosed := true;
    }
  }
}
