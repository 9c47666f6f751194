/** The database writer: receives events one by one and flushes them in batches. */
module WriteLoop {
  const BATCH_MAX: nat := 64

  /** One receive on the insert queue: an event, nothing there, or closed and drained. */
  datatype Poll<T> = Got(ev: T) | Empty | Closed

  /** `draining` marks the inner loop, entered once a batch is begun. */
  datatype Writer<T> = Writer(draining: bool, batch: seq<T>, flushed: seq<seq<T>>, done: bool)

  function Fresh<T>(): Writer<T> {
    Writer(false, [], [], false)
  }

  function Flushed<T>(w: Writer<T>, batch: seq<T>): seq<seq<T>> {
    if batch == [] then w.flushed else w.flushed + [batch]
  }

  /** What one receive does to the writer. The outer receive blocks on an empty queue. */
  function OnPoll<T>(w: Writer<T>, p: Poll<T>): Writer<T> {
    if w.done then w
    else match p
      case Got(ev) =>
        if |w.batch| + 1 < BATCH_MAX then w.(draining := true, batch := w.batch + [ev])
        else Writer(false, [], Flushed(w, w.batch + [ev]), false)
      case Empty => if w.draining then Writer(false, [], Flushed(w, w.batch), false) else w
      case Closed => Writer(false, [], Flushed(w, w.batch), true)
  }

  function OnPolls<T>(w: Writer<T>, script: seq<Poll<T>>, i: nat): Writer<T>
    requires i <= |script|
    decreases |script| - i
  {
    if i == |script| then w else OnPolls(OnPoll(w, script[i]), script, i + 1)
  }

  function Flatten<T>(bs: seq<seq<T>>): seq<T> {
    if bs == [] then [] else bs[0] + Flatten(bs[1..])
  }

  lemma {:induction false} FlattenSnoc<T>(bs: seq<seq<T>>, b: seq<T>)
    ensures Flatten(bs + [b]) == Flatten(bs) + b
  {
    if bs == [] {
      assert [b][1..] == [] && bs + [b] == [b];
      assert b + [] == b;
    } else {
      FlattenSnoc(bs[1..], b);
      assert (bs + [b])[1..] == bs[1..] + [b];
      assert bs[0] + (Flatten(bs[1..]) + b) == bs[0] + Flatten(bs[1..]) + b;
    }
  }

  ghost predicate Sized<T>(bs: seq<seq<T>>) {
    forall i :: 0 <= i < |bs| ==> 1 <= |bs[i]| <= BATCH_MAX
  }

  /** Between receives: a batch is open exactly in the inner loop and never full. */
  ghost predicate Sound<T>(w: Writer<T>) {
    |w.batch| < BATCH_MAX && (w.draining <==> w.batch != []) && (w.done ==> w.batch == []) && Sized(w.flushed)
  }

  /** Everything received so far, in order. */
  function Received<T>(w: Writer<T>): seq<T> {
    Flatten(w.flushed) + w.batch
  }

  lemma {:induction false} FlushKeeps<T>(w: Writer<T>, batch: seq<T>)
    requires Sized(w.flushed) && |batch| <= BATCH_MAX
    ensures Sized(Flushed(w, batch)) && Flatten(Flushed(w, batch)) == Flatten(w.flushed) + batch
  {
    FlattenSnoc(w.flushed, batch);
    assert batch == [] ==> Flatten(w.flushed) + batch == Flatten(w.flushed);
  }

  function Events<T>(p: Poll<T>): seq<T> {
    if p.Got? then [p.ev] else []
  }

  lemma {:induction false} PollKeeps<T>(w: Writer<T>, p: Poll<T>)
    requires Sound(w) && !w.done
    ensures Sound(OnPoll(w, p)) && Received(OnPoll(w, p)) == Received(w) + Events(p)
  {
    FlushKeeps(w, w.batch);
    if p.Got? {
      FlushKeeps(w, w.batch + [p.ev]);
      assert Flatten(w.flushed) + (w.batch + [p.ev]) == Received(w) + [p.ev];
    }
  }

  /** A batch is flushed exactly when it is full, or when something is in it and nothing more is waiting. */
  lemma {:induction false} FlushedIff<T>(w: Writer<T>, p: Poll<T>)
    requires Sound(w) && !w.done
    ensures var v := OnPoll(w, p);
            && (v.flushed != w.flushed <==> (p.Got? && |w.batch| == 63) || (!p.Got? && w.batch != []))
            && (v.flushed != w.flushed ==> v.flushed == w.flushed + [w.batch + Events(p)] && v.batch == [])
            && (v.flushed == w.flushed ==> v.batch == w.batch + Events(p))
  {
    assert w.batch + [] == w.batch;
  }

  /** The events a script delivers before it closes. */
  function Delivered<T>(script: seq<Poll<T>>, i: nat): seq<T>
    requires i <= |script|
    decreases |script| - i
  {
    if i == |script| || script[i].Closed? then [] else Events(script[i]) + Delivered(script, i + 1)
  }

  lemma {:induction false} DoneStays<T>(w: Writer<T>, script: seq<Poll<T>>, i: nat)
    requires i <= |script| && w.done
    ensures OnPolls(w, script, i) == w
    decreases |script| - i
  {
    if i < |script| {
      DoneStays(w, script, i + 1);
    }
  }

  /** Whatever the receives bring, batches hold 1 to 64 events and, with the open batch, are
      exactly the events received, in order; once closed, everything has been flushed. */
  lemma {:induction false} BatchesAreTheInput<T>(w: Writer<T>, script: seq<Poll<T>>, i: nat)
    requires i <= |script| && Sound(w) && !w.done
    ensures var v := OnPolls(w, script, i);
            && Sound(v) && Received(v) == Received(w) + Delivered(script, i)
            && (v.done <==> exists k :: i <= k < |script| && script[k].Closed?)
            && (v.done ==> Flatten(v.flushed) == Received(w) + Delivered(script, i))
    decreases |script| - i
  {
    if i < |script| {
      var v := OnPoll(w, script[i]);
      PollKeeps(w, script[i]);
      if v.done {
        DoneStays(v, script, i + 1);
        assert Received(v) == Flatten(v.flushed);
      } else {
        BatchesAreTheInput(v, script, i + 1);
        assert Received(w) + Events(script[i]) + Delivered(script, i + 1) == Received(w) + Delivered(script, i);
        var u := OnPolls(v, script, i + 1);
        assert u.done ==> Received(u) == Flatten(u.flushed);
      }
    }
  }

  /** `writeLoop`, its receives answered by `script` (the rest of the program decides them).
      A script that ends unclosed leaves the writer waiting with its open batch. */
  method Run<T>(script: seq<Poll<T>>) returns (w: Writer<T>)
    ensures w == OnPolls(Fresh(), script, 0)
  {
    var batch: seq<T>, flushed: seq<seq<T>>, i := [], [], 0;
    while i < |script|
      invariant i <= |script| && batch == []
      invariant OnPolls(Writer(false, [], flushed, false), script, i) == OnPolls(Fresh(), script, 0)
      decreases |script| - i
    {
      var first := script[i];
      i := i + 1;
      if first.Empty? {
        continue; // blocked
      }
      if first.Closed? {
        DoneStays(Writer(false, [], flushed, true), script, i);
        return Writer(false, [], flushed, true);
      }
      batch := batch + [first.ev];
      while |batch| < BATCH_MAX
        invariant i <= |script| && 1 <= |batch| <= BATCH_MAX
        invariant OnPolls(
                    if |batch| < BATCH_MAX then Writer(true, batch, flushed, false)
                    else Writer(false, [], flushed + [batch], false), script, i)
          == OnPolls(Fresh(), script, 0)
        decreases |script| - i
      {
        if i == |script| {
          return Writer(true, batch, flushed, false);
        }
        var p := script[i];
        i := i + 1;
        if p.Closed? {
          DoneStays(Writer(false, [], flushed + [batch], true), script, i);
          return Writer(false, [], flushed + [batch], true);
        }
        if p.Empty? {
          break;
        }
        batch := batch + [p.ev];
      }
      flushed := flushed + [batch];
      batch := [];
    }
    return Writer(false, [], flushed, false);
  }
}
