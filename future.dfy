/** The future: a single-assignment, multicast result cell. Its state is an
    optional result and a FIFO queue of watchers, the continuations of the
    computations waiting for it. */
module Futures {
  import opened Results

  /** A continuation waiting on a future. Every future starts with one watcher,
      the bridge that settles the host promise; the others are awaiters. */
  datatype Watcher = PromiseBridge | Awaiter(id: nat)

  /** One invocation of a watcher with the stored result. */
  datatype Notification<T> = Notification(watcher: Watcher, result: Result<T>)

  /** What the drain delivers for queue `q`: each watcher exactly once, with the
      same result, in the order in which they began waiting. */
  function Deliveries<T>(q: seq<Watcher>, r: Result<T>): (d: seq<Notification<T>>)
    ensures |d| == |q|
    ensures forall i :: 0 <= i < |q| ==> d[i] == Notification(q[i], r)
  {
    if q == [] then [] else [Notification(q[0], r)] + Deliveries(q[1..], r)
  }

  /** No watcher awaits again. */
  function NoReawait(w: Watcher): Option<Watcher> {
    None
  }

  /** Everything the drain of the queue `q` answers, in the order it
      happens. `again(w) == Some(w2)` when the computation `w` awaits the
      same future once more, with continuation `w2`, before its own
      notification returns: `w2` is answered at once, right after `w` and
      before the next watcher of the queue. */
  function Drain<T>(q: seq<Watcher>, r: Result<T>, again: Watcher -> Option<Watcher>): (d: seq<Notification<T>>)
    ensures |q| <= |d| <= 2 * |q|
    ensures forall n :: n in d ==> n.result == r
  {
    if q == [] then []
    else [Notification(q[0], r)] + (if again(q[0]).Some? then [Notification(again(q[0]).value, r)] else [])
         + Drain(q[1..], r, again)
  }

  /** Draining one more watcher extends the log with its notification and
      then with its re-await's answer. */
  lemma {:induction false} DrainAppend<T>(q: seq<Watcher>, w: Watcher, r: Result<T>, again: Watcher -> Option<Watcher>)
    ensures Drain(q + [w], r, again)
            == Drain(q, r, again) + [Notification(w, r)] + (if again(w).Some? then [Notification(again(w).value, r)] else [])
  {
    if q == [] {
      assert [w][1..] == [];
    } else {
      assert (q + [w])[1..] == q[1..] + [w];
      DrainAppend(q[1..], w, r, again);
    }
  }

  /** When nobody awaits again, the drain answers exactly the queue, in
      order. */
  lemma {:induction false} DrainWithoutReawait<T>(q: seq<Watcher>, r: Result<T>)
    ensures Drain(q, r, NoReawait) == Deliveries(q, r)
  {
    if q != [] {
      DrainWithoutReawait(q[1..], r);
    }
  }

  /** How the host promise of a future settles. */
  datatype Settlement<T> = Fulfilled(value: T) | Rejected(reason: Exception)

  /** What the promise bridge does with the result it is notified with. */
  function Settle<T>(r: Result<T>): Settlement<T> {
    match r
    case Value(v) => Fulfilled(v)
    case Error(e) => Rejected(e)
    case Halt => Rejected(HaltError)
  }

  /** The promise fulfils exactly for a value, with that value; an error
      rejects with that error and a halt with the halt error. */
  lemma SettleMapsResults<T>(r: Result<T>)
    ensures Settle(r).Fulfilled? <==> r.Value?
    ensures r.Value? ==> Settle(r) == Fulfilled(r.value)
    ensures r.Error? ==> Settle(r) == Rejected(r.error)
    ensures r.Halt? ==> Settle(r) == Rejected(HaltError)
  {
  }

  /** An outside observer cannot tell a halted future from one rejected with
      an error whose message is "halt". */
  lemma HaltLooksLikeHaltError<T>()
    ensures Settle<T>(Halt) == Settle<T>(Error(Exception("halt")))
  {
  }

  class Future<T> {
    var result: Option<Result<T>>
    var watchers: seq<Watcher>

    /** `createFuture()`: unsettled, with the promise bridge already waiting. */
    constructor ()
      ensures result == None && watchers == [PromiseBridge]
    {
      result := None;
      watchers := [PromiseBridge];
    }

    /** `produce(r)`: the first call stores `r` and then drains the queue in
        order; every later call changes nothing. The result is stored before
        the drain, so a watcher that awaits the future again while it is
        being notified (`again`) is answered at once with `r` and never
        joins the queue. */
    method Produce(r: Result<T>, again: Watcher -> Option<Watcher>) returns (delivered: seq<Notification<T>>, log: seq<Notification<T>>)
      modifies this
      ensures old(result).Some? ==> result == old(result) && watchers == old(watchers) && delivered == [] && log == []
      ensures old(result).None? ==> result == Some(r) && watchers == [] && delivered == Deliveries(old(watchers), r)
      ensures old(result).None? ==> log == Drain(old(watchers), r, again)
    {
      if result.Some? {
        return [], [];
      }
      result := Some(r);
      delivered, log := [], [];
      ghost var queue := watchers;
      while watchers != []
        invariant result == Some(r)
        invariant |delivered| <= |queue| && watchers == queue[|delivered|..]
        invariant forall i :: 0 <= i < |delivered| ==> delivered[i] == Notification(queue[i], r)
        invariant log == Drain(queue[..|delivered|], r, again)
        decreases |watchers|
      {
        var notify := watchers[0];
        watchers := watchers[1..];
        DrainAppend(queue[..|delivered|], notify, r, again);
        assert queue[..|delivered| + 1] == queue[..|delivered|] + [notify];
        delivered := delivered + [Notification(notify, r)];
        log := log + [Notification(notify, r)];
        var w := again(notify);
        if w.Some? {
          var answer := Await(w.value);
          log := log + [Notification(w.value, answer.value)];
        }
      }
      assert |delivered| == |queue|;
      assert queue[..|queue|] == queue;
    }

    /** `resolve(v)`: `produce({value: v})`. */
    method Resolve(v: T, again: Watcher -> Option<Watcher>) returns (delivered: seq<Notification<T>>, log: seq<Notification<T>>)
      modifies this
      ensures old(result).Some? ==> result == old(result) && watchers == old(watchers) && delivered == [] && log == []
      ensures old(result).None? ==> result == Some(Value(v)) && watchers == [] && delivered == Deliveries(old(watchers), Value(v))
      ensures old(result).None? ==> log == Drain(old(watchers), Value(v), again)
    {
      delivered, log := Produce(Value(v), again);
    }

    /** `reject(e)`: `produce({error: e})`. */
    method Reject(e: Exception, again: Watcher -> Option<Watcher>) returns (delivered: seq<Notification<T>>, log: seq<Notification<T>>)
      modifies this
      ensures old(result).Some? ==> result == old(result) && watchers == old(watchers) && delivered == [] && log == []
      ensures old(result).None? ==> result == Some(Error(e)) && watchers == [] && delivered == Deliveries(old(watchers), Error(e))
      ensures old(result).None? ==> log == Drain(old(watchers), Error(e), again)
    {
      delivered, log := Produce(Error(e), again);
    }

    /** `halt()`: `produce({halt})`. */
    method Halt(again: Watcher -> Option<Watcher>) returns (delivered: seq<Notification<T>>, log: seq<Notification<T>>)
      modifies this
      ensures old(result).Some? ==> result == old(result) && watchers == old(watchers) && delivered == [] && log == []
      ensures old(result).None? ==> result == Some(Results.Halt) && watchers == [] && delivered == Deliveries(old(watchers), Results.Halt)
      ensures old(result).None? ==> log == Drain(old(watchers), Results.Halt, again)
    {
      delivered, log := Produce(Results.Halt, again);
    }

    /** `yield* future`: a settled future answers at once with its result and
        queues nothing; an unsettled one queues the awaiter at the end. */
    method Await(w: Watcher) returns (r: Option<Result<T>>)
      modifies this
      ensures result == old(result) && r == old(result)
      ensures old(result).Some? ==> watchers == old(watchers)
      ensures old(result).None? ==> watchers == old(watchers) + [w]
    {
      if result.Some? {
        r := result;
      } else {
        watchers := watchers + [w];
        r := None;
      }
    }
  }

  /** `Future.resolve(v)`: a future already settled with `{value: v}`; its
      promise bridge has been notified. */
  method Resolved<T>(v: T) returns (f: Future<T>, delivered: seq<Notification<T>>)
    ensures fresh(f) && f.result == Some(Value(v)) && f.watchers == []
    ensures delivered == [Notification(PromiseBridge, Value(v))]
  {
    f := new Future();
    var log;
    delivered, log := f.Produce(Value(v), NoReawait);
  }

  /** `Future.suspend()`: a future that is never produced. */
  method Suspended<T>() returns (f: Future<T>)
    ensures fresh(f) && f.result == None
  {
    f := new Future();
  }

  /** Two computations await an unsettled future, one after the other; one
      `resolve` notifies the promise bridge, then the first, then the second. */
  method ResolvesInOrderOfWaiting() returns (delivered: seq<Notification<()>>)
    ensures delivered == [Notification(PromiseBridge, Value(())),
                          Notification(Awaiter(1), Value(())),
                          Notification(Awaiter(2), Value(()))]
  {
    var f := new Future<()>();
    var a := f.Await(Awaiter(1));
    var b := f.Await(Awaiter(2));
    var log;
    delivered, log := f.Resolve((), NoReawait);
  }

  /** A future resolved with "hello" and then with "world" notifies its
      waiting observer once with "hello", and a later observer also sees "hello". */
  method ResolvesToOneValue() returns (delivered: seq<Notification<string>>, late: Option<Result<string>>)
    ensures delivered == [Notification(PromiseBridge, Value("hello")), Notification(Awaiter(1), Value("hello"))]
    ensures late == Some(Value("hello"))
  {
    var f := new Future<string>();
    var early := f.Await(Awaiter(1));
    var log, again, relog;
    delivered, log := f.Resolve("hello", NoReawait);
    again, relog := f.Resolve("world", NoReawait);
    late := f.Await(Awaiter(2));
  }

  /** After a rejection, a resolve changes nothing; after a resolve, a
      rejection changes nothing. */
  method FirstProductionWins(e: Exception) returns (afterReject: Option<Result<string>>, afterResolve: Option<Result<string>>)
    ensures afterReject == Some(Error(e))
    ensures afterResolve == Some(Value("hello"))
  {
    var f := new Future<string>();
    var d1, r1 := f.Reject(e, NoReawait);
    var d2, r2 := f.Resolve("hello", NoReawait);
    afterReject := f.Await(Awaiter(1));
    var g := new Future<string>();
    var d3, r3 := g.Resolve("hello", NoReawait);
    var d4, r4 := g.Reject(e, NoReawait);
    afterResolve := g.Await(Awaiter(1));
  }

  /** A computation that awaits the future again while it is being notified
      of the result is answered at once with the same result: right after
      its own notification and before any later watcher. The queue is left
      empty. */
  method ReawaitIsAnsweredAtOnce() returns (log: seq<Notification<int>>, left: seq<Watcher>)
    ensures log == [Notification(PromiseBridge, Value(7)), Notification(Awaiter(1), Value(7)),
                    Notification(Awaiter(2), Value(7)), Notification(Awaiter(3), Value(7))]
    ensures left == []
  {
    var f := new Future<int>();
    var first := f.Await(Awaiter(1));
    var second := f.Await(Awaiter(3));
    var again := (w: Watcher) => if w == Awaiter(1) then Some(Awaiter(2)) else None;
    var delivered;
    delivered, log := f.Resolve(7, again);
    assert Drain([PromiseBridge, Awaiter(1), Awaiter(3)], Value(7), again)
           == [Notification(PromiseBridge, Value(7)), Notification(Awaiter(1), Value(7)),
               Notification(Awaiter(2), Value(7)), Notification(Awaiter(3), Value(7))] by {
      assert [PromiseBridge, Awaiter(1), Awaiter(3)][1..] == [Awaiter(1), Awaiter(3)];
      assert [Awaiter(1), Awaiter(3)][1..] == [Awaiter(3)];
      assert [Awaiter(3)][1..] == [];
    }
    left := f.watchers;
  }
}
