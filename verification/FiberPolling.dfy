/**
 Cancellation polling: one round calls the check of every guarded wait, exactly those whose check raises are
 made ready with its error, and the others wait on.
 */
module FiberPolling {
  import opened Prelude
  import opened FiberModel
  import opened FiberInvariant
  import opened FiberSteps
  import opened FiberService

  /** Polling went on without touching waiter `k`. */
  ghost predicate Later(p: Pump, q: Pump, k: nat) {
    && p.calls <= q.calls && p.ready <= q.ready
    && k < |p.waiters| == |q.waiters| && q.waiters[k] == p.waiters[k]
  }

  /** Call `n` of the checks, made between the two states, decided waiter `k`: it still waits, or its fiber is
      ready with the error that was raised. */
  ghost predicate DecidedBy(w: World, p: Pump, q: Pump, k: nat, n: nat) {
    && p.calls <= n < q.calls && k < |p.waiters| == |q.waiters|
    && match w.check(n)
       case None => q.waiters[k] == p.waiters[k]
       case Some(e) => !q.waiters[k].active && Ready(p.waiters[k].fiber, Failure(e)) in q.ready
  }

  /** The same for an entry of the sleeper heap. */
  ghost predicate SleeperDecidedBy(w: World, p: Pump, q: Pump, e: Sleeper, n: nat) {
    && p.calls <= n < q.calls
    && match w.check(n)
       case None => e in q.sleepers
       case Some(error) => Ready(e.fiber, Failure(error)) in q.ready
  }

  lemma PollOther(w: World, p: Pump, j: nat, k: nat)
    requires j < |p.waiters| && k < |p.waiters| && j != k
    ensures Later(p, PollWaiter(w, p, j), k)
  {
  }

  lemma {:induction false} PollOthers(w: World, p: Pump, list: seq<nat>, k: nat)
    requires Known(p, list) && k < |p.waiters| && k !in list
    ensures Later(p, PollList(w, p, list), k)
    decreases |list|
  {
    if list != [] {
      PollOther(w, p, list[0], k);
      hide PollWaiter;
      PollOthers(w, PollWaiter(w, p, list[0]), list[1..], k);
    }
  }

  /** What has been decided stays so while others are polled. */
  lemma DecidedStays(w: World, p: Pump, m: Pump, q: Pump, k: nat, n: nat)
    requires DecidedBy(w, p, m, k, n) && Later(m, q, k)
    ensures DecidedBy(w, p, q, k, n)
  {
  }

  lemma DecidedEarlier(w: World, p: Pump, m: Pump, q: Pump, k: nat, n: nat)
    requires Later(p, m, k) && DecidedBy(w, m, q, k, n)
    ensures DecidedBy(w, p, q, k, n)
  {
  }

  lemma PollDecides(w: World, p: Pump, k: nat)
    requires Inv(w, p, [], None) && k < |p.waiters| && p.waiters[k].active && p.waiters[k].guarded
    ensures DecidedBy(w, p, PollWaiter(w, p, k), k, p.calls)
  {
    assert WaiterOk(w, p.fibers, p.waiters[k]);
    hide Inv;
  }

  /** A guarded active waiter that occurs once in a polled list is decided by one call. */
  lemma {:induction false} PollListDecides(w: World, p: Pump, list: seq<nat>, k: nat) returns (n: nat)
    requires Inv(w, p, [], None) && Known(p, list) && Increasing(list) && k in list
    requires k < |p.waiters| && p.waiters[k].active && p.waiters[k].guarded
    ensures DecidedBy(w, p, PollList(w, p, list), k, n)
    decreases |list|
  {
    var rest := list[1..];
    assert Increasing(rest) && forall j | j in rest :: list[0] < j;
    var m := PollWaiter(w, p, list[0]);
    if list[0] == k {
      n := p.calls;
      PollDecides(w, p, k);
      hide PollWaiter, Inv;
      PollOthers(w, m, rest, k);
      DecidedStays(w, p, m, PollList(w, m, rest), k, n);
    } else {
      PollOther(w, p, list[0], k);
      PollWaiterOk(w, p, list[0]);
      hide PollWaiter, Inv;
      n := PollListDecides(w, m, rest, k);
      DecidedEarlier(w, p, m, PollList(w, m, rest), k, n);
    }
  }

  lemma {:induction false} PollFuturesOthers(w: World, p: Pump, order: seq<Fut>, k: nat)
    requires Inv(w, p, [], None) && k < |p.waiters| && p.waiters[k].fut !in order
    ensures Later(p, PollFutures(w, p, order), k) && PollFutures(w, p, order).sleepers == p.sleepers
    ensures Inv(w, PollFutures(w, p, order), [], None)
    decreases |order|
  {
    hide Inv, PollFuture, PollList;
    if order != [] {
      var f := order[0];
      if f in p.futureWaiters && Known(p, p.futureWaiters[f]) {
        NotListed(w, p, f, k);
        PollOthers(w, p, p.futureWaiters[f], k);
        PollFutureFrame(w, p, f);
        PollFutureOk(w, p, f);
        PollFuturesOthers(w, PollFuture(w, p, f), order[1..], k);
      } else {
        PollFuturesOthers(w, p, order[1..], k);
      }
    }
  }

  lemma NotListed(w: World, p: Pump, f: Fut, k: nat)
    requires Inv(w, p, [], None) && f in p.futureWaiters && k < |p.waiters| && p.waiters[k].fut != f
    ensures k !in p.futureWaiters[f]
  {
  }

  /** Every guarded active waiter is decided by one call when its future is polled. */
  lemma {:induction false} PollFuturesDecides(w: World, p: Pump, order: seq<Fut>, k: nat) returns (n: nat)
    requires Inv(w, p, [], None) && forall a, b | 0 <= a < b < |order| :: order[a] != order[b]
    requires k < |p.waiters| && p.waiters[k].active && p.waiters[k].guarded && p.waiters[k].fut in order
    ensures DecidedBy(w, p, PollFutures(w, p, order), k, n)
    decreases |order|
  {
    hide Inv, PollFuture, PollList;
    var f, rest := order[0], order[1..];
    assert forall a | 0 <= a < |rest| :: rest[a] == order[a + 1];
    InvShape(w, p);
    if p.waiters[k].fut == f {
      ActiveListed(w, p, k);
      n := PollListDecides(w, p, p.futureWaiters[f], k);
      PollFutureFrame(w, p, f);
      PollFutureOk(w, p, f);
      var q := PollFuture(w, p, f);
      PollFutureSame(w, p, f, k);
      PollFuturesOthers(w, q, rest, k);
      DecidedStays(w, p, q, PollFutures(w, q, rest), k, n);
    } else if f in p.futureWaiters {
      NotListed(w, p, f, k);
      PollOthers(w, p, p.futureWaiters[f], k);
      PollFutureFrame(w, p, f);
      PollFutureOk(w, p, f);
      var q := PollFuture(w, p, f);
      n := PollFuturesDecides(w, q, rest, k);
      DecidedEarlier(w, p, q, PollFutures(w, q, rest), k, n);
    } else {
      n := PollFuturesDecides(w, p, rest, k);
    }
  }

  /** Polling does not change which future a waiter waits for. */
  lemma {:induction false} PollListSame(w: World, p: Pump, list: seq<nat>, k: nat)
    requires Known(p, list) && k < |p.waiters|
    ensures PollList(w, p, list).waiters[k].fut == p.waiters[k].fut
    decreases |list|
  {
    if list != [] {
      var m := PollWaiter(w, p, list[0]);
      assert m.waiters[k].fut == p.waiters[k].fut;
      hide PollWaiter;
      PollListSame(w, m, list[1..], k);
    }
  }

  lemma PollFutureSame(w: World, p: Pump, f: Fut, k: nat)
    requires f in p.futureWaiters && Known(p, p.futureWaiters[f]) && k < |p.waiters|
    ensures k < |PollFuture(w, p, f).waiters| && PollFuture(w, p, f).waiters[k].fut == p.waiters[k].fut
  {
    PollListSame(w, p, p.futureWaiters[f], k);
  }

  lemma ActiveListed(w: World, p: Pump, k: nat)
    requires Inv(w, p, [], None) && k < |p.waiters| && p.waiters[k].active
    ensures p.waiters[k].fut in p.futureWaiters && k in p.futureWaiters[p.waiters[k].fut]
  {
    assert Registered(p.futureWaiters, k, p.waiters[k].fut);
  }

  lemma PollSleeperFrame(w: World, p: Pump, j: nat)
    requires j < |p.sleepers|
    ensures var q := PollSleeper(w, p, j);
      && p.calls <= q.calls && p.ready <= q.ready && q.waiters == p.waiters
      && (q.sleepers == p.sleepers || q.sleepers == p.sleepers[..j] + p.sleepers[j + 1..])
  {
    hide SleeperCurrent, Verdict;
    var e := p.sleepers[j];
    if SleeperCurrent(p.fibers, e) && Verdict(w, p, e.guarded).Some? {
      assert p.ready <= p.ready + [Ready(e.fiber, Failure(Verdict(w, p, e.guarded).value))];
    }
  }

  /** Polling the sleepers from place `j` on touches no waiter and no sleeper before. */
  lemma {:induction false} PollSleepersFrame(w: World, p: Pump, j: nat)
    requires j <= |p.sleepers|
    ensures var q := PollSleepers(w, p, j);
      && p.calls <= q.calls && p.ready <= q.ready && q.waiters == p.waiters
      && j <= |q.sleepers| && q.sleepers[..j] == p.sleepers[..j]
    decreases |p.sleepers| - j
  {
    hide PollSleeper;
    if j < |p.sleepers| {
      var q := PollSleeper(w, p, j);
      var j' := if |q.sleepers| == |p.sleepers| then j + 1 else j;
      PollSleeperFrame(w, p, j);
      PollSleepersFrame(w, q, j');
      assert PollSleepers(w, q, j').sleepers[..j'][..j] == q.sleepers[..j'][..j];
    }
  }

  /** A guarded sleeper is decided by one call. */
  lemma {:induction false} PollSleepersDecides(w: World, p: Pump, j: nat, i: nat) returns (n: nat)
    requires Inv(w, p, [], None) && j <= i < |p.sleepers| && p.sleepers[i].guarded
    ensures SleeperDecidedBy(w, p, PollSleepers(w, p, j), p.sleepers[i], n)
    decreases |p.sleepers| - j
  {
    hide Inv, PollSleeper;
    var q := PollSleeper(w, p, j);
    var j' := if |q.sleepers| == |p.sleepers| then j + 1 else j;
    PollSleeperOk(w, p, j);
    PollSleeperFrame(w, p, j);
    if i == j {
      n := p.calls;
      PollSleeperDecides(w, p, j);
      PollSleepersFrame(w, q, j');
      if w.check(n).None? {
        assert PollSleepers(w, q, j').sleepers[..j'][j] == q.sleepers[..j'][j];
      }
    } else {
      n := PollSleepersDecides(w, q, j', if |q.sleepers| == |p.sleepers| then i else i - 1);
    }
  }

  /** What became of a guarded sleeper that was polled. */
  lemma PollSleeperDecides(w: World, p: Pump, j: nat)
    requires Inv(w, p, [], None) && j < |p.sleepers| && p.sleepers[j].guarded
    ensures var q := PollSleeper(w, p, j);
      && q.calls == p.calls + 1
      && match w.check(p.calls)
         case None => q.sleepers == p.sleepers
         case Some(error) => Ready(p.sleepers[j].fiber, Failure(error)) in q.ready
  {
    assert SleeperCurrent(p.fibers, p.sleepers[j]);
    hide Inv;
  }

  /** Each guarded wait of the earlier state was decided by a call of its check. */
  ghost predicate AllDecided(w: World, p: Pump, q: Pump) {
    && (forall k: nat | k < |p.waiters| && p.waiters[k].active && p.waiters[k].guarded ::
       exists n :: DecidedBy(w, p, q, k, n))
    && (forall i: nat | i < |p.sleepers| && p.sleepers[i].guarded ::
       exists n :: SleeperDecidedBy(w, p, q, p.sleepers[i], n))
  }

  /** A polling round calls the check of every guarded wait: whoever's check raises, waiting or asleep, is made
      ready with its error, and whoever's check does not raise waits on. */
  lemma CancellationReachesAll(w: World, p: Pump, order: seq<Fut>)
    requires Inv(w, p, [], None) && forall a, b | 0 <= a < b < |order| :: order[a] != order[b]
    requires forall f :: f in order <==> f in p.futureWaiters
    ensures AllDecided(w, p, PollSleepers(w, PollFutures(w, p, order), 0))
  {
    hide Inv, DecidedBy, SleeperDecidedBy;
    var q := PollSleepers(w, PollFutures(w, p, order), 0);
    forall k: nat | k < |p.waiters| && p.waiters[k].active && p.waiters[k].guarded
        ensures exists n :: DecidedBy(w, p, q, k, n)
    {
      var n := WaiterDecided(w, p, order, k);
    }
    forall i: nat | i < |p.sleepers| && p.sleepers[i].guarded
        ensures exists n :: SleeperDecidedBy(w, p, q, p.sleepers[i], n)
    {
      var n := SleeperDecided(w, p, order, i);
    }
    assert AllDecided(w, p, q);
  }

  lemma WaiterDecided(w: World, p: Pump, order: seq<Fut>, k: nat) returns (n: nat)
    requires Inv(w, p, [], None) && forall a, b | 0 <= a < b < |order| :: order[a] != order[b]
    requires forall f :: f in order <==> f in p.futureWaiters
    requires k < |p.waiters| && p.waiters[k].active && p.waiters[k].guarded
    ensures DecidedBy(w, p, PollSleepers(w, PollFutures(w, p, order), 0), k, n)
  {
    hide Inv, PollFutures, PollSleepers;
    var m := PollFutures(w, p, order);
    ActiveListed(w, p, k);
    n := PollFuturesDecides(w, p, order, k);
    PollSleepersFrame(w, m, 0);
    DecidedStays(w, p, m, PollSleepers(w, m, 0), k, n);
  }

  lemma SleeperDecided(w: World, p: Pump, order: seq<Fut>, i: nat) returns (n: nat)
    requires Inv(w, p, [], None) && i < |p.sleepers| && p.sleepers[i].guarded
    ensures SleeperDecidedBy(w, p, PollSleepers(w, PollFutures(w, p, order), 0), p.sleepers[i], n)
  {
    hide Inv, PollFutures, PollSleepers;
    PollFuturesOk(w, p, order);
    n := PollSleepersDecides(w, PollFutures(w, p, order), 0, i);
  }

  lemma {:induction false} PollFuturesOk(w: World, p: Pump, order: seq<Fut>)
    requires Inv(w, p, [], None)
    ensures var m := PollFutures(w, p, order);
      Inv(w, m, [], None) && m.sleepers == p.sleepers && p.calls <= m.calls && p.ready <= m.ready
    decreases |order|
  {
    if order != [] {
      var f := order[0];
      if f in p.futureWaiters && Known(p, p.futureWaiters[f]) {
        PollFutureFrame(w, p, f);
        PollListCalls(w, p, p.futureWaiters[f]);
        PollFutureOk(w, p, f);
        hide Inv, PollFuture, PollList;
        PollFuturesOk(w, PollFuture(w, p, f), order[1..]);
      } else {
        hide Inv;
        PollFuturesOk(w, p, order[1..]);
      }
    }
  }

  lemma {:induction false} PollListCalls(w: World, p: Pump, list: seq<nat>)
    requires Known(p, list)
    ensures var q := PollList(w, p, list); p.calls <= q.calls && p.ready <= q.ready
    decreases |list|
  {
    if list != [] {
      var m := PollWaiter(w, p, list[0]);
      assert p.calls <= m.calls && p.ready <= m.ready;
      hide PollWaiter;
      PollListCalls(w, m, list[1..]);
    }
  }
}
