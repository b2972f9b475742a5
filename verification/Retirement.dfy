/** Whether the worker retires. When the existing goroutines of the submission queue have gone on until none can move,
    either every worker has exited and the flag `isProcessing` is down, or one worker waits at an empty queue with the
    flag up. This module says exactly which of the two can happen. */
module Retirement {
  import opened SubmissionQueue

  /** A starter that has not tested the flag yet, or is testing it while it is down. */
  predicate Pending(st: State, s: nat) { s < |st.starters| && Untested(st, st.starters[s]) }

  ghost predicate SomePending(st: State) { exists s: nat :: Pending(st, s) }

  ghost predicate TwoPending(st: State) { exists s: nat, t: nat :: s != t && Pending(st, s) && Pending(st, t) }

  /** There is a worker, or one is being spawned, that has not seen an empty queue. */
  predicate Working(st: State) {
    Spawning(st) || (NewestLive(st) && st.workers[|st.workers| - 1] != SawEmpty)
  }

  /** There is a worker, or one is being spawned, that waits at an empty queue. */
  predicate Waiting(st: State) {
    st.queue == [] && (Spawning(st) || (NewestLive(st) && st.workers[|st.workers| - 1] == Receiving))
  }

  /** A worker waits already, or a pending starter may spawn one that finds nothing to do: because nothing is queued, or
      because a worker that is there, or the one that another pending starter spawns, empties the queue and retires. */
  ghost predicate CanEndWaiting(st: State) {
    Waiting(st) || (SomePending(st) && (st.queue == [] || Working(st) || TwoPending(st)))
  }

  lemma PendingAfterWorker(st: State, w: nat, s: nat)
    requires Inv(st) && Enabled(st, WorkerStep(w))
    ensures Pending(WorkerMove(st, w), s) <==> Pending(st, s)
  {
    if s < |st.starters| && st.starters[s] == Testing {
      assert StarterHolds(st.starters[s]);
    }
  }

  lemma PendingAfterStarter(st: State, s: nat, t: nat)
    requires Inv(st) && Enabled(st, StarterStep(s))
    ensures t != s ==> (Pending(StarterMove(st, s), t) <==> Pending(st, t))
    ensures Pending(StarterMove(st, s), s) <==> st.starters[s] == AtLock && !st.isProcessing
  {
    if t < |st.starters| && st.starters[t] == Testing {
      assert StarterHolds(st.starters[t]);
    }
  }

  // ---- Once it cannot happen it never can ----

  lemma WorkerKeepsRetiring(st: State, w: nat)
    requires Inv(st) && Enabled(st, WorkerStep(w)) && !CanEndWaiting(st)
    ensures !CanEndWaiting(WorkerMove(st, w))
  {
    WorkerMoveKeepsFlag(st, w);
    forall s: nat
      ensures Pending(WorkerMove(st, w), s) <==> Pending(st, s)
    {
      PendingAfterWorker(st, w, s);
    }
  }

  /** The starter that raises the flag is no longer pending: any that still is makes two before. */
  lemma RaisingUsesUpOne(st: State, s: nat)
    requires Inv(st) && Enabled(st, StarterStep(s)) && st.starters[s] == Testing && !st.isProcessing
    ensures SomePending(StarterMove(st, s)) ==> TwoPending(st)
  {
    assert Pending(st, s);
    PendingAfterStarter(st, s, s);
    if t: nat :| Pending(StarterMove(st, s), t) {
      PendingAfterStarter(st, s, t);
    }
  }

  lemma StarterKeepsPending(st: State, s: nat)
    requires Inv(st) && Enabled(st, StarterStep(s))
    ensures SomePending(StarterMove(st, s)) ==> SomePending(st)
    ensures TwoPending(StarterMove(st, s)) ==> TwoPending(st)
  {
    forall t: nat
      ensures Pending(StarterMove(st, s), t) ==> Pending(st, t)
    {
      PendingAfterStarter(st, s, t);
      PendingAfterStarter(st, s, s);
    }
  }

  /** What a starter changes besides the pending ones: raising the flag is all that can put a worker to work. */
  lemma StarterKeepsWork(st: State, s: nat)
    requires Inv(st) && Enabled(st, StarterStep(s))
    ensures StarterMove(st, s).queue == st.queue
    ensures !(st.starters[s] == Testing && !st.isProcessing) ==>
              && (Working(StarterMove(st, s)) <==> Working(st))
              && (Waiting(StarterMove(st, s)) <==> Waiting(st))
    ensures Waiting(StarterMove(st, s)) ==> st.queue == []
  {
  }

  lemma StarterKeepsRetiring(st: State, s: nat)
    requires Inv(st) && Enabled(st, StarterStep(s)) && !CanEndWaiting(st)
    ensures !CanEndWaiting(StarterMove(st, s))
  {
    StarterKeepsPending(st, s);
    StarterKeepsWork(st, s);
    if st.starters[s] == Testing && !st.isProcessing {
      RaisingUsesUpOne(st, s);
      assert Pending(st, s);
    }
  }

  lemma {:induction false} RunKeepsRetiring(st: State, more: seq<Event>)
    requires Inv(st) && CanRun(st, more) && AllInternal(more) && !CanEndWaiting(st)
    ensures !CanEndWaiting(After(st, more))
  {
    if more != [] {
      var init, e := more[..|more| - 1], more[|more| - 1];
      RunKeepsRetiring(st, init);
      RunKeepsInv(st, init);
      match e
      case StarterStep(s) => StarterKeepsRetiring(After(st, init), s);
      case WorkerStep(w) => WorkerKeepsRetiring(After(st, init), w);
    }
  }

  // ---- While it can happen some step keeps it so ----

  lemma WorkerKeepsWaiting(st: State, w: nat)
    requires Inv(st) && Enabled(st, WorkerStep(w)) && CanEndWaiting(st)
    ensures CanEndWaiting(WorkerMove(st, w))
  {
    var after := WorkerMove(st, w);
    WorkerMoveKeepsFlag(st, w);
    forall s: nat
      ensures Pending(after, s) <==> Pending(st, s)
    {
      PendingAfterWorker(st, w, s);
    }
  }

  /** No worker can move: the holder of the lock goes on, else a starter takes it. */
  lemma StarterKeepsWaiting(st: State, s: nat)
    requires Inv(st) && Enabled(st, StarterStep(s)) && CanEndWaiting(st)
    requires forall w :: !Enabled(st, WorkerStep(w))
    ensures CanEndWaiting(StarterMove(st, s))
  {
    var after := StarterMove(st, s);
    forall t: nat
      ensures t != s ==> (Pending(after, t) <==> Pending(st, t))
    {
      PendingAfterStarter(st, s, t);
    }
    PendingAfterStarter(st, s, s);
    if |st.workers| > 0 {
      assert !Enabled(st, WorkerStep(|st.workers| - 1));
    }
  }

  lemma {:induction false} ReachesWaiting(st: State, es: seq<Event>) returns (more: seq<Event>)
    requires Inv(st) && CanRun(st, es) && AllInternal(es) && CanEndWaiting(After(st, es))
    ensures CanRun(st, more) && AllInternal(more) && Quiescent(After(st, more)) && CanEndWaiting(After(st, more))
    decreases Measure(After(st, es))
  {
    var here := After(st, es);
    if Quiescent(here) {
      return es;
    }
    RunKeepsInv(st, es);
    var e;
    if w :| Enabled(here, WorkerStep(w)) {
      e := WorkerStep(w);
      WorkerKeepsWaiting(here, w);
    } else {
      e :| Internal(e) && Enabled(here, e);
      StarterKeepsWaiting(here, e.s);
    }
    assert (es + [e])[..|es|] == es;
    InternalStepDecreases(here, e);
    more := ReachesWaiting(st, es + [e]);
  }

  lemma {:induction false} RunKeepsWaiting(st: State, more: seq<Event>)
    requires Inv(st) && CanRun(st, more) && AllInternal(more) && Waiting(st)
    ensures Waiting(After(st, more))
  {
    if more != [] {
      var init, e := more[..|more| - 1], more[|more| - 1];
      RunKeepsWaiting(st, init);
      RunKeepsInv(st, init);
      WaitingStays(After(st, init), e);
    }
  }

  lemma WaitingStays(st: State, e: Event)
    requires Inv(st) && Enabled(st, e) && Internal(e) && Waiting(st)
    ensures Waiting(Apply(st, e))
  {
    match e
    case StarterStep(s) =>
    case WorkerStep(w) => WorkerMoveKeepsFlag(st, w);
  }

  // ---- The flag at the end ----

  lemma FlagWhenIdle(st: State)
    requires Inv(st) && Quiescent(st)
    ensures st.isProcessing <==> CanEndWaiting(st)
    ensures st.isProcessing <==> Waiting(st)
  {
    QuiescentMeansIdle(st);
  }

  /** No run of the existing goroutines leaves the flag up. */
  ghost predicate AlwaysRetires(st: State) {
    forall more ::
      CanRun(st, more) && AllInternal(more) && Quiescent(After(st, more)) ==> !After(st, more).isProcessing
  }

  /** From every reachable state: all ways of going on end with the flag down if and only if no worker waits at an empty
      queue and no starter is left that could still spawn one with nothing to do. */
  lemma RetiresIff(st: State)
    requires Reachable(st)
    ensures AlwaysRetires(st) <==> !CanEndWaiting(st)
  {
    ReachableKeepsInv(st);
    if CanEndWaiting(st) {
      var more := ReachesWaiting(st, []);
      RunKeepsInv(st, more);
      FlagWhenIdle(After(st, more));
    } else {
      forall more | CanRun(st, more) && AllInternal(more) && Quiescent(After(st, more))
        ensures !After(st, more).isProcessing
      {
        RunKeepsInv(st, more);
        RunKeepsRetiring(st, more);
        FlagWhenIdle(After(st, more));
      }
    }
  }

  /** When no starter is pending, every way of going on ends alike: with the flag down and all workers gone, or, exactly
      if a worker waited at an empty queue or was about to, with the flag up. */
  lemma FlagAtTheEnd(st: State, more: seq<Event>)
    requires Reachable(st) && !SomePending(st)
    requires CanRun(st, more) && AllInternal(more) && Quiescent(After(st, more))
    ensures var end := After(st, more);
      && (!end.isProcessing <==> !Waiting(st))
      && (!end.isProcessing ==> forall w :: 0 <= w < |end.workers| ==> end.workers[w] == Exited)
  {
    ReachableKeepsInv(st);
    RunKeepsInv(st, more);
    FlagWhenIdle(After(st, more));
    IdleFlag(After(st, more));
    if Waiting(st) {
      RunKeepsWaiting(st, more);
    } else {
      RunKeepsRetiring(st, more);
    }
  }

  /** A worker has something in its hands or in the queue, and has not seen an empty queue. */
  predicate AtWork(st: State) {
    NewestLive(st) && st.workers[|st.workers| - 1] != SawEmpty && (st.queue != [] || InFlight(st) != [])
  }

  /** At work with no starter pending: the worker processes it all, in its order, and retires. */
  lemma WorkIsDoneAndWorkerRetires(st: State, more: seq<Event>)
    requires Reachable(st) && !SomePending(st) && AtWork(st)
    requires CanRun(st, more) && AllInternal(more) && Quiescent(After(st, more))
    ensures var end := After(st, more);
      end.processed == st.accepted && end.queue == [] && !end.isProcessing
  {
    AtWorkIsNotWaiting(st);
    FlagAtTheEnd(st, more);
    DrainsIff(st, more);
    RunKeepsInv(st, more);
    DrainedQueueIsEmpty(After(st, more));
  }

  lemma AtWorkIsNotWaiting(st: State)
    requires Reachable(st) && AtWork(st)
    ensures Inv(st) && !Waiting(st) && WillDrain(st)
  {
    ReachableKeepsInv(st);
  }

  lemma DrainedQueueIsEmpty(st: State)
    requires Inv(st) && st.processed == st.accepted
    ensures st.queue == []
  {
    assert |st.processed + InFlight(st) + st.queue| == |st.accepted|;
  }
}
