/** The submission queue: a channel of capacity 100, a mutex, the flag `isProcessing`, one starter goroutine per
    request and the on-demand workers they spawn. Every step below is one atomic action of one goroutine, and a run
    is any interleaving of them. In particular the worker's test of the queue length and its lowering of the flag
    are two steps, and a request may queue its submission between them, because a channel send takes no lock. */
module SubmissionQueue {

  const CAPACITY := 100

  /** A request handler; its index is the id of the submission it records. */
  datatype HandlerPc = Preparing | Rejected | Queued

  /** startSubmissionProcessor, one goroutine per request. */
  datatype StarterPc = AtLock | Testing | Raised | Leaving | Finished

  /** processSubmissionQueue: one turn of its loop, then back to Receiving or out. */
  datatype WorkerPc =
    | Receiving
    | Processing(id: nat)
    | AtCheck
    | Checking
    | SawWork
    | SawEmpty
    | Lowered
    | Exited

  datatype Owner = Nobody | Starter(s: nat) | Worker(w: nat)

  datatype State = State(
    isProcessing: bool,
    lock: Owner,
    queue: seq<nat>,
    handlers: seq<HandlerPc>,
    starters: seq<StarterPc>,
    workers: seq<WorkerPc>,
    accepted: seq<nat>,   // every id ever sent to the channel, in order
    processed: seq<nat>   // every id whose processing has ended, in order
  )

  const INITIAL := State(false, Nobody, [], [], [], [], [], [])

  datatype Event =
    | Arrive
    | Reject(h: nat)
    | Enqueue(h: nat)
    | StarterStep(s: nat)
    | WorkerStep(w: nat)

  predicate Enabled(st: State, e: Event) {
    match e
    case Arrive => true
    case Reject(h) => h < |st.handlers| && st.handlers[h] == Preparing
    case Enqueue(h) => h < |st.handlers| && st.handlers[h] == Preparing && |st.queue| < CAPACITY
    case StarterStep(s) =>
      && s < |st.starters|
      && st.starters[s] != Finished
      && (st.starters[s] == AtLock ==> st.lock == Nobody)
    case WorkerStep(w) =>
      && w < |st.workers|
      && st.workers[w] != Exited
      && (st.workers[w] == AtCheck ==> st.lock == Nobody)
      && (st.workers[w] == Receiving ==> st.queue != [])
  }

  function StarterMove(st: State, s: nat): State
    requires Enabled(st, StarterStep(s))
  {
    match st.starters[s]
    case AtLock => st.(lock := Starter(s), starters := st.starters[s := Testing])
    case Testing =>
      if st.isProcessing then st.(starters := st.starters[s := Leaving])
      else st.(isProcessing := true, starters := st.starters[s := Raised])
    case Raised => st.(workers := st.workers + [Receiving], starters := st.starters[s := Leaving])
    case Leaving => st.(lock := Nobody, starters := st.starters[s := Finished])
  }

  function WorkerMove(st: State, w: nat): State
    requires Enabled(st, WorkerStep(w))
  {
    match st.workers[w]
    case Receiving => st.(queue := st.queue[1..], workers := st.workers[w := Processing(st.queue[0])])
    case Processing(id) => st.(processed := st.processed + [id], workers := st.workers[w := AtCheck])
    case AtCheck => st.(lock := Worker(w), workers := st.workers[w := Checking])
    case Checking => st.(workers := st.workers[w := if |st.queue| == 0 then SawEmpty else SawWork])
    case SawWork => st.(lock := Nobody, workers := st.workers[w := Receiving])
    case SawEmpty => st.(isProcessing := false, workers := st.workers[w := Lowered])
    case Lowered => st.(lock := Nobody, workers := st.workers[w := Exited])
  }

  function Apply(st: State, e: Event): State
    requires Enabled(st, e)
  {
    match e
    case Arrive => st.(handlers := st.handlers + [Preparing], starters := st.starters + [AtLock])
    case Reject(h) => st.(handlers := st.handlers[h := Rejected])
    case Enqueue(h) =>
      st.(queue := st.queue + [h], accepted := st.accepted + [h], handlers := st.handlers[h := Queued])
    case StarterStep(s) => StarterMove(st, s)
    case WorkerStep(w) => WorkerMove(st, w)
  }

  /** `es` is an interleaving the program can take from `st`, and `After` is where it leads. */
  predicate CanRun(st: State, es: seq<Event>)
    decreases |es|, 0
  {
    es == [] ||
    (CanRun(st, es[..|es| - 1]) && Enabled(After(st, es[..|es| - 1]), es[|es| - 1]))
  }

  function After(st: State, es: seq<Event>): State
    requires CanRun(st, es)
    decreases |es|, 1
  {
    if es == [] then st else Apply(After(st, es[..|es| - 1]), es[|es| - 1])
  }

  // ---- What every step keeps ----

  /** A worker goroutine that has not yet lowered the flag. */
  predicate Live(pc: WorkerPc) { pc != Lowered && pc != Exited }

  predicate StarterHolds(pc: StarterPc) { pc == Testing || pc == Raised || pc == Leaving }

  predicate WorkerHolds(pc: WorkerPc) { pc == Checking || pc == SawWork || pc == SawEmpty || pc == Lowered }

  /** The workers before the newest have all exited. */
  predicate OnlyNewestRuns(st: State) {
    forall w :: 0 <= w < |st.workers| - 1 ==> st.workers[w] == Exited
  }

  predicate LockedRight(st: State) {
    && (forall s :: 0 <= s < |st.starters| ==> (StarterHolds(st.starters[s]) <==> st.lock == Starter(s)))
    && (forall w :: 0 <= w < |st.workers| ==> (WorkerHolds(st.workers[w]) <==> st.lock == Worker(w)))
    && (st.lock.Starter? ==> st.lock.s < |st.starters|)
    && (st.lock.Worker? ==> st.lock.w < |st.workers|)
  }

  /** A starter holds the lock, has raised the flag and has not spawned its worker yet. */
  predicate Spawning(st: State) {
    st.lock.Starter? && st.lock.s < |st.starters| && st.starters[st.lock.s] == Raised
  }

  predicate NewestLive(st: State) { |st.workers| > 0 && Live(st.workers[|st.workers| - 1]) }

  predicate FlagRight(st: State) {
    && (st.isProcessing <==> Spawning(st) || NewestLive(st))
    && !(Spawning(st) && NewestLive(st))
  }

  /** What the worker has received and not finished. */
  function InFlight(st: State): seq<nat> {
    if |st.workers| > 0 && st.workers[|st.workers| - 1].Processing? then [st.workers[|st.workers| - 1].id] else []
  }

  predicate AcceptedRight(st: State) {
    && (forall i :: 0 <= i < |st.accepted| ==> st.accepted[i] < |st.handlers| && st.handlers[st.accepted[i]] == Queued)
    && (forall i, j :: 0 <= i < j < |st.accepted| ==> st.accepted[i] != st.accepted[j])
  }

  predicate Inv(st: State) {
    && |st.starters| == |st.handlers|
    && |st.queue| <= CAPACITY
    && OnlyNewestRuns(st)
    && LockedRight(st)
    && FlagRight(st)
    && AcceptedRight(st)
    && (|st.workers| > 0 && st.workers[|st.workers| - 1] == SawWork ==> st.queue != [])
    && st.processed + InFlight(st) + st.queue == st.accepted
  }

  lemma StarterMoveKeepsInv(st: State, s: nat)
    requires Inv(st) && Enabled(st, StarterStep(s))
    ensures Inv(StarterMove(st, s))
  {
    var after := StarterMove(st, s);
    assert OnlyNewestRuns(after);
    assert LockedRight(after);
    assert FlagRight(after);
    assert InFlight(after) == InFlight(st);
  }

  lemma WorkerMoveKeepsLock(st: State, w: nat)
    requires LockedRight(st) && Enabled(st, WorkerStep(w))
    ensures LockedRight(WorkerMove(st, w))
  {
  }

  lemma WorkerMoveKeepsFlag(st: State, w: nat)
    requires OnlyNewestRuns(st) && LockedRight(st) && FlagRight(st) && Enabled(st, WorkerStep(w))
    ensures w == |st.workers| - 1
    ensures OnlyNewestRuns(WorkerMove(st, w)) && FlagRight(WorkerMove(st, w))
  {
    assert w == |st.workers| - 1;
    if st.workers[w] == SawEmpty {
      assert !Spawning(st);
    }
  }

  lemma WorkerMoveKeepsOrder(st: State, w: nat)
    requires w == |st.workers| - 1 && Enabled(st, WorkerStep(w))
    ensures var after := WorkerMove(st, w);
      after.processed + InFlight(after) + after.queue == st.processed + InFlight(st) + st.queue
  {
    var after := WorkerMove(st, w);
    if st.workers[w] == Receiving {
      assert st.processed + [] + st.queue == st.processed + [st.queue[0]] + st.queue[1..];
    } else if st.workers[w].Processing? {
      assert after.processed + [] == st.processed + InFlight(st);
    }
  }

  lemma WorkerMoveKeepsInv(st: State, w: nat)
    requires Inv(st) && Enabled(st, WorkerStep(w))
    ensures Inv(WorkerMove(st, w))
  {
    WorkerMoveKeepsLock(st, w);
    WorkerMoveKeepsFlag(st, w);
    WorkerMoveKeepsOrder(st, w);
  }

  lemma ArriveKeepsInv(st: State)
    requires Inv(st)
    ensures Inv(Apply(st, Arrive))
  {
  }

  lemma RejectKeepsInv(st: State, h: nat)
    requires Inv(st) && Enabled(st, Reject(h))
    ensures Inv(Apply(st, Reject(h)))
  {
  }

  lemma EnqueueKeepsInv(st: State, h: nat)
    requires Inv(st) && Enabled(st, Enqueue(h))
    ensures Inv(Apply(st, Enqueue(h)))
  {
  }

  lemma StepKeepsInv(st: State, e: Event)
    requires Inv(st) && Enabled(st, e)
    ensures Inv(Apply(st, e))
  {
    match e
    case Arrive => ArriveKeepsInv(st);
    case Reject(h) => RejectKeepsInv(st, h);
    case Enqueue(h) => EnqueueKeepsInv(st, h);
    case StarterStep(s) => StarterMoveKeepsInv(st, s);
    case WorkerStep(w) => WorkerMoveKeepsInv(st, w);
  }

  lemma {:induction false} RunKeepsInv(st: State, es: seq<Event>)
    requires Inv(st) && CanRun(st, es)
    ensures Inv(After(st, es))
  {
    if es != [] {
      RunKeepsInv(st, es[..|es| - 1]);
      StepKeepsInv(After(st, es[..|es| - 1]), es[|es| - 1]);
    }
  }

  /** Some run of the program leads to this state. */
  ghost predicate Reachable(st: State) { exists es :: CanRun(INITIAL, es) && After(INITIAL, es) == st }

  lemma ReachableKeepsInv(st: State)
    requires Reachable(st)
    ensures Inv(st)
  {
    var es :| CanRun(INITIAL, es) && After(INITIAL, es) == st;
    RunKeepsInv(INITIAL, es);
  }

  lemma StepIsReachable(st: State, e: Event)
    requires Reachable(st) && Enabled(st, e)
    ensures Reachable(Apply(st, e))
  {
    var es :| CanRun(INITIAL, es) && After(INITIAL, es) == st;
    assert (es + [e])[..|es|] == es;
    assert After(INITIAL, es + [e]) == Apply(st, e);
  }

  /** What the queue promises in a state: at most one worker goroutine exists, the flag tells whether one is live or
      being spawned, the channel is within its capacity, each submission is received at most once and in the order
      in which it was queued, and nothing queued is lost. */
  predicate Safe(st: State) {
    && (forall v, w :: 0 <= v < |st.workers| && 0 <= w < |st.workers| ==>
          st.workers[v] != Exited && st.workers[w] != Exited ==> v == w)
    && (st.isProcessing <==> Spawning(st) || exists w :: 0 <= w < |st.workers| && Live(st.workers[w]))
    && |st.queue| <= CAPACITY
    && st.processed + InFlight(st) + st.queue == st.accepted
    && (forall i, j :: 0 <= i < j < |st.accepted| ==> st.accepted[i] != st.accepted[j])
  }

  lemma InvIsSafe(st: State)
    requires Inv(st)
    ensures Safe(st)
  {
    if NewestLive(st) {
      assert Live(st.workers[|st.workers| - 1]);
    }
  }

  lemma SafeInEveryRun(es: seq<Event>)
    requires CanRun(INITIAL, es)
    ensures Safe(After(INITIAL, es))
  {
    RunKeepsInv(INITIAL, es);
    InvIsSafe(After(INITIAL, es));
  }

  /** No two goroutines are inside their critical sections. */
  predicate Exclusive(st: State) {
    && (forall s, t :: 0 <= s < |st.starters| && 0 <= t < |st.starters| ==>
          StarterHolds(st.starters[s]) && StarterHolds(st.starters[t]) ==> s == t)
    && (forall v, w :: 0 <= v < |st.workers| && 0 <= w < |st.workers| ==>
          WorkerHolds(st.workers[v]) && WorkerHolds(st.workers[w]) ==> v == w)
    && (forall s, w :: 0 <= s < |st.starters| && 0 <= w < |st.workers| ==>
          !(StarterHolds(st.starters[s]) && WorkerHolds(st.workers[w])))
  }

  lemma LockExcludes(st: State)
    requires LockedRight(st)
    ensures Exclusive(st)
  {
  }

  lemma OneInTheCriticalSection(es: seq<Event>)
    requires CanRun(INITIAL, es)
    ensures Exclusive(After(INITIAL, es))
  {
    RunKeepsInv(INITIAL, es);
    LockExcludes(After(INITIAL, es));
  }

  /** A worker decides to retire exactly when all that was ever queued has been processed. */
  lemma RetiresOnlyWhenAllIsProcessed(st: State, w: nat)
    requires Reachable(st) && w < |st.workers| && st.workers[w] == Checking
    ensures WorkerMove(st, w).workers[w] == SawEmpty <==> st.processed == st.accepted
  {
    ReachableKeepsInv(st);
    SeesEmptyWhenAllIsProcessed(st, w);
  }

  lemma SeesEmptyWhenAllIsProcessed(st: State, w: nat)
    requires Inv(st) && w < |st.workers| && st.workers[w] == Checking
    ensures st.queue == [] <==> st.processed == st.accepted
  {
    assert w == |st.workers| - 1;
    assert InFlight(st) == [];
    assert |st.accepted| == |st.processed| + |st.queue|;
    if st.queue == [] {
      assert st.processed + [] + [] == st.processed;
    }
  }

  // ---- Draining ----

  /** The steps of goroutines that already exist; no new request arrives and no handler acts. */
  predicate Internal(e: Event) { e.StarterStep? || e.WorkerStep? }

  predicate AllInternal(es: seq<Event>) { forall i :: 0 <= i < |es| ==> Internal(es[i]) }

  ghost predicate Quiescent(st: State) { forall e: Event :: Internal(e) ==> !Enabled(st, e) }

  function StarterWeight(pc: StarterPc): nat {
    match pc
    case AtLock => 8
    case Testing => 7
    case Raised => 6
    case Leaving => 1
    case Finished => 0
  }

  function WorkerWeight(pc: WorkerPc): nat {
    match pc
    case Receiving => 3
    case Processing(_) => 7
    case AtCheck => 6
    case Checking => 5
    case SawWork => 4
    case SawEmpty => 2
    case Lowered => 1
    case Exited => 0
  }

  function Total<T>(weight: T -> nat, pcs: seq<T>): nat {
    if pcs == [] then 0 else weight(pcs[0]) + Total(weight, pcs[1..])
  }

  lemma {:induction false} TotalAppend<T>(weight: T -> nat, pcs: seq<T>, pc: T)
    ensures Total(weight, pcs + [pc]) == Total(weight, pcs) + weight(pc)
  {
    if pcs == [] {
      assert pcs + [pc] == [pc];
    } else {
      assert (pcs + [pc])[1..] == pcs[1..] + [pc];
      TotalAppend(weight, pcs[1..], pc);
    }
  }

  lemma {:induction false} TotalUpdate<T>(weight: T -> nat, pcs: seq<T>, i: nat, pc: T)
    requires i < |pcs|
    ensures Total(weight, pcs[i := pc]) + weight(pcs[i]) == Total(weight, pcs) + weight(pc)
  {
    if i > 0 {
      assert pcs[i := pc][1..] == pcs[1..][i - 1 := pc];
      TotalUpdate(weight, pcs[1..], i - 1, pc);
    }
  }

  /** Bounds the steps the existing goroutines can still take. */
  function Measure(st: State): nat {
    5 * |st.queue| + Total(StarterWeight, st.starters) + Total(WorkerWeight, st.workers)
  }

  lemma StarterStepDecreases(st: State, s: nat)
    requires Enabled(st, StarterStep(s))
    ensures Measure(StarterMove(st, s)) < Measure(st)
  {
    var after := StarterMove(st, s);
    assert after.starters == st.starters[s := after.starters[s]];
    TotalUpdate(StarterWeight, st.starters, s, after.starters[s]);
    if st.starters[s] == Raised {
      TotalAppend(WorkerWeight, st.workers, Receiving);
    }
  }

  lemma WorkerStepDecreases(st: State, w: nat)
    requires Enabled(st, WorkerStep(w))
    ensures Measure(WorkerMove(st, w)) < Measure(st)
  {
    var after := WorkerMove(st, w);
    assert after.workers == st.workers[w := after.workers[w]];
    TotalUpdate(WorkerWeight, st.workers, w, after.workers[w]);
  }

  lemma InternalStepDecreases(st: State, e: Event)
    requires Enabled(st, e) && Internal(e)
    ensures Measure(Apply(st, e)) < Measure(st)
  {
    match e
    case StarterStep(s) => StarterStepDecreases(st, s);
    case WorkerStep(w) => WorkerStepDecreases(st, w);
  }

  /** Without new requests every run ends: it has at most `Measure(st)` steps. */
  lemma {:induction false} InternalRunsEnd(st: State, es: seq<Event>)
    requires CanRun(st, es) && AllInternal(es)
    ensures |es| + Measure(After(st, es)) <= Measure(st)
  {
    if es != [] {
      InternalRunsEnd(st, es[..|es| - 1]);
      InternalStepDecreases(After(st, es[..|es| - 1]), es[|es| - 1]);
    }
  }

  /** A starter there has not tested the flag yet, or is testing it while it is down. */
  predicate Untested(st: State, pc: StarterPc) { pc == AtLock || (pc == Testing && !st.isProcessing) }

  /** What a caller can look at to know that the queued work will be done: nothing is queued, or the worker has not
      yet seen an empty queue, or some starter has not yet tested the flag. */
  predicate WillDrain(st: State) {
    || st.queue == []
    || (|st.workers| > 0 && Live(st.workers[|st.workers| - 1]) && st.workers[|st.workers| - 1] != SawEmpty)
    || Spawning(st)
    || exists s :: 0 <= s < |st.starters| && Untested(st, st.starters[s])
  }

  lemma StarterKeepsWillDrain(st: State, s: nat)
    requires Inv(st) && Enabled(st, StarterStep(s))
    ensures WillDrain(st) <==> WillDrain(StarterMove(st, s))
  {
    var after := StarterMove(st, s);
    StarterMoveKeepsInv(st, s);
    if st.queue != [] && !NewestLive(st) && !Spawning(st) {
      assert !st.isProcessing;
      if t :| 0 <= t < |st.starters| && st.starters[t] == AtLock && t != s {
        assert after.starters[t] == AtLock;
      }
    }
    if st.queue != [] && st.starters[s] == AtLock {
      assert after.starters[s] == Testing;
      if st.isProcessing {
        assert NewestLive(st);
        assert st.workers[|st.workers| - 1] != SawEmpty;
      }
    }
    if t :| 0 <= t < |after.starters| && Untested(after, after.starters[t]) {
      assert t != s ==> st.starters[t] == after.starters[t];
    }
  }

  lemma WorkerKeepsWillDrain(st: State, w: nat)
    requires Inv(st) && Enabled(st, WorkerStep(w))
    ensures WillDrain(st) <==> WillDrain(WorkerMove(st, w))
  {
    var after := WorkerMove(st, w);
    assert w == |st.workers| - 1;
    assert after.starters == st.starters;
    if s :| 0 <= s < |st.starters| && st.starters[s] == AtLock {
      assert after.starters[s] == AtLock;
    }
    if st.workers[w] == SawEmpty || st.workers[w] == Lowered {
      assert forall s :: 0 <= s < |st.starters| ==> st.starters[s] != Testing;
    }
  }

  lemma {:induction false} InternalRunKeepsWillDrain(st: State, es: seq<Event>)
    requires Inv(st) && CanRun(st, es) && AllInternal(es)
    ensures After(st, es).accepted == st.accepted
    ensures WillDrain(st) <==> WillDrain(After(st, es))
  {
    if es != [] {
      var before, e := After(st, es[..|es| - 1]), es[|es| - 1];
      InternalRunKeepsWillDrain(st, es[..|es| - 1]);
      RunKeepsInv(st, es[..|es| - 1]);
      match e
      case StarterStep(s) => StarterKeepsWillDrain(before, s);
      case WorkerStep(w) => WorkerKeepsWillDrain(before, w);
    }
  }

  lemma LockHolderCanMove(st: State) returns (e: Event)
    requires Inv(st) && st.lock != Nobody
    ensures Internal(e) && Enabled(st, e)
  {
    e := if st.lock.Starter? then StarterStep(st.lock.s) else WorkerStep(st.lock.w);
  }

  lemma QuiescentMeansIdle(st: State)
    requires Inv(st) && Quiescent(st)
    ensures st.lock == Nobody
    ensures forall s :: 0 <= s < |st.starters| ==> st.starters[s] == Finished
    ensures |st.workers| > 0 ==>
              var newest := st.workers[|st.workers| - 1];
              newest == Exited || (newest == Receiving && st.queue == [])
  {
    if st.lock != Nobody {
      var e := LockHolderCanMove(st);
    }
    forall s | 0 <= s < |st.starters|
      ensures st.starters[s] == Finished
    {
      assert !Enabled(st, StarterStep(s));
    }
    if |st.workers| > 0 {
      assert !Enabled(st, WorkerStep(|st.workers| - 1));
    }
  }

  /** From any state a run can reach, and for every way the existing goroutines can go on until none can move: all
      that was queued ends up processed, in its order, if and only if `WillDrain` held at the start; and the flag is
      lowered then exactly when every worker has exited, and up exactly when the newest waits at an empty queue. When
      it is which is the matter of module Retirement. */
  lemma DrainsIff(st: State, more: seq<Event>)
    requires Reachable(st) && CanRun(st, more) && AllInternal(more) && Quiescent(After(st, more))
    ensures var end := After(st, more);
      && end.accepted == st.accepted
      && (end.processed == st.accepted <==> WillDrain(st))
      && (!end.isProcessing <==> forall w :: 0 <= w < |end.workers| ==> end.workers[w] == Exited)
      && (end.isProcessing <==> |end.workers| > 0 && end.workers[|end.workers| - 1] == Receiving && end.queue == [])
  {
    ReachableKeepsInv(st);
    RunKeepsInv(st, more);
    InternalRunKeepsWillDrain(st, more);
    IdleDrainedIff(After(st, more));
    IdleFlag(After(st, more));
  }

  lemma IdleFlag(st: State)
    requires Inv(st) && Quiescent(st)
    ensures !st.isProcessing <==> forall w :: 0 <= w < |st.workers| ==> st.workers[w] == Exited
    ensures st.isProcessing <==> |st.workers| > 0 && st.workers[|st.workers| - 1] == Receiving && st.queue == []
  {
    QuiescentMeansIdle(st);
  }

  lemma IdleDrainedIff(st: State)
    requires Inv(st) && Quiescent(st)
    ensures st.processed == st.accepted <==> WillDrain(st)
  {
    QuiescentMeansIdle(st);
    assert InFlight(st) == [];
    assert |st.accepted| == |st.processed| + |st.queue|;
    if st.queue == [] {
      assert st.processed + [] + [] == st.processed;
    }
  }

  /** Such a run exists from every state, and by `InternalRunsEnd` every internal run can be continued to one. */
  lemma {:induction false} ReachesQuiescence(st: State, es: seq<Event>) returns (more: seq<Event>)
    requires CanRun(st, es) && AllInternal(es)
    ensures CanRun(st, more) && AllInternal(more) && es <= more
    ensures Quiescent(After(st, more))
    decreases Measure(After(st, es))
  {
    if Quiescent(After(st, es)) {
      return es;
    }
    var e :| Internal(e) && Enabled(After(st, es), e);
    assert (es + [e])[..|es|] == es;
    InternalStepDecreases(After(st, es), e);
    more := ReachesQuiescence(st, es + [e]);
  }

  /** A new request puts any state right, even one that is turned away before it queues anything, because it spawns
      its starter first: after it, however the goroutines go on, all that was queued ends up processed. */
  lemma AnyRequestMakesItDrain(st: State, more: seq<Event>)
    requires Reachable(st) && CanRun(Apply(st, Arrive), more) && AllInternal(more)
    requires Quiescent(After(Apply(st, Arrive), more))
    ensures After(Apply(st, Arrive), more).processed == st.accepted
  {
    var next := Apply(st, Arrive);
    StepIsReachable(st, Arrive);
    assert next.starters[|next.starters| - 1] == AtLock;
    DrainsIff(next, more);
  }

  // ---- How long a submission waits ----

  /** Submission number `i` has been queued, and is done or has a worker that has not seen an empty queue. */
  predicate Attended(st: State, i: nat) {
    i < |st.accepted| && (i < |st.processed| || (NewestLive(st) && st.workers[|st.workers| - 1] != SawEmpty))
  }

  /** Steps of the worker until it can process what is first in the queue. */
  function StepsToFirst(pc: WorkerPc): nat {
    match pc
    case Receiving => 2
    case SawWork => 3
    case Checking => 4
    case AtCheck => 5
    case Processing(_) => 6
    case SawEmpty => 0
    case Lowered => 0
    case Exited => 0
  }

  /** Steps of the worker until submission number `i` is processed. */
  function Wait(st: State, i: nat): int
    requires Attended(st, i)
  {
    if i < |st.processed| then 0
    else if i < |st.processed| + |InFlight(st)| then 1
    else 5 * (i - |st.processed| - |InFlight(st)|) + StepsToFirst(st.workers[|st.workers| - 1])
  }

  lemma WorkerStepShortensWait(st: State, w: nat, i: nat)
    requires Inv(st) && Enabled(st, WorkerStep(w)) && Attended(st, i)
    ensures Attended(WorkerMove(st, w), i)
    ensures Wait(WorkerMove(st, w), i) == if i < |st.processed| then 0 else Wait(st, i) - 1
  {
    WorkerMoveKeepsFlag(st, w);
    assert |st.processed + InFlight(st) + st.queue| == |st.accepted|;
  }

  lemma OtherStepsKeepWait(st: State, e: Event, i: nat)
    requires Inv(st) && Enabled(st, e) && !e.WorkerStep? && Attended(st, i)
    ensures Attended(Apply(st, e), i) && Wait(Apply(st, e), i) == Wait(st, i)
  {
    var after := Apply(st, e);
    if i >= |st.processed| {
      assert NewestLive(st) && !Spawning(st);
      assert forall s :: 0 <= s < |st.starters| && st.starters[s] == Raised ==>
        StarterHolds(st.starters[s]) && Spawning(st);
      assert after.workers == st.workers;
    }
  }

  function WorkerSteps(es: seq<Event>): nat {
    if es == [] then 0 else WorkerSteps(es[..|es| - 1]) + if es[|es| - 1].WorkerStep? then 1 else 0
  }

  lemma {:induction false} WaitRunsDown(st: State, more: seq<Event>, i: nat)
    requires Inv(st) && CanRun(st, more) && Attended(st, i)
    ensures Attended(After(st, more), i)
    ensures i < |After(st, more).processed| || Wait(After(st, more), i) == Wait(st, i) - WorkerSteps(more)
  {
    if more != [] {
      var init, e := more[..|more| - 1], more[|more| - 1];
      WaitRunsDown(st, init, i);
      RunKeepsInv(st, init);
      if e.WorkerStep? {
        WorkerStepShortensWait(After(st, init), e.w, i);
      } else {
        OtherStepsKeepWait(After(st, init), e, i);
      }
    }
  }

  lemma WaitIsBounded(st: State, i: nat)
    requires Inv(st) && Attended(st, i)
    ensures 0 <= Wait(st, i) <= 5 * CAPACITY + 1
    ensures Wait(st, i) == 0 <==> i < |st.processed|
  {
    assert |st.processed + InFlight(st) + st.queue| == |st.accepted|;
  }

  /** Bounded waiting, in every interleaving and with any number of further requests: a queued submission whose worker
      has not seen an empty queue is processed within 501 steps of the worker, and before those queued after it. */
  lemma AttendedSubmissionIsProcessed(st: State, more: seq<Event>, i: nat)
    requires Reachable(st) && Attended(st, i)
    requires CanRun(st, more) && WorkerSteps(more) > 500
    ensures var end := After(st, more);
      i < |end.processed| <= |end.accepted| && end.processed[i] == end.accepted[i] == st.accepted[i]
  {
    ReachableKeepsInv(st);
    RunKeepsInv(st, more);
    var end := After(st, more);
    WaitIsBounded(st, i);
    WaitRunsDown(st, more, i);
    WaitIsBounded(end, i);
    AcceptedGrows(st, more);
    assert end.processed[i] == (end.processed + InFlight(end) + end.queue)[i];
  }

  lemma {:induction false} AcceptedGrows(st: State, more: seq<Event>)
    requires CanRun(st, more)
    ensures st.accepted <= After(st, more).accepted
  {
    if more != [] {
      AcceptedGrows(st, more[..|more| - 1]);
    }
  }

  // ---- Every request serves those before it ----

  /** Once the starter has left its test behind, submission number `i` has a worker. */
  predicate ServedBy(st: State, s: nat, i: nat) {
    && s < |st.starters| && i < |st.accepted|
    && (st.starters[s] == Leaving || st.starters[s] == Finished ==> Attended(st, i))
  }

  /** Its test finds a worker that will look at the queue again, or makes it spawn one. */
  lemma OwnStepServes(st: State, s: nat, i: nat)
    requires Inv(st) && Enabled(st, StarterStep(s)) && ServedBy(st, s, i)
    ensures ServedBy(StarterMove(st, s), s, i)
  {
    if st.starters[s] == Leaving {
      OtherStepsKeepWait(st, StarterStep(s), i);
    } else if st.starters[s] == Testing && st.isProcessing {
      assert StarterHolds(st.starters[s]) && !Spawning(st);
    }
  }

  lemma OtherStepServes(st: State, e: Event, s: nat, i: nat)
    requires Inv(st) && Enabled(st, e) && e != StarterStep(s) && ServedBy(st, s, i)
    ensures ServedBy(Apply(st, e), s, i)
  {
    if Attended(st, i) {
      if e.WorkerStep? {
        WorkerStepShortensWait(st, e.w, i);
      } else {
        OtherStepsKeepWait(st, e, i);
      }
    }
  }

  lemma {:induction false} RunServes(st: State, more: seq<Event>, s: nat, i: nat)
    requires Inv(st) && CanRun(st, more) && ServedBy(st, s, i)
    ensures ServedBy(After(st, more), s, i)
  {
    if more != [] {
      var init, e := more[..|more| - 1], more[|more| - 1];
      RunServes(st, init, s, i);
      RunKeepsInv(st, init);
      if e == StarterStep(s) {
        OwnStepServes(After(st, init), s, i);
      } else {
        OtherStepServes(After(st, init), e, s, i);
      }
    }
  }

  lemma {:induction false} RunIsReachable(st: State, more: seq<Event>)
    requires Reachable(st) && CanRun(st, more)
    ensures Reachable(After(st, more))
  {
    if more != [] {
      RunIsReachable(st, more[..|more| - 1]);
      StepIsReachable(After(st, more[..|more| - 1]), more[|more| - 1]);
    }
  }

  /** In every interleaving with any number of further requests: once the starter of a request has finished, each
      submission queued before the request is done or has a worker that has not seen an empty queue. */
  lemma EveryRequestServesThoseBefore(st: State, more: seq<Event>, i: nat)
    requires Reachable(st) && i < |st.accepted| && CanRun(Apply(st, Arrive), more)
    ensures var s, end := |st.starters|, After(Apply(st, Arrive), more);
      && Reachable(end) && s < |end.starters| && st.accepted <= end.accepted
      && (end.starters[s] == Finished ==> Attended(end, i))
  {
    var next := Apply(st, Arrive);
    StepIsReachable(st, Arrive);
    ReachableKeepsInv(next);
    RunIsReachable(next, more);
    AcceptedGrows(next, more);
    RunServes(next, more, |st.starters|, i);
  }

  /** So each of them is processed, at its place in the order, within 501 further steps of the worker. */
  lemma ThoseBeforeAreProcessed(st: State, more: seq<Event>, end: State, later: seq<Event>, i: nat)
    requires Reachable(st) && i < |st.accepted| && CanRun(Apply(st, Arrive), more)
    requires end == After(Apply(st, Arrive), more)
    requires |st.starters| < |end.starters| && end.starters[|st.starters|] == Finished
    requires CanRun(end, later) && WorkerSteps(later) > 500
    ensures i < |After(end, later).processed| && After(end, later).processed[i] == st.accepted[i]
  {
    EveryRequestServesThoseBefore(st, more, i);
    AttendedSubmissionIsProcessed(end, later, i);
  }

  // ---- A run that strands a submission ----

  lemma Extend(es: seq<Event>, st: State, e: Event) returns (longer: seq<Event>, next: State)
    requires CanRun(INITIAL, es) && After(INITIAL, es) == st && Enabled(st, e)
    ensures CanRun(INITIAL, longer) && After(INITIAL, longer) == next && next == Apply(st, e)
  {
    longer, next := es + [e], Apply(st, e);
    assert longer[..|es|] == es;
  }

  /** Two requests come and a worker starts; the second starter finds it running and leaves. */
  lemma TwoRequestsOneWorker() returns (es: seq<Event>, st: State)
    ensures CanRun(INITIAL, es) && After(INITIAL, es) == st
    ensures st == State(true, Nobody, [], [Preparing, Preparing], [Finished, Finished], [Receiving], [], [])
  {
    es, st := [], INITIAL;
    es, st := Extend(es, st, Arrive);
    es, st := Extend(es, st, Arrive);
    es, st := Extend(es, st, StarterStep(0));
    es, st := Extend(es, st, StarterStep(0));
    es, st := Extend(es, st, StarterStep(0));
    es, st := Extend(es, st, StarterStep(0));
    es, st := Extend(es, st, StarterStep(1));
    es, st := Extend(es, st, StarterStep(1));
    es, st := Extend(es, st, StarterStep(1));
  }

  lemma WorkerSeesEmptyQueue() returns (es: seq<Event>, st: State)
    ensures CanRun(INITIAL, es) && After(INITIAL, es) == st
    ensures st == State(true, Worker(0), [], [Queued, Preparing], [Finished, Finished], [SawEmpty], [0], [0])
  {
    es, st := TwoRequestsOneWorker();
    es, st := Extend(es, st, Enqueue(0));
    es, st := Extend(es, st, WorkerStep(0));
    es, st := Extend(es, st, WorkerStep(0));
    es, st := Extend(es, st, WorkerStep(0));
    es, st := Extend(es, st, WorkerStep(0));
  }

  /** The second request queues its submission just after the worker saw an empty queue. It stays in the channel and
      no goroutine is left to take it. */
  lemma ASubmissionCanBeStranded() returns (es: seq<Event>, st: State)
    ensures CanRun(INITIAL, es) && After(INITIAL, es) == st && Quiescent(st)
    ensures st == State(false, Nobody, [1], [Queued, Queued], [Finished, Finished], [Exited], [0, 1], [0])
  {
    es, st := WorkerSeesEmptyQueue();
    es, st := Extend(es, st, Enqueue(1));
    es, st := Extend(es, st, WorkerStep(0));
    es, st := Extend(es, st, WorkerStep(0));
  }

  // ---- The steps as the program takes them ----

  /** The package-level variables of the handlers, with the program counters of the goroutines around them. Each
      method is one atomic action; the two histories exist only for the specification. */
  class Processor {
    var isProcessing: bool
    var lock: Owner
    var queue: seq<nat>
    var handlers: seq<HandlerPc>
    var starters: seq<StarterPc>
    var workers: seq<WorkerPc>
    ghost var accepted: seq<nat>
    ghost var processed: seq<nat>

    ghost function Snapshot(): State
      reads this
    {
      State(isProcessing, lock, queue, handlers, starters, workers, accepted, processed)
    }

    ghost predicate Valid()
      reads this
    {
      Inv(Snapshot())
    }

    constructor ()
      ensures Valid() && Snapshot() == INITIAL
    {
      isProcessing, lock, queue := false, Nobody, [];
      handlers, starters, workers := [], [], [];
      accepted, processed := [], [];
    }

    /** A request with the right method arrives; its handler spawns a starter before it looks at the rest. */
    method Arrive() returns (h: nat)
      requires Valid()
      modifies this`starters, this`handlers
      ensures Valid() && Snapshot() == Apply(old(Snapshot()), Event.Arrive)
      ensures h == |old(handlers)|
      ensures handlers == old(handlers) + [Preparing] && starters == old(starters) + [AtLock]
    {
      ArriveKeepsInv(Snapshot());
      h := |handlers|;
      starters := starters + [AtLock];
      handlers := handlers + [Preparing];
    }

    /** The handler answers with an error and queues nothing. */
    method Reject(h: nat)
      requires Valid() && Enabled(Snapshot(), Event.Reject(h))
      modifies this`handlers
      ensures Valid() && Snapshot() == Apply(old(Snapshot()), Event.Reject(h))
      ensures handlers == old(handlers)[h := Rejected]
    {
      RejectKeepsInv(Snapshot(), h);
      handlers := handlers[h := Rejected];
    }

    /** The handler sends its submission to the channel; a full channel blocks it. */
    method Enqueue(h: nat)
      requires Valid() && Enabled(Snapshot(), Event.Enqueue(h))
      modifies this`queue, this`handlers, this`accepted
      ensures Valid() && Snapshot() == Apply(old(Snapshot()), Event.Enqueue(h))
      ensures |old(queue)| < 100 && queue == old(queue) + [h] && accepted == old(accepted) + [h]
      ensures handlers == old(handlers)[h := Queued]
    {
      EnqueueKeepsInv(Snapshot(), h);
      queue := queue + [h];
      handlers := handlers[h := Queued];
      accepted := accepted + [h];
    }

    /** One action of startSubmissionProcessor. */
    method StepStarter(s: nat)
      requires Valid() && Enabled(Snapshot(), StarterStep(s))
      modifies this
      ensures Valid() && Snapshot() == Apply(old(Snapshot()), StarterStep(s))
    {
      match starters[s] {
        case AtLock => StarterLocks(s);
        case Testing => StarterTests(s);
        case Raised => StarterSpawns(s);
        case Leaving => StarterUnlocks(s);
      }
    }

    method StarterLocks(s: nat)
      requires Valid() && Enabled(Snapshot(), StarterStep(s)) && starters[s] == AtLock
      modifies this`lock, this`starters
      ensures Valid() && Snapshot() == StarterMove(old(Snapshot()), s)
      ensures old(lock) == Nobody && lock == Starter(s) && starters == old(starters)[s := Testing]
    {
      StarterMoveKeepsInv(Snapshot(), s);
      lock := Starter(s);
      starters := starters[s := Testing];
    }

    method StarterTests(s: nat)
      requires Valid() && Enabled(Snapshot(), StarterStep(s)) && starters[s] == Testing
      modifies this`isProcessing, this`starters
      ensures Valid() && Snapshot() == StarterMove(old(Snapshot()), s)
      ensures isProcessing && starters == old(starters)[s := if old(isProcessing) then Leaving else Raised]
    {
      StarterMoveKeepsInv(Snapshot(), s);
      if !isProcessing {
        isProcessing := true;
        starters := starters[s := Raised];
      } else {
        starters := starters[s := Leaving];
      }
    }

    method StarterSpawns(s: nat)
      requires Valid() && Enabled(Snapshot(), StarterStep(s)) && starters[s] == Raised
      modifies this`workers, this`starters
      ensures Valid() && Snapshot() == StarterMove(old(Snapshot()), s)
      ensures workers == old(workers) + [Receiving] && starters == old(starters)[s := Leaving]
    {
      StarterMoveKeepsInv(Snapshot(), s);
      workers := workers + [Receiving];
      starters := starters[s := Leaving];
    }

    method StarterUnlocks(s: nat)
      requires Valid() && Enabled(Snapshot(), StarterStep(s)) && starters[s] == Leaving
      modifies this`lock, this`starters
      ensures Valid() && Snapshot() == StarterMove(old(Snapshot()), s)
      ensures lock == Nobody && starters == old(starters)[s := Finished]
    {
      StarterMoveKeepsInv(Snapshot(), s);
      lock := Nobody;
      starters := starters[s := Finished];
    }

    /** One action of processSubmissionQueue. */
    method StepWorker(w: nat)
      requires Valid() && Enabled(Snapshot(), WorkerStep(w))
      modifies this
      ensures Valid() && Snapshot() == Apply(old(Snapshot()), WorkerStep(w))
    {
      match workers[w] {
        case Receiving => WorkerReceives(w);
        case Processing(_) => WorkerEndsProcessing(w);
        case AtCheck => WorkerLocks(w);
        case Checking => WorkerTests(w);
        case SawWork => WorkerUnlocks(w);
        case SawEmpty => WorkerLowers(w);
        case Lowered => WorkerUnlocks(w);
      }
    }

    method WorkerReceives(w: nat)
      requires Valid() && Enabled(Snapshot(), WorkerStep(w)) && workers[w] == Receiving
      modifies this`workers, this`queue
      ensures Valid() && Snapshot() == WorkerMove(old(Snapshot()), w)
      ensures old(queue) == [old(queue)[0]] + queue
      ensures workers == old(workers)[w := Processing(old(queue)[0])]
    {
      WorkerMoveKeepsInv(Snapshot(), w);
      workers := workers[w := Processing(queue[0])];
      queue := queue[1..];
    }

    method WorkerEndsProcessing(w: nat)
      requires Valid() && Enabled(Snapshot(), WorkerStep(w)) && workers[w].Processing?
      modifies this`workers, this`processed
      ensures Valid() && Snapshot() == WorkerMove(old(Snapshot()), w)
      ensures processed == old(processed) + [old(workers)[w].id] && workers == old(workers)[w := AtCheck]
    {
      WorkerMoveKeepsInv(Snapshot(), w);
      processed := processed + [workers[w].id];
      workers := workers[w := AtCheck];
    }

    method WorkerLocks(w: nat)
      requires Valid() && Enabled(Snapshot(), WorkerStep(w)) && workers[w] == AtCheck
      modifies this`lock, this`workers
      ensures Valid() && Snapshot() == WorkerMove(old(Snapshot()), w)
      ensures old(lock) == Nobody && lock == Worker(w) && workers == old(workers)[w := Checking]
    {
      WorkerMoveKeepsInv(Snapshot(), w);
      lock := Worker(w);
      workers := workers[w := Checking];
    }

    method WorkerTests(w: nat)
      requires Valid() && Enabled(Snapshot(), WorkerStep(w)) && workers[w] == Checking
      modifies this`workers
      ensures Valid() && Snapshot() == WorkerMove(old(Snapshot()), w)
      ensures workers == old(workers)[w := if queue == [] then SawEmpty else SawWork]
    {
      WorkerMoveKeepsInv(Snapshot(), w);
      if |queue| == 0 {
        workers := workers[w := SawEmpty];
      } else {
        workers := workers[w := SawWork];
      }
    }

    method WorkerLowers(w: nat)
      requires Valid() && Enabled(Snapshot(), WorkerStep(w)) && workers[w] == SawEmpty
      modifies this`isProcessing, this`workers
      ensures Valid() && Snapshot() == WorkerMove(old(Snapshot()), w)
      ensures !isProcessing && workers == old(workers)[w := Lowered]
    {
      WorkerMoveKeepsInv(Snapshot(), w);
      isProcessing := false;
      workers := workers[w := Lowered];
    }

    /** The end of the turn, or of the worker. */
    method WorkerUnlocks(w: nat)
      requires Valid() && Enabled(Snapshot(), WorkerStep(w)) && (workers[w] == SawWork || workers[w] == Lowered)
      modifies this`lock, this`workers
      ensures Valid() && Snapshot() == WorkerMove(old(Snapshot()), w)
      ensures lock == Nobody
      ensures workers == old(workers)[w := if old(workers)[w] == SawWork then Receiving else Exited]
    {
      WorkerMoveKeepsInv(Snapshot(), w);
      lock := Nobody;
      workers := workers[w := if workers[w] == SawWork then Receiving else Exited];
    }
  }
}
